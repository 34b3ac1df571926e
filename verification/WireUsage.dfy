/** The usage buckets of a Messages wire and their cumulative fold. */
module WireUsage {
  import opened Common
  import opened Json
  import Events

  datatype WireUsage = WireUsage(
    uncachedInput: nat, output: nat, cacheRead: nat, cacheWrite: nat,
    cacheWrite5m: nat, cacheWrite1h: nat)

  const ZERO := WireUsage(0, 0, 0, 0, 0, 0)

  /** Which counts a report must carry. */
  datatype Kind = Message | StreamStart | StreamDelta

  datatype UsageError =
    | NoUsageObject | MissingCount | InvalidCount | NoTierTotal | TiersDoNotAddUp
    | InvalidTiers | CountsOverflow | CountShrank

  // ----- one report

  function WireCount(raw: Value, key: string, required: bool): Result<nat, UsageError> {
    if Missing(raw, key) then (if required then Err(MissingCount) else Ok(0))
    else match AsU64(At(raw, key))
      case None => Err(InvalidCount)
      case Some(n) => Ok(n)
  }

  /** The 5-minute / 1-hour split of a report. */
  function Tiers(raw: Value, cacheWrite: nat): Result<(nat, nat), UsageError> {
    if Missing(raw, "cache_creation") then Ok((0, 0))
    else
      var tiers := At(raw, "cache_creation");
      if !tiers.Obj? then Err(InvalidTiers)
      else if Missing(raw, "cache_creation_input_tokens") then Err(NoTierTotal)
      else match WireCount(tiers, "ephemeral_5m_input_tokens", true)
        case Err(e) => Err(e)
        case Ok(m5) =>
          match WireCount(tiers, "ephemeral_1h_input_tokens", true)
          case Err(e) => Err(e)
          case Ok(h1) =>
            if CheckedAdd(m5, h1) == Some(cacheWrite) then Ok((m5, h1)) else Err(TiersDoNotAddUp)
  }

  /** `WireUsage::of`. */
  function Of(raw: Value, kind: Kind): Result<WireUsage, UsageError> {
    if !raw.Obj? then Err(NoUsageObject)
    else match WireCount(raw, "input_tokens", !kind.StreamDelta?)
      case Err(e) => Err(e)
      case Ok(input) =>
        match WireCount(raw, "output_tokens", !kind.StreamStart?)
        case Err(e) => Err(e)
        case Ok(output) =>
          match WireCount(raw, "cache_read_input_tokens", false)
          case Err(e) => Err(e)
          case Ok(read) =>
            match WireCount(raw, "cache_creation_input_tokens", false)
            case Err(e) => Err(e)
            case Ok(write) =>
              match Tiers(raw, write)
              case Err(e) => Err(e)
              case Ok((m5, h1)) =>
                if input + read + write > U64_MAX then Err(CountsOverflow)
                else Ok(WireUsage(input, output, read, write, m5, h1))
  }

  predicate HasSplit(u: WireUsage) {
    u.cacheWrite5m > 0 || u.cacheWrite1h > 0
  }

  /** A split is absent or adds up to its total. */
  predicate SplitAddsUp(u: WireUsage) {
    HasSplit(u) ==> u.cacheWrite5m + u.cacheWrite1h == u.cacheWrite
  }

  /** What every accepted report satisfies. */
  predicate IsReport(u: WireUsage) {
    SplitAddsUp(u) && u.uncachedInput + u.cacheRead + u.cacheWrite <= U64_MAX && u.output <= U64_MAX
  }

  lemma OfIsReport(raw: Value, kind: Kind)
    ensures Of(raw, kind).Ok? ==> IsReport(Of(raw, kind).value)
  {
    if Of(raw, kind).Ok? {
      assert WireCount(raw, "output_tokens", !kind.StreamStart?).Ok?;
    }
  }

  // ----- the fold

  function Cumulative(earlier: nat, later: nat): Option<nat> {
    if later == 0 then Some(earlier) else if later < earlier then None else Some(later)
  }

  /** `WireUsage::absorb`. */
  function Absorb(u: WireUsage, later: WireUsage): Option<WireUsage> {
    match (Cumulative(u.uncachedInput, later.uncachedInput), Cumulative(u.output, later.output),
           Cumulative(u.cacheRead, later.cacheRead), Cumulative(u.cacheWrite, later.cacheWrite))
    case (Some(input), Some(output), Some(read), Some(_)) =>
      if later.cacheWrite > u.cacheWrite
         || (later.cacheWrite == u.cacheWrite && HasSplit(later) && !HasSplit(u))
      then Some(WireUsage(input, output, read,
                          later.cacheWrite, later.cacheWrite5m, later.cacheWrite1h))
      else Some(WireUsage(input, output, read, u.cacheWrite, u.cacheWrite5m, u.cacheWrite1h))
    case _ => None
  }

  function Fold(reports: seq<WireUsage>): Option<WireUsage> {
    if reports == [] then Some(ZERO)
    else match Fold(reports[..|reports| - 1])
      case None => None
      case Some(u) => Absorb(u, reports[|reports| - 1])
  }

  /** The non-zero values never decrease. */
  predicate NeverShrinks(b: seq<nat>) {
    forall i, j :: 0 <= i < j < |b| && b[j] > 0 ==> b[i] <= b[j]
  }

  predicate IsMax(b: seq<nat>, m: nat) {
    (forall i :: 0 <= i < |b| ==> b[i] <= m) && (m == 0 || m in b)
  }

  const INPUT := (u: WireUsage) => u.uncachedInput
  const OUTPUT := (u: WireUsage) => u.output
  const READ := (u: WireUsage) => u.cacheRead
  const WRITE := (u: WireUsage) => u.cacheWrite

  predicate Monotone(reports: seq<WireUsage>) {
    && NeverShrinks(Column(reports, INPUT)) && NeverShrinks(Column(reports, OUTPUT))
    && NeverShrinks(Column(reports, READ)) && NeverShrinks(Column(reports, WRITE))
  }

  /** The split of `u` is the first one reported together with the largest cache-write total, and
      zero when no report brought one. */
  predicate SplitOfMax(reports: seq<WireUsage>, u: WireUsage) {
    if HasSplit(u) then
      exists k :: 0 <= k < |reports| && FirstSplitAt(reports, u.cacheWrite, k)
        && u.cacheWrite5m == reports[k].cacheWrite5m && u.cacheWrite1h == reports[k].cacheWrite1h
    else forall k :: 0 <= k < |reports| && reports[k].cacheWrite == u.cacheWrite ==> !HasSplit(reports[k])
  }

  predicate FirstSplitAt(reports: seq<WireUsage>, total: nat, k: nat)
    requires k < |reports|
  {
    && reports[k].cacheWrite == total && HasSplit(reports[k])
    && forall i :: 0 <= i < k && reports[i].cacheWrite == total ==> !HasSplit(reports[i])
  }

  predicate Folded(reports: seq<WireUsage>, u: WireUsage) {
    && IsMax(Column(reports, INPUT), u.uncachedInput) && IsMax(Column(reports, OUTPUT), u.output)
    && IsMax(Column(reports, READ), u.cacheRead) && IsMax(Column(reports, WRITE), u.cacheWrite)
    && SplitOfMax(reports, u)
  }

  /** One bucket, one report further. */
  lemma BucketStep(reports: seq<WireUsage>, get: WireUsage -> nat, m: nat)
    requires reports != []
    requires IsMax(Column(reports[..|reports| - 1], get), m)
    ensures var later := get(reports[|reports| - 1]);
            && (Cumulative(m, later).None? ==> !NeverShrinks(Column(reports, get)))
            && (Cumulative(m, later).Some? && NeverShrinks(Column(reports[..|reports| - 1], get)) ==>
                  && NeverShrinks(Column(reports, get))
                  && IsMax(Column(reports, get), Cumulative(m, later).value))
  {
    var n := |reports| - 1;
    var before, all := Column(reports[..n], get), Column(reports, get);
    assert forall i :: 0 <= i < n ==> all[i] == before[i];
    assert all[n] == get(reports[n]);
    if m > 0 {
      var k :| 0 <= k < n && before[k] == m;
      assert all[k] == m;
    }
  }

  lemma NeverShrinksPrefix(reports: seq<WireUsage>, get: WireUsage -> nat)
    requires reports != [] && NeverShrinks(Column(reports, get))
    ensures NeverShrinks(Column(reports[..|reports| - 1], get))
  {
    var before, all := Column(reports[..|reports| - 1], get), Column(reports, get);
    assert forall i :: 0 <= i < |before| ==> all[i] == before[i];
  }

  lemma SplitStep(reports: seq<WireUsage>, u: WireUsage, v: WireUsage)
    requires reports != [] && SplitOfMax(reports[..|reports| - 1], u)
    requires IsMax(Column(reports[..|reports| - 1], WRITE), u.cacheWrite)
    requires Absorb(u, reports[|reports| - 1]) == Some(v)
    requires forall i :: 0 <= i < |reports| ==> IsReport(reports[i])
    ensures SplitOfMax(reports, v)
  {
    var n := |reports| - 1;
    var before, later := reports[..n], reports[n];
    assert forall i :: 0 <= i < n ==> before[i] == reports[i];
    assert forall i :: 0 <= i < n ==> Column(before, WRITE)[i] == reports[i].cacheWrite;
    if later.cacheWrite > u.cacheWrite {
      if HasSplit(later) {
        assert FirstSplitAt(reports, v.cacheWrite, n);
      }
    } else if later.cacheWrite == u.cacheWrite && HasSplit(later) && !HasSplit(u) {
      assert FirstSplitAt(reports, v.cacheWrite, n);
    } else if HasSplit(u) {
      var k :| 0 <= k < n && FirstSplitAt(before, u.cacheWrite, k)
        && u.cacheWrite5m == before[k].cacheWrite5m && u.cacheWrite1h == before[k].cacheWrite1h;
      assert FirstSplitAt(reports, v.cacheWrite, k);
    }
  }

  /** The fold of reports succeeds exactly when no bucket's non-zero values decrease; then every
      bucket is its maximum and the split is the first one reported at the largest total. */
  lemma {:induction false} FoldExact(reports: seq<WireUsage>)
    requires forall i :: 0 <= i < |reports| ==> IsReport(reports[i])
    ensures Fold(reports).Some? <==> Monotone(reports)
    ensures Fold(reports).Some? ==> Folded(reports, Fold(reports).value)
    ensures Fold(reports).Some? ==> SplitAddsUp(Fold(reports).value)
  {
    if reports != [] {
      hide IsMax, NeverShrinks, SplitOfMax;
      var init := reports[..|reports| - 1];
      FoldExact(init);
      if Fold(init).Some? {
        var u := Fold(init).value;
        BucketStep(reports, INPUT, u.uncachedInput);
        BucketStep(reports, OUTPUT, u.output);
        BucketStep(reports, READ, u.cacheRead);
        BucketStep(reports, WRITE, u.cacheWrite);
        if Fold(reports).Some? {
          SplitStep(reports, u, Fold(reports).value);
        }
      } else if Monotone(reports) {
        NeverShrinksPrefix(reports, INPUT);
        NeverShrinksPrefix(reports, OUTPUT);
        NeverShrinksPrefix(reports, READ);
        NeverShrinksPrefix(reports, WRITE);
      }
    }
  }

  // ----- the canonical usage

  /** `WireUsage::to_ir`: the prompt is the sum of the three input buckets. */
  function ToIr(u: WireUsage): Events.Usage {
    Events.Usage(
      SaturatingAdd(SaturatingAdd(u.uncachedInput, u.cacheRead), u.cacheWrite), u.output,
      u.cacheRead, u.cacheWrite, u.cacheWrite5m, u.cacheWrite1h, 0, 0)
  }

  /** A consumer that keeps the last non-zero value of a count. */
  function LastNonZero(values: seq<nat>): nat {
    if values == [] then 0
    else if values[|values| - 1] > 0 then values[|values| - 1]
    else LastNonZero(values[..|values| - 1])
  }

  /** The running canonical usages of a report sequence, one per report. */
  function Running(reports: seq<WireUsage>): (r: seq<Events.Usage>)
    requires Fold(reports).Some?
    ensures |r| == |reports|
  {
    if reports == [] then []
    else Running(reports[..|reports| - 1]) + [ToIr(Fold(reports).value)]
  }

  lemma {:induction false} RunningGrows(reports: seq<WireUsage>, i: nat)
    requires Fold(reports).Some? && i < |reports|
    ensures var last := ToIr(Fold(reports).value);
            var r := Running(reports)[i];
            && r.input <= last.input && r.output <= last.output
            && r.cacheRead <= last.cacheRead && r.cacheWrite <= last.cacheWrite
  {
    var init := reports[..|reports| - 1];
    if i < |init| {
      RunningGrows(init, i);
    }
  }

  lemma {:induction false} LastNonZeroOfGrowing(values: seq<nat>, last: nat)
    requires values != [] && values[|values| - 1] == last
    requires forall i :: 0 <= i < |values| ==> values[i] <= last
    ensures LastNonZero(values) == last
  {
    if last == 0 && |values| > 1 {
      LastNonZeroOfGrowing(values[..|values| - 1], 0);
    }
  }

  lemma {:induction false} LastNonZeroExact(values: seq<nat>)
    requires values != []
    ensures var last := values[|values| - 1];
            LastNonZero(values) == last <==> last > 0 || forall i :: 0 <= i < |values| ==> values[i] == 0
  {
    var init := values[..|values| - 1];
    if values[|values| - 1] == 0 && init != [] {
      LastNonZeroOrNone(init);
    }
  }

  lemma {:induction false} LastNonZeroOrNone(values: seq<nat>)
    ensures LastNonZero(values) == 0 <==> forall i :: 0 <= i < |values| ==> values[i] == 0
  {
    if values != [] {
      LastNonZeroOrNone(values[..|values| - 1]);
    }
  }

  /** A consumer that keeps the cache-write total and its split as one group, from the last usage
      with a non-zero total. */
  function LastGroup(usages: seq<Events.Usage>): (nat, nat, nat) {
    if usages == [] then (0, 0, 0)
    else
      var last := usages[|usages| - 1];
      if last.cacheWrite > 0 then (last.cacheWrite, last.cacheWrite5m, last.cacheWrite1h)
      else LastGroup(usages[..|usages| - 1])
  }

  lemma {:induction false} LastGroupNone(usages: seq<Events.Usage>)
    requires forall i :: 0 <= i < |usages| ==> usages[i].cacheWrite == 0
    ensures LastGroup(usages) == (0, 0, 0)
  {
    if usages != [] {
      LastGroupNone(usages[..|usages| - 1]);
    }
  }

  /** A field-wise last-non-zero consumer of running usages that end in `last` keeps the four counts. */
  ghost predicate Keeps(r: seq<Events.Usage>, last: Events.Usage) {
    && LastNonZero(Column(r, (u: Events.Usage) => u.input)) == last.input
    && LastNonZero(Column(r, (u: Events.Usage) => u.output)) == last.output
    && LastNonZero(Column(r, (u: Events.Usage) => u.cacheRead)) == last.cacheRead
    && LastNonZero(Column(r, (u: Events.Usage) => u.cacheWrite)) == last.cacheWrite
  }

  // ----- written reports

  /** A usage object as the wire writes it, with its split if it has one. */
  function WriteUsage(u: WireUsage): Value {
    if HasSplit(u) then
      Obj(map["input_tokens" := Int(u.uncachedInput), "output_tokens" := Int(u.output),
              "cache_read_input_tokens" := Int(u.cacheRead), "cache_creation_input_tokens" := Int(u.cacheWrite),
              "cache_creation" := Obj(map["ephemeral_5m_input_tokens" := Int(u.cacheWrite5m),
                                          "ephemeral_1h_input_tokens" := Int(u.cacheWrite1h)])])
    else
      Obj(map["input_tokens" := Int(u.uncachedInput), "output_tokens" := Int(u.output),
              "cache_read_input_tokens" := Int(u.cacheRead), "cache_creation_input_tokens" := Int(u.cacheWrite)])
  }

  lemma UsageMembers(u: WireUsage, required: bool)
    requires IsReport(u)
    ensures var raw := WriteUsage(u);
            && raw.Obj? && WireCount(raw, "input_tokens", required) == Ok(u.uncachedInput)
            && WireCount(raw, "output_tokens", required) == Ok(u.output)
            && WireCount(raw, "cache_read_input_tokens", false) == Ok(u.cacheRead)
            && WireCount(raw, "cache_creation_input_tokens", false) == Ok(u.cacheWrite)
            && Tiers(raw, u.cacheWrite) == Ok((u.cacheWrite5m, u.cacheWrite1h))
  {
  }

  /** A written report is read back, and to the canonical usage: the prompt is the sum of its three
      buckets, and the rest are as written. */
  lemma UsageWritten(u: WireUsage, kind: Kind)
    requires IsReport(u)
    ensures Of(WriteUsage(u), kind) == Ok(u)
    ensures ToIr(u)
         == Events.Usage(u.uncachedInput + u.cacheRead + u.cacheWrite, u.output, u.cacheRead, u.cacheWrite,
                         u.cacheWrite5m, u.cacheWrite1h, 0, 0)
  {
    UsageMembers(u, true);
    UsageMembers(u, false);
    hide WriteUsage, WireCount, Tiers;
  }

  /** The counts a report must carry: the input unless it is a stream's delta, and the output unless
      it is a stream's start. */
  lemma CountsRequired(raw: Value, kind: Kind)
    ensures Of(raw, kind).Ok? && Missing(raw, "input_tokens") ==> kind.StreamDelta?
    ensures Of(raw, kind).Ok? && Missing(raw, "output_tokens") ==> kind.StreamStart?
  {
    hide Tiers;
  }

  // ----- the tiers

  datatype Tier = FiveMinutes | OneHour

  function TierOf(u: WireUsage, t: Tier): nat {
    match t case FiveMinutes => u.cacheWrite5m case OneHour => u.cacheWrite1h
  }

  function UsageTier(u: Events.Usage, t: Tier): nat {
    match t case FiveMinutes => u.cacheWrite5m case OneHour => u.cacheWrite1h
  }

  function TierColumn(r: seq<Events.Usage>, t: Tier): (c: seq<nat>)
    ensures |c| == |r| && forall i :: 0 <= i < |c| ==> c[i] == UsageTier(r[i], t)
  {
    Column(r, (u: Events.Usage) => UsageTier(u, t))
  }

  /** Report `k` brings the tier: it is the first with a split at its total, and the tier is in it. */
  predicate Shows(reports: seq<WireUsage>, t: Tier, k: nat)
    requires k < |reports|
  {
    TierOf(reports[k], t) > 0 && FirstSplitAt(reports, reports[k].cacheWrite, k)
  }

  predicate HasLargestTotal(reports: seq<WireUsage>, k: nat)
    requires k < |reports|
  {
    forall i :: 0 <= i < |reports| ==> reports[i].cacheWrite <= reports[k].cacheWrite
  }

  /** Some report that brings the tier has the largest total. */
  predicate ShownAtLargest(reports: seq<WireUsage>, t: Tier) {
    exists k :: 0 <= k < |reports| && Shows(reports, t, k) && HasLargestTotal(reports, k)
  }

  /** Some report brings the tier. */
  predicate Shown(reports: seq<WireUsage>, t: Tier) {
    exists k :: 0 <= k < |reports| && Shows(reports, t, k)
  }

  /** A field-wise consumer of the usages `r` ends with the tier of `u` exactly when a report that
      brings the tier has the largest total, or no report brings it. */
  ghost predicate TierFollows(reports: seq<WireUsage>, r: seq<Events.Usage>, u: WireUsage, t: Tier) {
    LastNonZero(TierColumn(r, t)) == TierOf(u, t) <==> ShownAtLargest(reports, t) || !Shown(reports, t)
  }

  ghost predicate TiersFollow(reports: seq<WireUsage>, r: seq<Events.Usage>, u: WireUsage) {
    TierFollows(reports, r, u, FiveMinutes) && TierFollows(reports, r, u, OneHour)
  }

  predicate AllReports(reports: seq<WireUsage>) {
    forall i :: 0 <= i < |reports| ==> IsReport(reports[i])
  }

  lemma LargestIsFolded(reports: seq<WireUsage>, m: nat, k: nat)
    requires IsMax(Column(reports, WRITE), m) && k < |reports| && reports[k].cacheWrite > 0
    ensures HasLargestTotal(reports, k) <==> reports[k].cacheWrite == m
  {
    var c := Column(reports, WRITE);
    assert forall i :: 0 <= i < |reports| ==> c[i] == reports[i].cacheWrite;
  }

  lemma ShowsReport(reports: seq<WireUsage>, t: Tier, k: nat)
    requires AllReports(reports) && k < |reports| && Shows(reports, t, k)
    ensures reports[k].cacheWrite > 0 && HasSplit(reports[k])
  {
    assert IsReport(reports[k]);
  }

  lemma SplitShows(reports: seq<WireUsage>, u: WireUsage, t: Tier)
    requires AllReports(reports) && Folded(reports, u) && TierOf(u, t) > 0
    ensures ShownAtLargest(reports, t)
  {
    hide IsMax;
    var k :| 0 <= k < |reports| && FirstSplitAt(reports, u.cacheWrite, k)
             && u.cacheWrite5m == reports[k].cacheWrite5m && u.cacheWrite1h == reports[k].cacheWrite1h;
    assert Shows(reports, t, k);
    ShowsReport(reports, t, k);
    LargestIsFolded(reports, u.cacheWrite, k);
  }

  lemma LargestShows(reports: seq<WireUsage>, u: WireUsage, t: Tier)
    requires AllReports(reports) && Folded(reports, u) && ShownAtLargest(reports, t)
    ensures TierOf(u, t) > 0
  {
    hide IsMax, HasLargestTotal;
    var k :| 0 <= k < |reports| && Shows(reports, t, k) && HasLargestTotal(reports, k);
    ShowsReport(reports, t, k);
    LargestIsFolded(reports, u.cacheWrite, k);
  }

  /** The folded tier is non-zero exactly when a report that brings it has the largest total. */
  lemma FoldedTier(reports: seq<WireUsage>, t: Tier)
    requires Fold(reports).Some? && AllReports(reports)
    ensures TierOf(Fold(reports).value, t) > 0 <==> ShownAtLargest(reports, t)
  {
    FoldExact(reports);
    hide Fold, Monotone, Folded, ShownAtLargest;
    var u := Fold(reports).value;
    if TierOf(u, t) > 0 {
      SplitShows(reports, u, t);
    }
    if ShownAtLargest(reports, t) {
      LargestShows(reports, u, t);
    }
  }

  lemma {:induction false} RunningAt(reports: seq<WireUsage>, i: nat)
    requires Fold(reports).Some? && i < |reports|
    ensures Fold(reports[..i + 1]).Some? && Running(reports)[i] == ToIr(Fold(reports[..i + 1]).value)
  {
    hide Absorb, ToIr;
    var init := reports[..|reports| - 1];
    if i < |init| {
      RunningAt(init, i);
      assert init[..i + 1] == reports[..i + 1];
    } else {
      assert reports[..i + 1] == reports;
    }
  }

  lemma ShowsPrefix(reports: seq<WireUsage>, t: Tier, k: nat, n: nat)
    requires k < n <= |reports|
    ensures Shows(reports[..n], t, k) <==> Shows(reports, t, k)
  {
    assert forall i :: 0 <= i < n ==> reports[..n][i] == reports[i];
  }

  /** The report that brings a tier has the largest total so far. */
  lemma ShowsFirst(reports: seq<WireUsage>, t: Tier, k: nat)
    requires Monotone(reports) && AllReports(reports) && k < |reports| && Shows(reports, t, k)
    ensures ShownAtLargest(reports[..k + 1], t)
  {
    var prefix := reports[..k + 1];
    assert IsReport(reports[k]) && reports[k].cacheWrite > 0;
    var c := Column(reports, WRITE);
    assert forall i :: 0 <= i < |reports| ==> c[i] == reports[i].cacheWrite;
    ShowsPrefix(reports, t, k, k + 1);
    assert HasLargestTotal(prefix, k);
  }

  lemma {:induction false} FoldMonotone(reports: seq<WireUsage>)
    requires Fold(reports).Some? && AllReports(reports)
    ensures Monotone(reports)
  {
    FoldExact(reports);
  }

  lemma {:induction false} RunningTier(reports: seq<WireUsage>, t: Tier, i: nat)
    requires Fold(reports).Some? && AllReports(reports) && i < |reports|
    ensures TierColumn(Running(reports), t)[i] > 0 <==> ShownAtLargest(reports[..i + 1], t)
  {
    RunningAt(reports, i);
    FoldedTier(reports[..i + 1], t);
    hide Fold, Running, ShownAtLargest;
  }

  /** Some running usage shows the tier exactly when some report brings it. */
  lemma {:induction false} RunningShows(reports: seq<WireUsage>, t: Tier)
    requires Fold(reports).Some? && AllReports(reports)
    ensures (exists i :: 0 <= i < |reports| && TierColumn(Running(reports), t)[i] > 0) <==> Shown(reports, t)
  {
    hide Fold, Running, Folded, Monotone, ShownAtLargest, Shows, AllReports, IsReport;
    FoldMonotone(reports);
    if exists i :: 0 <= i < |reports| && TierColumn(Running(reports), t)[i] > 0 {
      var i :| 0 <= i < |reports| && TierColumn(Running(reports), t)[i] > 0;
      RunningTier(reports, t, i);
      var k := ShownIn(reports[..i + 1], t);
      ShowsPrefix(reports, t, k, i + 1);
      assert Shows(reports, t, k);
    }
    if Shown(reports, t) {
      var k :| 0 <= k < |reports| && Shows(reports, t, k);
      ShowsFirst(reports, t, k);
      RunningTier(reports, t, k);
    }
  }

  lemma ShownIn(reports: seq<WireUsage>, t: Tier) returns (k: nat)
    requires ShownAtLargest(reports, t)
    ensures k < |reports| && Shows(reports, t, k)
  {
    k :| 0 <= k < |reports| && Shows(reports, t, k) && HasLargestTotal(reports, k);
  }

  lemma {:induction false} TierExact(reports: seq<WireUsage>, t: Tier)
    requires Fold(reports).Some? && reports != [] && AllReports(reports)
    ensures TierFollows(reports, Running(reports), Fold(reports).value, t)
  {
    FoldedTier(reports, t);
    RunningShows(reports, t);
    var last := |reports| - 1;
    RunningAt(reports, last);
    assert reports[..last + 1] == reports;
    hide Fold, Running, ShownAtLargest, Shown, LastNonZero;
    LastNonZeroExact(TierColumn(Running(reports), t));
  }

  /** A field-wise last-non-zero consumer of the running usages ends with the four folded counts;
      over valid reports the tiers follow their law. */
  lemma {:induction false} ConsumerAgrees(reports: seq<WireUsage>)
    requires Fold(reports).Some? && reports != []
    ensures Keeps(Running(reports), ToIr(Fold(reports).value))
    ensures AllReports(reports) ==> TiersFollow(reports, Running(reports), Fold(reports).value)
  {
    var last, r := ToIr(Fold(reports).value), Running(reports);
    forall i | 0 <= i < |r|
      ensures r[i].input <= last.input && r[i].output <= last.output
      ensures r[i].cacheRead <= last.cacheRead && r[i].cacheWrite <= last.cacheWrite
    {
      RunningGrows(reports, i);
    }
    LastNonZeroOfGrowing(Column(r, (u: Events.Usage) => u.input), last.input);
    LastNonZeroOfGrowing(Column(r, (u: Events.Usage) => u.output), last.output);
    LastNonZeroOfGrowing(Column(r, (u: Events.Usage) => u.cacheRead), last.cacheRead);
    LastNonZeroOfGrowing(Column(r, (u: Events.Usage) => u.cacheWrite), last.cacheWrite);
    if AllReports(reports) {
      TierExact(reports, FiveMinutes);
      TierExact(reports, OneHour);
    }
  }

  /** A consumer of the cache-write group as a whole keeps the total with its tiers. */
  lemma {:induction false} GroupAgrees(reports: seq<WireUsage>)
    requires Fold(reports).Some? && reports != [] && AllReports(reports)
    ensures var last := ToIr(Fold(reports).value);
            LastGroup(Running(reports)) == (last.cacheWrite, last.cacheWrite5m, last.cacheWrite1h)
  {
    var last, r := ToIr(Fold(reports).value), Running(reports);
    FoldExact(reports);
    if last.cacheWrite == 0 {
      forall i | 0 <= i < |r|
        ensures r[i].cacheWrite == 0
      {
        RunningGrows(reports, i);
      }
      LastGroupNone(r);
    }
  }
}
