/** The connection-local HTTP/1.1 write observer: request framing by `Content-Length`
    (sections 6.1 and 6.2 of RFC 9112), correlated by one request id. */
module WriteTracker {
  import opened Common
  import opened Text
  import Utf8

  const MAX_HEADER_BYTES: nat := 65_536
  const MAX_REQUEST_ID_BYTES: nat := 128

  /** A reported request: its id and the length of its body. */
  datatype Report = Report(id: string, length: nat)

  // ----- the header

  /** `str::split("\r\n")`. */
  function SplitCrlf(s: string): (lines: seq<string>)
    ensures |lines| >= 1
  {
    if |s| < 2 then [s]
    else if s[0] == '\r' && s[1] == '\n' then [""] + SplitCrlf(s[2..])
    else
      var rest := SplitCrlf(s[1..]);
      [[s[0]] + rest[0]] + rest[1..]
  }

  predicate IsRequestLine(line: string) {
    "POST " <= line && EndsWith(line, " HTTP/1.1")
  }

  predicate IsIdChar(c: char) {
    IsAlphanumeric(c) || c == '_' || c == '-'
  }

  predicate IsRequestId(s: string) {
    0 < |s| <= MAX_REQUEST_ID_BYTES && forall i :: 0 <= i < |s| ==> IsIdChar(s[i])
  }

  predicate AllDigits(s: string) {
    forall i :: 0 <= i < |s| ==> IsDigit(s[i])
  }

  function Name(line: string): string {
    match SplitOnce(line, ':') case None => "" case Some(pair) => pair.0
  }

  predicate Named(line: string, name: string) {
    SplitOnce(line, ':').Some? && EqIgnoreAsciiCase(Name(line), name)
  }

  predicate IsId(line: string) { Named(line, "x-request-id") }
  predicate IsLength(line: string) { Named(line, "content-length") }

  /** The id a line carries: the text after the one encoding space. */
  function IdOf(line: string): Option<string> {
    match SplitOnce(line, ':')
    case None => None
    case Some(pair) =>
      match StripPrefix(pair.1, " ")
      case None => None
      case Some(value) => if IsRequestId(value) then Some(value) else None
  }

  /** The body length a line carries, in the range of `u64`. */
  function LengthOf(line: string): Option<nat> {
    match SplitOnce(line, ':')
    case None => None
    case Some(pair) =>
      var value := Trim(pair.1);
      if value != "" && AllDigits(value) && DecimalValue(value) <= U64_MAX
      then Some(DecimalValue(value)) else None
  }

  /** A header line the tracker can read: empty, or a field that is no transfer coding and whose
      id or length is well formed. */
  predicate Readable(line: string) {
    line == "" ||
    (&& SplitOnce(line, ':').Some?
     && !Named(line, "transfer-encoding")
     && (IsId(line) ==> IdOf(line).Some?)
     && (IsLength(line) ==> LengthOf(line).Some?))
  }

  /** Exactly one of `lines[1..]` satisfies `p`, at `at`. */
  ghost predicate OnlyAt(lines: seq<string>, p: string -> bool, at: nat) {
    && 1 <= at < |lines| && p(lines[at])
    && forall i :: 1 <= i < |lines| && p(lines[i]) ==> i == at
  }

  /** What a header says, whatever the order of its lines: every line is readable, one line names
      the id and one line the length. */
  ghost predicate Says(lines: seq<string>, r: Report) {
    && |lines| >= 1 && IsRequestLine(lines[0])
    && (forall i :: 1 <= i < |lines| ==> Readable(lines[i]))
    && (exists at: nat :: OnlyAt(lines, IsId, at) && IdOf(lines[at]) == Some(r.id))
    && (exists at: nat :: OnlyAt(lines, IsLength, at) && LengthOf(lines[at]) == Some(r.length))
  }

  /** The scan's account of the lines it has read: the last id and length, none seen twice. */
  datatype Scan = Scan(id: Option<string>, length: Option<nat>)

  function ScanLine(s: Scan, line: string): Option<Scan> {
    if line == "" then Some(s)
    else if !Readable(line) then None
    else if IsId(line) && s.id.Some? then None
    else if IsLength(line) && s.length.Some? then None
    else Some(Scan(if IsId(line) then IdOf(line) else s.id,
                   if IsLength(line) then LengthOf(line) else s.length))
  }

  function ScanLines(s: Scan, lines: seq<string>): Option<Scan> {
    if lines == [] then Some(s)
    else match ScanLines(s, lines[..|lines| - 1])
      case None => None
      case Some(before) => ScanLine(before, lines[|lines| - 1])
  }

  /** `parse_header` as a function of the bytes. */
  function ParseHeader(bytes: seq<byte>): Option<Report> {
    match Utf8.Decode(bytes)
    case None => None
    case Some(text) =>
      var lines := SplitCrlf(text);
      if !IsRequestLine(lines[0]) then None
      else match ScanLines(Scan(None, None), lines[1..])
        case Some(Scan(Some(id), Some(length))) => Some(Report(id, length))
        case _ => None
  }

  /** `found` is the reading of the one line that satisfies `p`, or there is no such line. */
  ghost predicate Tracks<T(!new)>(lines: seq<string>, p: string -> bool, get: string -> Option<T>,
                                  found: Option<T>) {
    if found.None? then forall i :: 1 <= i < |lines| ==> !p(lines[i])
    else exists at: nat :: OnlyAt(lines, p, at) && get(lines[at]) == found
  }

  lemma TracksSnoc<T(!new)>(lines: seq<string>, p: string -> bool, get: string -> Option<T>,
                            found: Option<T>, line: string)
    requires |lines| >= 1 && Tracks(lines, p, get, found)
    requires p(line) ==> found.None? && get(line).Some?
    ensures Tracks(lines + [line], p, get, if p(line) then get(line) else found)
  {
    var after := lines + [line];
    if p(line) {
      assert OnlyAt(after, p, |lines|);
    } else if found.Some? {
      var at: nat :| OnlyAt(lines, p, at) && get(lines[at]) == found;
      assert OnlyAt(after, p, at);
    }
  }

  /** A second line of a kind already found leaves no report. */
  lemma TwiceIsNone<T(!new)>(lines: seq<string>, n: nat, p: string -> bool, get: string -> Option<T>,
                             found: Option<T>)
    requires 1 <= n < |lines| && Tracks(lines[..n], p, get, found)
    requires found.Some? && p(lines[n])
    ensures forall at: nat :: !OnlyAt(lines, p, at)
  {
    var k: nat :| OnlyAt(lines[..n], p, k) && get(lines[..n][k]) == found;
    assert lines[..n][k] == lines[k];
  }

  lemma EmptyLineIsNeither()
    ensures !IsId("") && !IsLength("")
  {
  }

  lemma UnreadableIsNone(lines: seq<string>, n: nat)
    requires 1 <= n < |lines| && !Readable(lines[n])
    ensures forall r :: !Says(lines, r)
  {
  }

  /** The account after the first `n` lines. */
  ghost predicate Accounts(lines: seq<string>, n: nat, s: Scan)
    requires n <= |lines|
  {
    && (forall i :: 1 <= i < n ==> Readable(lines[i]))
    && Tracks(lines[..n], IsId, IdOf, s.id)
    && Tracks(lines[..n], IsLength, LengthOf, s.length)
  }

  lemma ScanStep(lines: seq<string>, n: nat, s: Scan)
    requires 1 <= n < |lines| && Accounts(lines, n, s)
    ensures match ScanLine(s, lines[n])
            case None => forall r :: !Says(lines, r)
            case Some(next) => Accounts(lines, n + 1, next)
  {
    hide IsId, IsLength, IdOf, LengthOf, OnlyAt;
    EmptyLineIsNeither();
    var line := lines[n];
    assert lines[..n + 1] == lines[..n] + [line];
    if !Readable(line) {
      UnreadableIsNone(lines, n);
    } else if line != "" && IsId(line) && s.id.Some? {
      TwiceIsNone(lines, n, IsId, IdOf, s.id);
    } else if line != "" && IsLength(line) && s.length.Some? {
      TwiceIsNone(lines, n, IsLength, LengthOf, s.length);
    } else {
      TracksSnoc(lines[..n], IsId, IdOf, s.id, line);
      TracksSnoc(lines[..n], IsLength, LengthOf, s.length, line);
    }
  }

  lemma {:induction false} ScanMeaning(lines: seq<string>, n: nat)
    requires 1 <= n <= |lines|
    ensures match ScanLines(Scan(None, None), lines[1..n])
            case None => forall r :: !Says(lines, r)
            case Some(s) => Accounts(lines, n, s)
  {
    hide ScanLine, Says;
    if n > 1 {
      ScanMeaning(lines, n - 1);
      assert lines[1..n][..n - 2] == lines[1..n - 1];
      match ScanLines(Scan(None, None), lines[1..n - 1])
      case None =>
      case Some(s) =>
        ScanStep(lines, n - 1, s);
    }
  }

  /** `parse_header` reports exactly what the header says. */
  lemma ParseHeaderExact(bytes: seq<byte>, r: Report)
    ensures ParseHeader(bytes) == Some(r)
       <==> Utf8.Decode(bytes).Some? && Says(SplitCrlf(Utf8.Decode(bytes).value), r)
  {
    hide Utf8.Decode, SplitCrlf, Named, IdOf, LengthOf;
    if Utf8.Decode(bytes).Some? {
      var lines := SplitCrlf(Utf8.Decode(bytes).value);
      ScanMeaning(lines, |lines|);
      assert lines[..|lines|] == lines && lines[1..|lines|] == lines[1..];
    }
  }

  /** The loop over the header lines. */
  method ParseHeaderLoop(bytes: seq<byte>) returns (r: Option<Report>)
    ensures r == ParseHeader(bytes)
  {
    var text := Utf8.Decode(bytes);
    if text.None? {
      return None;
    }
    var lines := SplitCrlf(text.value);
    var first := lines[0];
    if !("POST " <= first) || !EndsWith(first, " HTTP/1.1") {
      return None;
    }
    var id: Option<string>, length: Option<nat> := None, None;
    ghost var rest := lines[1..];
    for i := 1 to |lines|
      invariant ScanLines(Scan(None, None), rest[..i - 1]) == Some(Scan(id, length))
    {
      var line := lines[i];
      assert line == rest[i - 1] && rest[..i][..i - 1] == rest[..i - 1];
      if line != "" {
        var next := ScanLineLoop(id, length, line);
        if next.None? {
          ScanStops(rest, i);
          return None;
        }
        id, length := next.value.id, next.value.length;
      }
    }
    assert rest[..|rest|] == rest;
    if id.None? || length.None? {
      return None;
    }
    return Some(Report(id.value, length.value));
  }

  lemma {:induction false} ScanStops(lines: seq<string>, n: nat)
    requires n <= |lines| && ScanLines(Scan(None, None), lines[..n]).None?
    ensures ScanLines(Scan(None, None), lines).None?
    decreases |lines| - n
  {
    if n < |lines| {
      assert lines[..n + 1][..n] == lines[..n];
      ScanStops(lines, n + 1);
    } else {
      assert lines[..n] == lines;
    }
  }

  /** One header line, in the order the checks are made. */
  method ScanLineLoop(id: Option<string>, length: Option<nat>, line: string)
    returns (r: Option<Scan>)
    requires line != ""
    ensures r == ScanLine(Scan(id, length), line)
  {
    var newId, newLength := id, length;
    var split := SplitOnce(line, ':');
    if split.None? {
      return None;
    }
    var name, value := split.value.0, split.value.1;
    if EqIgnoreAsciiCase(name, "x-request-id") {
      var stripped := StripPrefix(value, " ");
      if stripped.None? {
        return None;
      }
      value := stripped.value;
    } else {
      value := Trim(value);
    }
    if EqIgnoreAsciiCase(name, "transfer-encoding") {
      return None;
    }
    if EqIgnoreAsciiCase(name, "x-request-id") {
      if newId.Some? || !IsRequestId(value) {
        return None;
      }
      newId := Some(value);
    }
    if EqIgnoreAsciiCase(name, "content-length") {
      if newLength.Some? || value == "" || !AllDigits(value) || DecimalValue(value) > U64_MAX {
        return None;
      }
      newLength := Some(DecimalValue(value));
    }
    return Some(Scan(newId, newLength));
  }

  // ----- the tracker as a machine of bytes

  datatype Body = Body(report: Report, written: nat)

  datatype State = State(header: seq<byte>, body: Option<Body>, complete: Option<Report>,
                         disabled: bool)

  const INITIAL := State([], None, None, false)
  const ABORTED := State([], None, None, true)

  predicate Terminated(header: seq<byte>) {
    |header| >= 4 && header[|header| - 4..] == [13, 10, 13, 10]
  }

  /** What every operation keeps. */
  ghost predicate Reachable(s: State) {
    && |s.header| <= MAX_HEADER_BYTES
    && (s.disabled ==> s == ABORTED)
    && (s.body.Some? ==> s.header == [] && s.complete.None? && s.body.value.written < s.body.value.report.length)
    && (s.complete.Some? ==> s.header == [] && s.body.None?)
  }

  /** The state once a header has been read and `written` body bytes followed. */
  function Written(r: Report, written: nat): State {
    if written == r.length then State([], None, Some(r), false)
    else State([], Some(Body(r, written)), None, false)
  }

  /** One accepted byte. */
  function Step(s: State, b: byte): State {
    if s.disabled || s.complete.Some? then ABORTED
    else if s.body.Some? then Written(s.body.value.report, s.body.value.written + 1)
    else if |s.header| == MAX_HEADER_BYTES then ABORTED
    else
      var header := s.header + [b];
      if !Terminated(header) then s.(header := header)
      else match ParseHeader(header)
        case None => ABORTED
        case Some(r) => Written(r, 0)
  }

  function Steps(s: State, data: seq<byte>): State
    decreases |data|
  {
    if data == [] then s else Steps(Step(s, data[0]), data[1..])
  }

  lemma {:induction false} StepsAppend(s: State, a: seq<byte>, b: seq<byte>)
    ensures Steps(s, a + b) == Steps(Steps(s, a), b)
    decreases |a|
  {
    if a == [] {
      assert a + b == b;
    } else {
      assert (a + b)[1..] == a[1..] + b;
      StepsAppend(Step(s, a[0]), a[1..], b);
    }
  }

  lemma {:induction false} StepsReachable(s: State, data: seq<byte>)
    requires Reachable(s)
    ensures Reachable(Steps(s, data))
    decreases |data|
  {
    if data != [] {
      StepsReachable(Step(s, data[0]), data[1..]);
    }
  }

  lemma {:induction false} StepsAborted(data: seq<byte>)
    ensures Steps(ABORTED, data) == ABORTED
  {
    if data != [] {
      StepsAborted(data[1..]);
    }
  }

  /** Body bytes are counted up to the length and refused past it. */
  lemma {:induction false} StepsBody(r: Report, written: nat, data: seq<byte>)
    requires written <= r.length
    ensures Steps(Written(r, written), data)
         == if written + |data| <= r.length then Written(r, written + |data|) else ABORTED
    decreases |data|
  {
    if data != [] {
      if written == r.length {
        StepsAborted(data[1..]);
      } else {
        StepsBody(r, written + 1, data[1..]);
      }
    }
  }

  // ----- what a flush reports

  /** The header of `bytes` ends at `h`: its first blank line. */
  ghost predicate HeaderEnds(bytes: seq<byte>, h: nat) {
    && h <= |bytes| && Terminated(bytes[..h])
    && forall k :: 0 <= k < h ==> !Terminated(bytes[..k])
  }

  /** `bytes` is one whole request: a header within the bound that names `r`, and the body. */
  ghost predicate IsRequest(bytes: seq<byte>, r: Report) {
    exists h :: 0 <= h <= MAX_HEADER_BYTES && HeaderEnds(bytes, h)
                && ParseHeader(bytes[..h]) == Some(r) && |bytes| == h + r.length
  }

  /** Bytes without a blank line are held as a header up to the bound. */
  lemma {:induction false} StepsHeader(bytes: seq<byte>)
    requires forall k :: 0 <= k <= |bytes| ==> !Terminated(bytes[..k])
    ensures Steps(INITIAL, bytes)
         == if |bytes| <= MAX_HEADER_BYTES then INITIAL.(header := bytes) else ABORTED
  {
    if bytes != [] {
      var init, last := bytes[..|bytes| - 1], bytes[|bytes| - 1];
      assert forall k :: 0 <= k <= |init| ==> init[..k] == bytes[..k];
      StepsHeader(init);
      assert bytes == init + [last] && bytes[..|bytes|] == bytes;
      StepsSnoc(INITIAL, init, last);
    }
  }

  lemma StepsSnoc(s: State, a: seq<byte>, b: byte)
    ensures Steps(s, a + [b]) == Step(Steps(s, a), b)
  {
    StepsAppend(s, a, [b]);
    assert [b][1..] == [];
    assert Steps(Step(Steps(s, a), b), []) == Step(Steps(s, a), b);
  }

  /** The byte that ends the header. */
  lemma StepsHeaderEnd(header: seq<byte>)
    requires HeaderEnds(header, |header|)
    ensures var parsed := ParseHeader(header);
            Steps(INITIAL, header)
            == if |header| > MAX_HEADER_BYTES || parsed.None? then ABORTED else Written(parsed.value, 0)
  {
    hide ParseHeader;
    assert header[..|header|] == header;
    assert |header| >= 4;
    var init, last := header[..|header| - 1], header[|header| - 1];
    assert forall k :: 0 <= k <= |init| ==> init[..k] == header[..k];
    hide Terminated;
    StepsHeader(init);
    assert header == init + [last];
    StepsSnoc(INITIAL, init, last);
  }

  /** Bytes whose header ends at `h`: refused, or counted against the length it names. */
  lemma StepsRequest(bytes: seq<byte>, h: nat)
    requires HeaderEnds(bytes, h)
    ensures var parsed := ParseHeader(bytes[..h]);
            Steps(INITIAL, bytes)
            == if h > MAX_HEADER_BYTES || parsed.None? || |bytes| - h > parsed.value.length
               then ABORTED else Written(parsed.value, |bytes| - h)
  {
    hide ParseHeader, Terminated, Steps;
    var header, rest := bytes[..h], bytes[h..];
    assert header[..|header|] == header;
    assert forall k :: 0 <= k < h ==> header[..k] == bytes[..k];
    StepsHeaderEnd(header);
    assert bytes == header + rest;
    StepsAppend(INITIAL, header, rest);
    StepsAborted(rest);
    if h <= MAX_HEADER_BYTES && ParseHeader(header).Some? {
      StepsBody(ParseHeader(header).value, 0, rest);
    }
  }

  lemma FirstEnd(bytes: seq<byte>, k: nat) returns (h: nat)
    requires k <= |bytes| && Terminated(bytes[..k])
    ensures HeaderEnds(bytes, h)
  {
    h := 0;
    while !Terminated(bytes[..h])
      invariant h <= k && forall j :: 0 <= j < h ==> !Terminated(bytes[..j])
      decreases k - h
    {
      h := h + 1;
    }
  }

  /** From a fresh tracker, a completed write is exactly one whole request. */
  lemma CompleteExact(bytes: seq<byte>, r: Report)
    ensures Steps(INITIAL, bytes).complete == Some(r) <==> IsRequest(bytes, r)
  {
    hide ParseHeader;
    if k: nat :| k <= |bytes| && Terminated(bytes[..k]) {
      var h := FirstEnd(bytes, k);
      StepsRequest(bytes, h);
      if IsRequest(bytes, r) {
        var g :| 0 <= g <= MAX_HEADER_BYTES && HeaderEnds(bytes, g)
                 && ParseHeader(bytes[..g]) == Some(r) && |bytes| == g + r.length;
        assert g == h;
      }
    } else {
      StepsHeader(bytes);
    }
  }

  datatype Op = Accept(data: seq<byte>) | Flush | Abort

  /** A run of the tracker: its state and what each flush returned. */
  datatype Run = Run(state: State, flushes: seq<Option<Report>>)

  function RunOp(run: Run, op: Op): Run {
    match op
    case Accept(data) => run.(state := Steps(run.state, data))
    case Flush =>
      Run(run.state.(complete := None), run.flushes + [run.state.complete])
    case Abort => run.(state := ABORTED)
  }

  function RunOps(ops: seq<Op>): Run {
    if ops == [] then Run(INITIAL, [])
    else RunOp(RunOps(ops[..|ops| - 1]), ops[|ops| - 1])
  }

  /** What an observer of the bytes alone expects: the bytes since the last reported flush, and
      each flush's report. */
  datatype Observed = Observed(since: seq<byte>, flushes: seq<Option<Report>>)

  ghost function RequestOf(bytes: seq<byte>): Option<Report> {
    if r :| IsRequest(bytes, r) then Some(r) else None
  }

  ghost function Observe(ops: seq<Op>): Observed {
    if ops == [] then Observed([], [])
    else
      var before := Observe(ops[..|ops| - 1]);
      match ops[|ops| - 1]
      case Accept(data) => before.(since := before.since + data)
      case Flush =>
        var r := RequestOf(before.since);
        Observed(if r.Some? then [] else before.since, before.flushes + [r])
      case Abort => before
  }

  /** Over every interleaving of writes and flushes, each flush reports exactly when the bytes
      since the last report are one whole request. */
  lemma {:induction false} FlushExact(ops: seq<Op>)
    requires Abort !in ops
    ensures RunOps(ops).flushes == Observe(ops).flushes
    ensures RunOps(ops).state == Steps(INITIAL, Observe(ops).since)
    ensures Reachable(RunOps(ops).state)
  {
    if ops != [] {
      var init := ops[..|ops| - 1];
      FlushExact(init);
      var run, seen := RunOps(init), Observe(init);
      match ops[|ops| - 1]
      case Accept(data) =>
        StepsAppend(INITIAL, seen.since, data);
        StepsReachable(run.state, data);
      case Flush =>
        var r := RequestOf(seen.since);
        if r.Some? {
          CompleteExact(seen.since, r.value);
        } else if run.state.complete.Some? {
          CompleteExact(seen.since, run.state.complete.value);
        }
    }
  }

  /** Once aborted, no flush reports again, whatever is written. */
  lemma {:induction false} AbortIsFinal(ops: seq<Op>, later: seq<Op>)
    requires ops != [] && ops[|ops| - 1] == Abort
    ensures RunOps(ops + later).state == ABORTED
    ensures forall i :: |RunOps(ops).flushes| <= i < |RunOps(ops + later).flushes| ==>
              RunOps(ops + later).flushes[i].None?
    ensures |RunOps(ops).flushes| <= |RunOps(ops + later).flushes|
  {
    if later == [] {
      assert ops + later == ops;
    } else {
      var all := ops + later;
      assert all[..|all| - 1] == ops + later[..|later| - 1];
      AbortIsFinal(ops, later[..|later| - 1]);
      if all[|all| - 1].Accept? {
        StepsAborted(all[|all| - 1].data);
      }
    }
  }

  /** The class of the source, whose fields change byte by byte. */
  class WriteTracker {
    var header: seq<byte>
    var body: Option<Body>
    var complete: Option<Report>
    var disabled: bool

    function Now(): State
      reads this
    {
      State(header, body, complete, disabled)
    }

    /** `Now()`, with a body of the whole length taken as complete. */
    function Settled(): State
      reads this
    {
      if body.Some? then Written(body.value.report, body.value.written) else Now()
    }

    constructor ()
      ensures Now() == INITIAL
    {
      header, body, complete, disabled := [], None, None, false;
    }

    method Abort()
      modifies this
      ensures Now() == ABORTED
    {
      header := [];
      body := None;
      complete := None;
      disabled := true;
    }

    method Accepted(data: seq<byte>) returns (event: Option<Report>)
      requires Reachable(Now())
      modifies this
      ensures Now() == Steps(old(Now()), data)
      ensures event == if data == [] then None else Now().complete
      ensures Reachable(Now())
    {
      StepsReachable(Now(), data);
      if disabled || data == [] {
        StepsAborted(data);
        return None;
      }
      if complete.Some? {
        StepsAborted(data[1..]);
        Abort();
        return None;
      }
      var rest := data;
      while body.None? && rest != []
        invariant |header| <= MAX_HEADER_BYTES && !disabled && complete.None?
        invariant body.Some? ==> header == [] && body.value.written <= body.value.report.length
        invariant Steps(Settled(), rest) == Steps(old(Now()), data)
        decreases |rest|
      {
        if |header| == MAX_HEADER_BYTES {
          StepsAborted(rest[1..]);
          Abort();
          return None;
        }
        header := header + [rest[0]];
        rest := rest[1..];
        if Terminated(header) {
          var parsed := ParseHeaderLoop(header);
          header := [];
          if parsed.None? {
            StepsAborted(rest);
            Abort();
            return None;
          }
          body := Some(Body(parsed.value, 0));
        }
      }
      if body.Some? {
        var report, written := body.value.report, body.value.written;
        StepsBody(report, written, rest);
        if |rest| > report.length - written {
          Abort();
          return None;
        }
        body := Some(Body(report, written + |rest|));
        if written + |rest| == report.length {
          complete := Some(report);
          body := None;
          return Some(report);
        }
      }
      return None;
    }

    method Flushed() returns (event: Option<Report>)
      modifies this
      ensures event == old(complete)
      ensures Now() == old(Now()).(complete := None)
    {
      event := complete;
      complete := None;
    }
  }
}
