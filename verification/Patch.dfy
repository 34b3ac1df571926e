/** The exact patch applier: unified hunks read from lines and applied at their declared places. */
module Patch {
  import opened Common
  import Text

  datatype Kind = Keep | Minus | Plus

  datatype Piece = Piece(kind: Kind, text: string)

  datatype Hunk = Hunk(oldStart: nat, oldCount: nat, newStart: nat, newCount: nat, pieces: seq<Piece>)

  datatype PatchError =
    | BadHeader | SourcePosition | DestinationPosition | BadMarker | UnsupportedMarker
    | CountMismatch | ContextDiffers | NoHunks | DeletionLeftContent

  // ----- hunks

  /** The lines a hunk expects. */
  function Old(pieces: seq<Piece>): seq<string> {
    if pieces == [] then []
    else Old(pieces[..|pieces| - 1]) + (if pieces[|pieces| - 1].kind.Plus? then [] else [pieces[|pieces| - 1].text])
  }

  /** The lines a hunk leaves. */
  function New(pieces: seq<Piece>): seq<string> {
    if pieces == [] then []
    else New(pieces[..|pieces| - 1]) + (if pieces[|pieces| - 1].kind.Minus? then [] else [pieces[|pieces| - 1].text])
  }

  function Index(start: nat, count: nat): int {
    if count > 0 then start - 1 else start
  }

  function OldIndex(h: Hunk): int {
    Index(h.oldStart, h.oldCount)
  }

  function NewIndex(h: Hunk): int {
    Index(h.newStart, h.newCount)
  }

  predicate Counted(h: Hunk) {
    |Old(h.pieces)| == h.oldCount && |New(h.pieces)| == h.newCount
  }

  /** How far a source has been copied, and what has been written. */
  datatype State = State(cursor: nat, result: seq<string>)

  /** The checks made when a hunk's header has been read. */
  function Place(f: seq<string>, s: State, oldIndex: int, newIndex: int): (r: Result<State, PatchError>)
    requires s.cursor <= |f|
    ensures r.Ok? ==> oldIndex == r.value.cursor <= |f|
  {
    if oldIndex < s.cursor || oldIndex > |f| then Err(SourcePosition)
    else
      var result := s.result + f[s.cursor..oldIndex];
      if |result| != newIndex then Err(DestinationPosition) else Ok(State(oldIndex, result))
  }

  /** Python's `f[from:from + count]`, which stops at the end. */
  function Slice(f: seq<string>, from: nat, count: nat): seq<string>
    requires from <= |f|
  {
    if from + count <= |f| then f[from..from + count] else f[from..]
  }

  /** The checks made when a hunk's body has been read. */
  function Fill(f: seq<string>, s: State, h: Hunk): (r: Result<State, PatchError>)
    requires s.cursor <= |f|
    ensures r.Ok? ==> r.value.cursor <= |f|
  {
    if !Counted(h) then Err(CountMismatch)
    else if Slice(f, s.cursor, h.oldCount) != Old(h.pieces) then Err(ContextDiffers)
    else Ok(State(s.cursor + h.oldCount, s.result + New(h.pieces)))
  }

  function Step(f: seq<string>, s: State, h: Hunk): (r: Result<State, PatchError>)
    requires s.cursor <= |f|
    ensures r.Ok? ==> r.value.cursor <= |f|
  {
    match Place(f, s, OldIndex(h), NewIndex(h))
    case Err(e) => Err(e)
    case Ok(placed) => Fill(f, placed, h)
  }

  function Steps(f: seq<string>, s: State, hunks: seq<Hunk>): (r: Result<State, PatchError>)
    requires s.cursor <= |f|
    ensures r.Ok? ==> r.value.cursor <= |f|
    decreases |hunks|
  {
    if hunks == [] then Ok(s)
    else match Step(f, s, hunks[0])
      case Err(e) => Err(e)
      case Ok(s') => Steps(f, s', hunks[1..])
  }

  /** The file a hunk list makes of `f`. */
  function Apply(f: seq<string>, hunks: seq<Hunk>): Result<seq<string>, PatchError> {
    match Steps(f, State(0, []), hunks)
    case Err(e) => Err(e)
    case Ok(s) => Ok(s.result + f[s.cursor..])
  }

  // ----- what a hunk list means

  /** The kept stretches `gaps` with the hunks' blocks of one side between them. */
  function Weave(gaps: seq<seq<string>>, hunks: seq<Hunk>, before: bool): seq<string>
    requires |gaps| == |hunks| + 1
  {
    if hunks == [] then gaps[0]
    else
      gaps[0] + (if before then Old(hunks[0].pieces) else New(hunks[0].pieces))
      + Weave(gaps[1..], hunks[1..], before)
  }

  /** Every hunk is counted and declared where the gaps before it put it, from places `p` and `q`. */
  ghost predicate Placed(gaps: seq<seq<string>>, hunks: seq<Hunk>, p: nat, q: nat)
    requires |gaps| == |hunks| + 1
  {
    hunks != [] ==>
      && Counted(hunks[0])
      && OldIndex(hunks[0]) == p + |gaps[0]| && NewIndex(hunks[0]) == q + |gaps[0]|
      && Placed(gaps[1..], hunks[1..], p + |gaps[0]| + hunks[0].oldCount, q + |gaps[0]| + hunks[0].newCount)
  }

  /** `f` and `g` are the two sides of the hunks between the same kept stretches. */
  ghost predicate Edits(f: seq<string>, g: seq<string>, gaps: seq<seq<string>>, hunks: seq<Hunk>, p: nat, q: nat) {
    && |gaps| == |hunks| + 1 && Placed(gaps, hunks, p, q)
    && f == Weave(gaps, hunks, true) && g == Weave(gaps, hunks, false)
  }

  /** What an accepted hunk says of the file and of what is written. */
  lemma StepMeans(f: seq<string>, s: State, h: Hunk)
    requires s.cursor <= |f| && Step(f, s, h).Ok?
    ensures var s' := Step(f, s, h).value;
            && Counted(h) && s.cursor <= OldIndex(h) && s'.cursor == OldIndex(h) + h.oldCount
            && f[OldIndex(h)..s'.cursor] == Old(h.pieces)
            && NewIndex(h) == |s.result| + OldIndex(h) - s.cursor
            && s'.result == s.result + f[s.cursor..OldIndex(h)] + New(h.pieces)
  {
    hide Old, New;
  }

  lemma StepAccepts(f: seq<string>, s: State, h: Hunk)
    requires s.cursor <= |f| && Counted(h) && s.cursor <= OldIndex(h) && OldIndex(h) + h.oldCount <= |f|
    requires f[OldIndex(h)..OldIndex(h) + h.oldCount] == Old(h.pieces)
    requires NewIndex(h) == |s.result| + OldIndex(h) - s.cursor
    ensures Step(f, s, h)
         == Ok(State(OldIndex(h) + h.oldCount, s.result + f[s.cursor..OldIndex(h)] + New(h.pieces)))
  {
    hide Old, New;
  }

  lemma SplitAt(f: seq<string>, from: nat, mid: nat, to: nat)
    requires from <= mid <= to <= |f|
    ensures f[from..] == f[from..mid] + f[mid..to] + f[to..]
  {
  }

  lemma Regroup(r: seq<string>, gap: seq<string>, block: seq<string>, rest: seq<string>)
    ensures r + gap + block + rest == r + (gap + block + rest)
  {
  }

  lemma WeaveCons(gap: seq<string>, rest: seq<seq<string>>, hunks: seq<Hunk>, p: nat, q: nat)
    requires hunks != [] && |rest| == |hunks| && Counted(hunks[0])
    requires OldIndex(hunks[0]) == p + |gap| && NewIndex(hunks[0]) == q + |gap|
    requires Placed(rest, hunks[1..], p + |gap| + hunks[0].oldCount, q + |gap| + hunks[0].newCount)
    ensures Placed([gap] + rest, hunks, p, q)
    ensures Weave([gap] + rest, hunks, true) == gap + Old(hunks[0].pieces) + Weave(rest, hunks[1..], true)
    ensures Weave([gap] + rest, hunks, false) == gap + New(hunks[0].pieces) + Weave(rest, hunks[1..], false)
  {
    hide Old, New, Counted, OldIndex, NewIndex;
    var gaps := [gap] + rest;
    assert gaps[0] == gap && gaps[1..] == rest;
  }

  lemma {:induction false} StepsFind(f: seq<string>, s: State, hunks: seq<Hunk>) returns (gaps: seq<seq<string>>)
    requires s.cursor <= |f| && Steps(f, s, hunks).Ok?
    ensures |gaps| == |hunks| + 1 && Placed(gaps, hunks, s.cursor, |s.result|)
    ensures var s' := Steps(f, s, hunks).value;
            && f[s.cursor..] == Weave(gaps, hunks, true)
            && s'.result + f[s'.cursor..] == s.result + Weave(gaps, hunks, false)
    decreases |hunks|
  {
    hide Step, Old, New, Counted, OldIndex, NewIndex;
    if hunks == [] {
      gaps := [f[s.cursor..]];
    } else {
      var h := hunks[0];
      StepMeans(f, s, h);
      CountedMeans(h);
      var s' := Step(f, s, h).value;
      var rest := StepsFind(f, s', hunks[1..]);
      hide Weave, Placed;
      var gap := f[s.cursor..OldIndex(h)];
      gaps := [gap] + rest;
      WeaveCons(gap, rest, hunks, s.cursor, |s.result|);
      SplitAt(f, s.cursor, OldIndex(h), s'.cursor);
      Regroup(s.result, gap, New(h.pieces), Weave(rest, hunks[1..], false));
    }
  }

  lemma CountedMeans(h: Hunk)
    ensures Counted(h) <==> |Old(h.pieces)| == h.oldCount && |New(h.pieces)| == h.newCount
  {
  }

  lemma {:induction false} StepsAccept(f: seq<string>, s: State, hunks: seq<Hunk>, gaps: seq<seq<string>>)
    requires s.cursor <= |f| && |gaps| == |hunks| + 1 && Placed(gaps, hunks, s.cursor, |s.result|)
    requires f[s.cursor..] == Weave(gaps, hunks, true)
    ensures Steps(f, s, hunks).Ok?
    ensures var s' := Steps(f, s, hunks).value;
            s'.result + f[s'.cursor..] == s.result + Weave(gaps, hunks, false)
    decreases |hunks|
  {
    hide Step, Old, New, Counted, OldIndex, NewIndex;
    if hunks != [] {
      var h, gap := hunks[0], gaps[0];
      CountedMeans(h);
      BlockAt(f, s.cursor, gap, Old(h.pieces), Weave(gaps[1..], hunks[1..], true));
      Regroup(s.result, gap, New(h.pieces), Weave(gaps[1..], hunks[1..], false));
      assert Weave(gaps, hunks, false) == gap + New(h.pieces) + Weave(gaps[1..], hunks[1..], false);
      hide Weave;
      StepAccepts(f, s, h);
      var s' := Step(f, s, h).value;
      StepsAccept(f, s', hunks[1..], gaps[1..]);
    }
  }

  lemma BlockAt(f: seq<string>, from: nat, gap: seq<string>, block: seq<string>, rest: seq<string>)
    requires from <= |f| && f[from..] == gap + block + rest
    ensures from + |gap| + |block| <= |f|
    ensures f[from..from + |gap|] == gap && f[from + |gap|..from + |gap| + |block|] == block
    ensures f[from + |gap| + |block|..] == rest
  {
    assert f[from..][..|gap|] == gap;
    assert f[from..][|gap|..|gap| + |block|] == block;
    assert f[from..][|gap| + |block|..] == rest;
  }

  /** A hunk list is accepted on `f` and gives `g` exactly when both are its two sides between the
      same kept lines in the same order, with every hunk where it says it is. */
  lemma ApplyExact(f: seq<string>, g: seq<string>, hunks: seq<Hunk>)
    ensures Apply(f, hunks) == Ok(g) <==> exists gaps :: Edits(f, g, gaps, hunks, 0, 0)
  {
    hide Step, Weave, Placed;
    assert f[0..] == f && [] + g == g;
    if Apply(f, hunks) == Ok(g) {
      var gaps := StepsFind(f, State(0, []), hunks);
      assert [] + Weave(gaps, hunks, false) == Weave(gaps, hunks, false);
      assert Edits(f, g, gaps, hunks, 0, 0);
    }
    if gaps :| Edits(f, g, gaps, hunks, 0, 0) {
      StepsAccept(f, State(0, []), hunks, gaps);
      assert [] + Weave(gaps, hunks, false) == Weave(gaps, hunks, false);
    }
  }

  // ----- the reverse patch

  function FlipKind(k: Kind): Kind {
    match k case Keep => Keep case Minus => Plus case Plus => Minus
  }

  function FlipPieces(pieces: seq<Piece>): seq<Piece> {
    if pieces == [] then []
    else
      var last := pieces[|pieces| - 1];
      FlipPieces(pieces[..|pieces| - 1]) + [Piece(FlipKind(last.kind), last.text)]
  }

  function Flip(h: Hunk): Hunk {
    Hunk(h.newStart, h.newCount, h.oldStart, h.oldCount, FlipPieces(h.pieces))
  }

  function Reversed(hunks: seq<Hunk>): (r: seq<Hunk>)
    ensures |r| == |hunks|
  {
    if hunks == [] then [] else [Flip(hunks[0])] + Reversed(hunks[1..])
  }

  lemma {:induction false} FlipSides(pieces: seq<Piece>)
    ensures Old(FlipPieces(pieces)) == New(pieces) && New(FlipPieces(pieces)) == Old(pieces)
  {
    if pieces != [] {
      FlipSides(pieces[..|pieces| - 1]);
      var flipped := FlipPieces(pieces);
      assert flipped[..|flipped| - 1] == FlipPieces(pieces[..|pieces| - 1]);
    }
  }

  lemma {:induction false} WeaveReversed(gaps: seq<seq<string>>, hunks: seq<Hunk>, p: nat, q: nat)
    requires |gaps| == |hunks| + 1
    ensures Weave(gaps, Reversed(hunks), true) == Weave(gaps, hunks, false)
    ensures Weave(gaps, Reversed(hunks), false) == Weave(gaps, hunks, true)
    ensures Placed(gaps, hunks, p, q) <==> Placed(gaps, Reversed(hunks), q, p)
  {
    hide Old, New, FlipPieces;
    if hunks != [] {
      FlipSides(hunks[0].pieces);
      assert Reversed(hunks)[1..] == Reversed(hunks[1..]);
      WeaveReversed(gaps[1..], hunks[1..],
                    p + |gaps[0]| + hunks[0].oldCount, q + |gaps[0]| + hunks[0].newCount);
    }
  }

  /** What a hunk list does, its reverse undoes, and the other way round. */
  lemma ReverseUndoes(f: seq<string>, g: seq<string>, hunks: seq<Hunk>)
    ensures Apply(f, hunks) == Ok(g) <==> Apply(g, Reversed(hunks)) == Ok(f)
  {
    hide Apply, Weave, Placed;
    ApplyExact(f, g, hunks);
    ApplyExact(g, f, Reversed(hunks));
    if gaps :| Edits(f, g, gaps, hunks, 0, 0) {
      WeaveReversed(gaps, hunks, 0, 0);
      assert Edits(g, f, gaps, Reversed(hunks), 0, 0);
    }
    if gaps :| Edits(g, f, gaps, Reversed(hunks), 0, 0) {
      WeaveReversed(gaps, hunks, 0, 0);
      assert Edits(f, g, gaps, hunks, 0, 0);
    }
  }

  function Growth(hunks: seq<Hunk>): int {
    if hunks == [] then 0 else hunks[0].newCount - hunks[0].oldCount + Growth(hunks[1..])
  }

  lemma {:induction false} WeaveLength(gaps: seq<seq<string>>, hunks: seq<Hunk>, p: nat, q: nat)
    requires |gaps| == |hunks| + 1 && Placed(gaps, hunks, p, q)
    ensures |Weave(gaps, hunks, false)| == |Weave(gaps, hunks, true)| + Growth(hunks)
  {
    hide Old, New;
    if hunks != [] {
      WeaveLength(gaps[1..], hunks[1..],
                  p + |gaps[0]| + hunks[0].oldCount, q + |gaps[0]| + hunks[0].newCount);
    }
  }

  /** A patched file grows by what its hunks declare. */
  lemma ApplyGrows(f: seq<string>, g: seq<string>, hunks: seq<Hunk>)
    requires Apply(f, hunks) == Ok(g)
    ensures |g| == |f| + Growth(hunks)
  {
    hide Apply, Weave, Placed;
    ApplyExact(f, g, hunks);
    var gaps :| Edits(f, g, gaps, hunks, 0, 0);
    WeaveLength(gaps, hunks, 0, 0);
  }

  // ----- reading hunks from lines

  /** How many digits a text begins with. */
  function DigitRun(s: string): (n: nat)
    ensures n <= |s| && forall i :: 0 <= i < n ==> Text.IsDigit(s[i])
    ensures n < |s| ==> !Text.IsDigit(s[n])
  {
    if s == "" || !Text.IsDigit(s[0]) then 0 else 1 + DigitRun(s[1..])
  }

  /** A start and an optional count, which defaults to one, and what follows them. */
  function ReadRange(s: string): Option<(nat, nat, string)> {
    var n := DigitRun(s);
    if n == 0 then None
    else
      var start, rest := Text.DecimalValue(s[..n]), s[n..];
      var m := if rest != "" && rest[0] == ',' then DigitRun(rest[1..]) else 0;
      if m == 0 then Some((start, 1, rest))
      else Some((start, Text.DecimalValue(rest[1..1 + m]), rest[1 + m..]))
  }

  /** The header of a hunk: a full match of the `HUNK` expression. */
  function ReadHeader(line: string): Option<Hunk> {
    if !("@@ -" <= line) then None
    else match ReadRange(line[4..])
      case None => None
      case Some((oldStart, oldCount, rest)) =>
        if !(" +" <= rest) then None
        else match ReadRange(rest[2..])
          case None => None
          case Some((newStart, newCount, tail)) =>
            if " @@" <= tail && (forall i :: 3 <= i < |tail| - 1 ==> tail[i] != '\n') then
              Some(Hunk(oldStart, oldCount, newStart, newCount, []))
            else None
  }

  const MARKER := "\\ No newline at end of file"

  function ChopNewline(text: string): string {
    if text != "" && text[|text| - 1] == '\n' then text[..|text| - 1] else text
  }

  predicate IsBody(line: string) {
    line != "" && line[0] in {' ', '+', '-', '\\'}
  }

  function KindOf(c: char): Kind {
    if c == '+' then Plus else if c == '-' then Minus else Keep
  }

  /** The body of a hunk after `pieces`: its pieces and the lines after it. A line that could be the
      header of the next file ends the body once all old lines have been read. */
  function ReadPieces(lines: seq<string>, oldCount: nat, pieces: seq<Piece>)
    : (r: Result<(seq<Piece>, seq<string>), PatchError>)
    ensures r.Ok? ==> |r.value.1| <= |lines|
    decreases |lines|
  {
    if lines == [] || !IsBody(lines[0]) then Ok((pieces, lines))
    else
      var line := lines[0];
      if "--- " <= line && |Old(pieces)| == oldCount then Ok((pieces, lines))
      else if MARKER <= line then
        if pieces == [] then Err(BadMarker)
        else
          var last := pieces[|pieces| - 1];
          ReadPieces(lines[1..], oldCount, pieces[..|pieces| - 1] + [last.(text := ChopNewline(last.text))])
      else if line[0] == '\\' then Err(UnsupportedMarker)
      else ReadPieces(lines[1..], oldCount, pieces + [Piece(KindOf(line[0]), line[1..])])
  }

  predicate IsHunk(lines: seq<string>) {
    lines != [] && "@@ " <= lines[0]
  }

  /** The hunks at the head of the lines, and the lines after them. */
  function ReadHunks(lines: seq<string>): Result<(seq<Hunk>, seq<string>), PatchError>
    decreases |lines|
  {
    if !IsHunk(lines) then Ok(([], lines))
    else match ReadHeader(lines[0])
      case None => Err(BadHeader)
      case Some(head) =>
        match ReadPieces(lines[1..], head.oldCount, [])
        case Err(e) => Err(e)
        case Ok((pieces, rest)) =>
          match ReadHunks(rest)
          case Err(e) => Err(e)
          case Ok((hunks, after)) => Ok(([head.(pieces := pieces)] + hunks, after))
  }

  /** The loop over the hunks of one file, reading and applying together. */
  function ApplyLines(f: seq<string>, s: State, lines: seq<string>): (r: Result<(State, seq<string>), PatchError>)
    requires s.cursor <= |f|
    ensures r.Ok? ==> r.value.0.cursor <= |f|
    decreases |lines|
  {
    if !IsHunk(lines) then Ok((s, lines))
    else match ReadHeader(lines[0])
      case None => Err(BadHeader)
      case Some(head) =>
        match Place(f, s, OldIndex(head), NewIndex(head))
        case Err(e) => Err(e)
        case Ok(placed) =>
          match ReadPieces(lines[1..], head.oldCount, [])
          case Err(e) => Err(e)
          case Ok((pieces, rest)) =>
            match Fill(f, placed, head.(pieces := pieces))
            case Err(e) => Err(e)
            case Ok(s') => ApplyLines(f, s', rest)
  }

  /** Reading while applying accepts what reading first and applying after accepts. */
  lemma {:induction false} ApplyLinesExact(f: seq<string>, s: State, lines: seq<string>, s': State, rest: seq<string>)
    requires s.cursor <= |f|
    ensures ApplyLines(f, s, lines) == Ok((s', rest))
       <==> ReadHunks(lines).Ok? && ReadHunks(lines).value.1 == rest && Steps(f, s, ReadHunks(lines).value.0) == Ok(s')
    decreases |lines|
  {
    hide ReadHeader, ReadPieces, Place, Fill, OldIndex, NewIndex;
    if IsHunk(lines) && ReadHeader(lines[0]).Some? {
      var head := ReadHeader(lines[0]).value;
      if ReadPieces(lines[1..], head.oldCount, []).Ok? {
        var (pieces, after) := ReadPieces(lines[1..], head.oldCount, []).value;
        var h := head.(pieces := pieces);
        SameIndex(head, pieces);
        if Step(f, s, h).Ok? {
          ApplyLinesExact(f, Step(f, s, h).value, after, s', rest);
        }
        if ReadHunks(after).Ok? {
          assert ([h] + ReadHunks(after).value.0)[1..] == ReadHunks(after).value.0;
        }
      }
    }
  }

  lemma SameIndex(head: Hunk, pieces: seq<Piece>)
    ensures OldIndex(head.(pieces := pieces)) == OldIndex(head) && NewIndex(head.(pieces := pieces)) == NewIndex(head)
  {
  }

  // ----- writing hunks and reading them back

  function RangeText(start: nat, count: nat): string {
    Text.Decimal(start) + "," + Text.Decimal(count)
  }

  function HeaderLine(h: Hunk): string {
    "@@ -" + (RangeText(h.oldStart, h.oldCount) + (" +" + (RangeText(h.newStart, h.newCount) + " @@\n")))
  }

  function KindMark(k: Kind): char {
    match k case Keep => ' ' case Minus => '-' case Plus => '+'
  }

  /** A line without a line feed at its end is written with one, and the marker after it. */
  function PieceLines(p: Piece): seq<string> {
    if ChopNewline(p.text) != p.text then [[KindMark(p.kind)] + p.text]
    else [[KindMark(p.kind)] + (p.text + "\n"), "\\ No newline at end of file\n"]
  }

  function BodyLines(pieces: seq<Piece>): seq<string> {
    if pieces == [] then [] else PieceLines(pieces[0]) + BodyLines(pieces[1..])
  }

  function HunkLines(hunks: seq<Hunk>): seq<string> {
    if hunks == [] then [] else [HeaderLine(hunks[0])] + BodyLines(hunks[0].pieces) + HunkLines(hunks[1..])
  }

  lemma {:induction false} DigitRunOf(digits: string, rest: string)
    requires forall i :: 0 <= i < |digits| ==> Text.IsDigit(digits[i])
    requires rest != "" && !Text.IsDigit(rest[0])
    ensures DigitRun(digits + rest) == |digits|
  {
    var s := digits + rest;
    assert forall i :: 0 <= i < |digits| ==> s[i] == digits[i];
    assert s[|digits|] == rest[0];
  }

  lemma RangeReads(start: nat, count: nat, rest: string)
    requires rest != "" && !Text.IsDigit(rest[0])
    ensures ReadRange(RangeText(start, count) + rest) == Some((start, count, rest))
  {
    hide Text.DecimalValue, Text.Decimal, DigitRun;
    var a, b := Text.Decimal(start), Text.Decimal(count);
    var s := RangeText(start, count) + rest;
    assert s == a + ("," + (b + rest));
    DigitRunOf(a, "," + (b + rest));
    assert s[..|a|] == a && s[|a|..] == "," + (b + rest);
    assert s[|a|..][1..] == b + rest;
    DigitRunOf(b, rest);
    assert s[|a|..][1..1 + |b|] == b && s[|a|..][1 + |b|..] == rest;
  }

  /** A written header reads back. */
  lemma HeaderReads(h: Hunk)
    ensures "@@ " <= HeaderLine(h) && ReadHeader(HeaderLine(h)) == Some(h.(pieces := []))
  {
    hide ReadRange, RangeText;
    var line, tail := HeaderLine(h), " @@\n";
    var second := RangeText(h.newStart, h.newCount) + tail;
    assert line[4..] == RangeText(h.oldStart, h.oldCount) + (" +" + second);
    RangeReads(h.oldStart, h.oldCount, " +" + second);
    assert (" +" + second)[2..] == second;
    RangeReads(h.newStart, h.newCount, tail);
  }

  /** No body goes on into these lines. */
  predicate Ends(lines: seq<string>) {
    lines == [] || !IsBody(lines[0]) || "--- " <= lines[0]
  }

  lemma LineReads(kind: Kind, text: string, oldCount: nat, done: seq<Piece>, rest: seq<string>)
    requires kind.Minus? ==> |Old(done)| != oldCount
    ensures ReadPieces([[KindMark(kind)] + text] + rest, oldCount, done)
         == ReadPieces(rest, oldCount, done + [Piece(kind, text)])
  {
    hide Old, ChopNewline;
    var line := [KindMark(kind)] + text;
    var lines := [line] + rest;
    assert lines[0] == line && lines[1..] == rest;
    assert line[0] == KindMark(kind) && line[1..] == text;
    assert !(MARKER <= line) && ("--- " <= line ==> kind.Minus?);
    assert KindOf(line[0]) == kind && IsBody(line);
  }

  lemma MarkerReads(oldCount: nat, done: seq<Piece>, last: Piece, rest: seq<string>)
    ensures ReadPieces([MARKER + "\n"] + rest, oldCount, done + [last])
         == ReadPieces(rest, oldCount, done + [last.(text := ChopNewline(last.text))])
  {
    hide Old, ChopNewline;
    var line := MARKER + "\n";
    var lines, pieces := [line] + rest, done + [last];
    assert lines[0] == line && lines[1..] == rest;
    assert line[0] == '\\' && MARKER <= line && IsBody(line);
    assert pieces[..|pieces| - 1] == done && pieces[|pieces| - 1] == last;
  }

  lemma PieceReads(p: Piece, oldCount: nat, done: seq<Piece>, rest: seq<string>)
    requires p.kind.Minus? ==> |Old(done)| != oldCount
    ensures ReadPieces(PieceLines(p) + rest, oldCount, done) == ReadPieces(rest, oldCount, done + [p])
  {
    hide Old, ReadPieces;
    if ChopNewline(p.text) != p.text {
      LineReads(p.kind, p.text, oldCount, done, rest);
    } else {
      var more := [MARKER + "\n"] + rest;
      assert MARKER + "\n" == "\\ No newline at end of file\n";
      assert PieceLines(p) + rest == [[KindMark(p.kind)] + (p.text + "\n")] + more;
      LineReads(p.kind, p.text + "\n", oldCount, done, more);
      MarkerReads(oldCount, done, Piece(p.kind, p.text + "\n"), rest);
      assert ChopNewline(p.text + "\n") == p.text;
    }
  }

  lemma {:induction false} OldAppend(a: seq<Piece>, b: seq<Piece>)
    ensures Old(a + b) == Old(a) + Old(b)
  {
    if b == [] {
      assert a + b == a;
    } else {
      assert (a + b)[..|a + b| - 1] == a + b[..|b| - 1];
      OldAppend(a, b[..|b| - 1]);
    }
  }

  /** A written body reads back: a removed line that looks like a file header is never taken for
      one, because the old lines are not all read before it. */
  lemma {:induction false} BodyReads(pieces: seq<Piece>, oldCount: nat, done: seq<Piece>, rest: seq<string>)
    requires |Old(done + pieces)| == oldCount && Ends(rest)
    ensures ReadPieces(BodyLines(pieces) + rest, oldCount, done) == Ok((done + pieces, rest))
    decreases |pieces|
  {
    hide Old, PieceLines;
    if pieces == [] {
      assert BodyLines(pieces) + rest == rest && done + pieces == done;
    } else {
      var p, more := pieces[0], BodyLines(pieces[1..]) + rest;
      assert done + pieces == done + [p] + pieces[1..];
      assert BodyLines(pieces) + rest == PieceLines(p) + more;
      if p.kind.Minus? {
        OldSplit(done, pieces);
      }
      hide ReadPieces, Ends;
      PieceReads(p, oldCount, done, more);
      BodyReads(pieces[1..], oldCount, done + [p], rest);
    }
  }

  lemma OldSplit(done: seq<Piece>, pieces: seq<Piece>)
    requires pieces != [] && pieces[0].kind.Minus?
    ensures |Old(done)| < |Old(done + pieces)|
  {
    OldAppend(done, pieces);
    OldAppend([pieces[0]], pieces[1..]);
    assert pieces == [pieces[0]] + pieces[1..];
    assert [pieces[0]][..0] == [];
  }

  /** Reading one hunk and then the rest. */
  lemma ReadHunksStep(lines: seq<string>, head: Hunk, pieces: seq<Piece>, after: seq<string>)
    requires IsHunk(lines) && ReadHeader(lines[0]) == Some(head)
    requires ReadPieces(lines[1..], head.oldCount, []) == Ok((pieces, after)) && ReadHunks(after).Ok?
    ensures ReadHunks(lines)
         == Ok(([head.(pieces := pieces)] + ReadHunks(after).value.0, ReadHunks(after).value.1))
  {
    hide ReadHeader, ReadPieces;
  }

  lemma HunkLinesCons(hunks: seq<Hunk>, rest: seq<string>)
    requires hunks != []
    ensures var lines := HunkLines(hunks) + rest;
            && lines != [] && lines[0] == HeaderLine(hunks[0])
            && lines[1..] == BodyLines(hunks[0].pieces) + (HunkLines(hunks[1..]) + rest)
  {
    var body, more := BodyLines(hunks[0].pieces), HunkLines(hunks[1..]);
    assert HunkLines(hunks) == [HeaderLine(hunks[0])] + body + more;
    hide *;
    HeadAndTail(HeaderLine(hunks[0]), body, more, rest);
  }

  lemma HeadAndTail(head: string, body: seq<string>, more: seq<string>, rest: seq<string>)
    ensures ([head] + body + more + rest)[0] == head
    ensures ([head] + body + more + rest)[1..] == body + (more + rest)
  {
  }

  /** Written hunks read back, whatever lines that end a file follow. */
  lemma {:induction false} HunksRead(hunks: seq<Hunk>, rest: seq<string>)
    requires forall i :: 0 <= i < |hunks| ==> Counted(hunks[i])
    requires !IsHunk(rest) && Ends(rest)
    ensures ReadHunks(HunkLines(hunks) + rest) == Ok((hunks, rest))
  {
    hide Old, New, ReadHeader, HeaderLine, ReadPieces, BodyLines;
    if hunks == [] {
      assert HunkLines(hunks) + rest == rest;
    } else {
      var h, after := hunks[0], HunkLines(hunks[1..]) + rest;
      HunkLinesCons(hunks, rest);
      HeaderReads(h);
      HunksRead(hunks[1..], rest);
      HunksEnd(hunks[1..], rest);
      assert [] + h.pieces == h.pieces;
      BodyReads(h.pieces, h.oldCount, [], after);
      assert [h] + hunks[1..] == hunks;
      hide HunkLines, ReadHunks;
      ReadHunksStep(HunkLines(hunks) + rest, h.(pieces := []), h.pieces, after);
    }
  }

  lemma HunksEnd(hunks: seq<Hunk>, rest: seq<string>)
    requires Ends(rest)
    ensures Ends(HunkLines(hunks) + rest)
  {
    hide ReadHeader, HeaderLine, BodyLines;
    if hunks == [] {
      assert HunkLines(hunks) + rest == rest;
    } else {
      HeaderReads(hunks[0]);
      assert (HunkLines(hunks) + rest)[0] == HeaderLine(hunks[0]);
      assert HeaderLine(hunks[0])[0] == "@@ "[0];
    }
  }

  lemma {:induction false} StepsCounted(f: seq<string>, s: State, hunks: seq<Hunk>)
    requires s.cursor <= |f| && Steps(f, s, hunks).Ok?
    ensures forall i :: 0 <= i < |hunks| ==> Counted(hunks[i])
    decreases |hunks|
  {
    hide Step, Counted;
    if hunks != [] {
      StepMeans(f, s, hunks[0]);
      StepsCounted(f, Step(f, s, hunks[0]).value, hunks[1..]);
    }
  }

  /** One file of a patch: its hunks applied, and the lines of the patch after them. */
  function ApplyFile(f: seq<string>, lines: seq<string>, deletion: bool)
    : Result<(seq<string>, seq<string>), PatchError>
  {
    match ApplyLines(f, State(0, []), lines)
    case Err(e) => Err(e)
    case Ok((s, rest)) =>
      var result := s.result + f[s.cursor..];
      if !IsHunk(lines) then Err(NoHunks)
      else if deletion && result != [] then Err(DeletionLeftContent)
      else Ok((result, rest))
  }

  /** A file of a patch is accepted exactly when its lines read as hunks that apply. */
  lemma FileExact(f: seq<string>, lines: seq<string>, deletion: bool, g: seq<string>, rest: seq<string>)
    ensures ApplyFile(f, lines, deletion) == Ok((g, rest))
       <==> && IsHunk(lines) && ReadHunks(lines).Ok? && ReadHunks(lines).value.1 == rest
            && Apply(f, ReadHunks(lines).value.0) == Ok(g) && (deletion ==> g == [])
  {
    hide ApplyLines, ReadHunks, Steps, IsHunk;
    if ApplyLines(f, State(0, []), lines).Ok? {
      var (s, after) := ApplyLines(f, State(0, []), lines).value;
      ApplyLinesExact(f, State(0, []), lines, s, after);
    }
    if ReadHunks(lines).Ok? && Steps(f, State(0, []), ReadHunks(lines).value.0).Ok? {
      ApplyLinesExact(f, State(0, []), lines, Steps(f, State(0, []), ReadHunks(lines).value.0).value,
                      ReadHunks(lines).value.1);
    }
  }

  lemma {:induction false} ReversedCounted(hunks: seq<Hunk>)
    requires forall i :: 0 <= i < |hunks| ==> Counted(hunks[i])
    ensures forall i :: 0 <= i < |hunks| ==> Counted(Reversed(hunks)[i])
  {
    hide Old, New, FlipPieces;
    if hunks != [] {
      FlipSides(hunks[0].pieces);
      ReversedCounted(hunks[1..]);
    }
  }

  /** The text of an accepted patch of one file, reversed hunk by hunk and written out, is accepted
      on the patched file and gives back the original; reversing a creation is a deletion. */
  lemma FileUndone(f: seq<string>, lines: seq<string>, deletion: bool, created: bool, tail: seq<string>)
    requires ApplyFile(f, lines, deletion).Ok? && (created ==> f == []) && !IsHunk(tail) && Ends(tail)
    ensures ReadHunks(lines).Ok?
    ensures ApplyFile(ApplyFile(f, lines, deletion).value.0,
                      HunkLines(Reversed(ReadHunks(lines).value.0)) + tail, created) == Ok((f, tail))
  {
    hide ReadHunks, Steps, HunkLines, Reversed, ApplyFile, Ends, Counted;
    var (g, rest) := ApplyFile(f, lines, deletion).value;
    FileExact(f, lines, deletion, g, rest);
    var hunks := ReadHunks(lines).value.0;
    StepsCounted(f, State(0, []), hunks);
    ReversedCounted(hunks);
    HunksRead(Reversed(hunks), tail);
    ReverseUndoes(f, g, hunks);
    hide Apply;
    FileExact(g, HunkLines(Reversed(hunks)) + tail, created, f, tail);
    SomeHunk(lines);
    HunkFirst(Reversed(hunks), tail);
  }

  lemma SomeHunk(lines: seq<string>)
    requires IsHunk(lines) && ReadHunks(lines).Ok?
    ensures ReadHunks(lines).value.0 != []
  {
    hide ReadHeader, ReadPieces;
  }

  lemma HunkFirst(hunks: seq<Hunk>, rest: seq<string>)
    requires hunks != []
    ensures IsHunk(HunkLines(hunks) + rest)
  {
    hide HeaderLine, BodyLines;
    HeaderReads(hunks[0]);
    assert (HunkLines(hunks) + rest)[0] == HeaderLine(hunks[0]);
  }

  // ----- the loops

  lemma RestOf(lines: seq<string>, index: nat)
    requires index < |lines|
    ensures lines[index..][0] == lines[index] && lines[index..][1..] == lines[index + 1..]
  {
  }

  /** The loop over the lines of a hunk's body. */
  method ReadBody(lines: seq<string>, start: nat, oldCount: nat) returns (r: Result<(seq<Piece>, nat), PatchError>)
    requires start <= |lines|
    ensures match ReadPieces(lines[start..], oldCount, [])
            case Err(e) => r == Err(e)
            case Ok((pieces, rest)) =>
              r.Ok? && r.value.0 == pieces && start <= r.value.1 <= |lines| && lines[r.value.1..] == rest
  {
    var index: nat, pieces: seq<Piece> := start, [];
    hide Old;
    while index < |lines| && IsBody(lines[index])
      invariant start <= index <= |lines|
      invariant ReadPieces(lines[start..], oldCount, []) == ReadPieces(lines[index..], oldCount, pieces)
    {
      RestOf(lines, index);
      var line := lines[index];
      if "--- " <= line && |Old(pieces)| == oldCount {
        break;
      }
      if MARKER <= line {
        if pieces == [] {
          return Err(BadMarker);
        }
        var last := pieces[|pieces| - 1];
        pieces := pieces[..|pieces| - 1] + [last.(text := ChopNewline(last.text))];
      } else if line[0] == '\\' {
        return Err(UnsupportedMarker);
      } else {
        pieces := pieces + [Piece(KindOf(line[0]), line[1..])];
      }
      index := index + 1;
    }
    return Ok((pieces, index));
  }

  /** One turn of the loop over hunks: the hunk at `index` read and applied. */
  method ApplyHunk(original: seq<string>, s: State, lines: seq<string>, index: nat)
    returns (r: Result<(State, nat), PatchError>)
    requires s.cursor <= |original| && index <= |lines| && IsHunk(lines[index..])
    ensures r.Err? ==> ApplyLines(original, s, lines[index..]) == Err(r.error)
    ensures r.Ok? ==>
              && index < r.value.1 <= |lines| && r.value.0.cursor <= |original|
              && ApplyLines(original, s, lines[index..]) == ApplyLines(original, r.value.0, lines[r.value.1..])
  {
    hide Old, New, ReadHeader, ReadPieces, OldIndex, NewIndex;
    RestOf(lines, index);
    var header := ReadHeader(lines[index]);
    if header.None? {
      return Err(BadHeader);
    }
    var head := header.value;
    var oldIndex := OldIndex(head);
    if oldIndex < s.cursor || oldIndex > |original| {
      return Err(SourcePosition);
    }
    var written := s.result + original[s.cursor..oldIndex];
    if |written| != NewIndex(head) {
      return Err(DestinationPosition);
    }
    var body := ReadBody(lines, index + 1, head.oldCount);
    if body.Err? {
      return Err(body.error);
    }
    var h := head.(pieces := body.value.0);
    if |Old(h.pieces)| != h.oldCount || |New(h.pieces)| != h.newCount {
      return Err(CountMismatch);
    }
    if Slice(original, oldIndex, h.oldCount) != Old(h.pieces) {
      return Err(ContextDiffers);
    }
    return Ok((State(oldIndex + h.oldCount, written + New(h.pieces)), body.value.1));
  }

  /** The loop over the hunks of a file: `index` moves over the patch, the cursor over the file. */
  method PatchFile(original: seq<string>, lines: seq<string>, start: nat, deletion: bool)
    returns (r: Result<(seq<string>, nat), PatchError>)
    requires start <= |lines|
    ensures match ApplyFile(original, lines[start..], deletion)
            case Err(e) => r == Err(e)
            case Ok((result, rest)) =>
              r.Ok? && r.value.0 == result && start <= r.value.1 <= |lines| && lines[r.value.1..] == rest
  {
    var index: nat, s: State, hunks: nat := start, State(0, []), 0;
    while index < |lines| && "@@ " <= lines[index]
      invariant start <= index <= |lines| && s.cursor <= |original|
      invariant ApplyLines(original, State(0, []), lines[start..]) == ApplyLines(original, s, lines[index..])
      invariant (hunks > 0 <==> index > start) && (index > start ==> IsHunk(lines[start..]))
    {
      hide ApplyLines;
      var applied := ApplyHunk(original, s, lines, index);
      if applied.Err? {
        return Err(applied.error);
      }
      s, index := applied.value.0, applied.value.1;
      hunks := hunks + 1;
    }
    hide Place, Fill, ReadHeader, ReadPieces;
    if hunks == 0 {
      return Err(NoHunks);
    }
    var result := s.result + original[s.cursor..];
    if deletion && result != [] {
      return Err(DeletionLeftContent);
    }
    return Ok((result, index));
  }
}
