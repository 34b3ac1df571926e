/** Timed words and their grouping into subtitle cues. Seconds are reals. */
module Cues {
  import opened Common
  import opened Json
  import opened Text

  const GAP: real := 1.0
  const MAX_SECONDS: real := 7.0
  const MAX_CHARACTERS: nat := 84

  datatype Word = Word(text: string, start: real, end: real, speaker: Option<Value>, spacing: string)

  datatype Cue = Cue(start: real, end: real, text: string)

  // ----- the words of an answer

  /** A non-negative number of seconds. */
  function UnitTime(v: Option<Value>): Option<real> {
    match v
    case Some(Int(i)) => if i >= 0 then Some(i as real) else None
    case Some(Float(f)) => if f >= 0.0 then Some(f) else None
    case _ => None
  }

  /** The words so far, and the spacing since the last one. */
  datatype Reading = Reading(words: seq<Word>, spacing: string)

  predicate IsWordEntry(entry: Value) {
    var kind := AsStr(At(entry, "type"));
    kind == None || kind == Some("word")
  }

  predicate IsSpacingEntry(entry: Value) {
    AsStr(At(entry, "type")) == Some("spacing")
  }

  function ReadEntry(r: Reading, entry: Value): Option<Reading> {
    var text := AsStr(At(entry, "text"));
    if IsWordEntry(entry) then
      match (text, UnitTime(Get(entry, "start")), UnitTime(Get(entry, "end")))
      case (Some(t), Some(start), Some(end)) =>
        Some(Reading(r.words + [Word(t, start, end, Get(entry, "speaker_id"), r.spacing)], ""))
      case _ => None
    else if IsSpacingEntry(entry) then
      match text
      case Some(t) => Some(r.(spacing := r.spacing + t))
      case None => None
    else Some(r)
  }

  function Readings(entries: seq<Value>): Option<Reading> {
    if entries == [] then Some(Reading([], ""))
    else match Readings(entries[..|entries| - 1])
      case None => None
      case Some(r) => ReadEntry(r, entries[|entries| - 1])
  }

  /** The entries of type `word`, and those without a type. */
  function WordEntries(entries: seq<Value>): seq<Value> {
    if entries == [] then []
    else
      var entry := entries[|entries| - 1];
      var kind := At(entry, "type");
      WordEntries(entries[..|entries| - 1]) + (if kind == Str("word") || !kind.Str? then [entry] else [])
  }

  /** A JSON number of seconds, not negative. */
  predicate IsSeconds(v: Value, seconds: real) {
    seconds >= 0.0 && (v == Float(seconds) || (v.Int? && v.i as real == seconds))
  }

  /** A word is what its entry says: text, times and speaker. */
  predicate SaysWord(entry: Value, w: Word) {
    && At(entry, "text") == Str(w.text) && IsSeconds(At(entry, "start"), w.start)
    && IsSeconds(At(entry, "end"), w.end) && Get(entry, "speaker_id") == w.speaker
  }

  /** The words are the word entries, one by one. */
  predicate AreEntries(entries: seq<Value>, words: seq<Word>) {
    |words| == |entries| && forall k :: 0 <= k < |words| ==> SaysWord(entries[k], words[k])
  }

  /** An entry whose members can be read as its type asks. */
  ghost predicate Usable(entry: Value) {
    var kind := At(entry, "type");
    && (kind == Str("spacing") ==> At(entry, "text").Str?)
    && (kind == Str("word") || !kind.Str? ==>
          && At(entry, "text").Str?
          && (exists start :: IsSeconds(At(entry, "start"), start))
          && (exists end :: IsSeconds(At(entry, "end"), end)))
  }

  lemma UnitTimeIs(entry: Value, key: string)
    ensures UnitTime(Get(entry, key)).Some? ==> IsSeconds(At(entry, key), UnitTime(Get(entry, key)).value)
    ensures UnitTime(Get(entry, key)).None? ==> forall t :: !IsSeconds(At(entry, key), t)
  {
  }

  lemma EntryReads(r: Reading, entry: Value)
    ensures ReadEntry(r, entry).Some? <==> Usable(entry)
    ensures ReadEntry(r, entry).Some? ==>
              var kind, words := At(entry, "type"), ReadEntry(r, entry).value.words;
              if kind == Str("word") || !kind.Str?
              then |words| == |r.words| + 1 && words[..|r.words|] == r.words && SaysWord(entry, words[|r.words|])
              else words == r.words
  {
    UnitTimeIs(entry, "start");
    UnitTimeIs(entry, "end");
    hide UnitTime, IsSeconds;
  }

  /** The list is read exactly when every entry is usable, and its words are its word entries. */
  lemma {:induction false} ReadingsExact(entries: seq<Value>)
    ensures Readings(entries).Some? <==> forall k :: 0 <= k < |entries| ==> Usable(entries[k])
    ensures Readings(entries).Some? ==> AreEntries(WordEntries(entries), Readings(entries).value.words)
  {
    hide ReadEntry, Usable, SaysWord;
    if entries != [] {
      var init, entry := entries[..|entries| - 1], entries[|entries| - 1];
      ReadingsExact(init);
      if Readings(init).Some? {
        EntryReads(Readings(init).value, entry);
      }
    }
  }

  method ElevenlabsWords(entries: seq<Value>) returns (words: Option<seq<Word>>)
    ensures words == match Readings(entries) case None => None case Some(r) => Some(r.words)
    ensures words.Some? <==> forall k :: 0 <= k < |entries| ==> Usable(entries[k])
    ensures words.Some? ==> AreEntries(WordEntries(entries), words.value)
  {
    hide ReadEntry, Usable;
    ReadingsExact(entries);
    var out, spacing := [], "";
    for i := 0 to |entries|
      invariant Readings(entries[..i]) == Some(Reading(out, spacing))
    {
      assert entries[..i + 1][..i] == entries[..i];
      var next := ReadEntry(Reading(out, spacing), entries[i]);
      if next.None? {
        ReadingStops(entries, i + 1);
        return None;
      }
      out, spacing := next.value.words, next.value.spacing;
    }
    assert entries[..|entries|] == entries;
    return Some(out);
  }

  lemma {:induction false} ReadingStops(entries: seq<Value>, n: nat)
    requires n <= |entries| && Readings(entries[..n]).None?
    ensures Readings(entries).None?
    decreases |entries| - n
  {
    if n < |entries| {
      assert entries[..n + 1][..n] == entries[..n];
      ReadingStops(entries, n + 1);
    } else {
      assert entries[..n] == entries;
    }
  }

  /** The texts of the words, each after its spacing. */
  function Spoken(words: seq<Word>): string {
    if words == [] then ""
    else Spoken(words[..|words| - 1]) + words[|words| - 1].spacing + words[|words| - 1].text
  }

  /** The texts of the word and spacing entries. */
  function Written(entries: seq<Value>): string {
    if entries == [] then ""
    else
      var entry := entries[|entries| - 1];
      Written(entries[..|entries| - 1])
      + (if IsWordEntry(entry) || IsSpacingEntry(entry) then StrOr(At(entry, "text"), "") else "")
  }

  /** No text is lost or repeated: words and spacings, in order, are what the entries wrote. */
  lemma {:induction false} ReadingsConserve(entries: seq<Value>)
    requires Readings(entries).Some?
    ensures var r := Readings(entries).value;
            Spoken(r.words) + r.spacing == Written(entries)
  {
    if entries != [] {
      var init, entry := entries[..|entries| - 1], entries[|entries| - 1];
      ReadingsConserve(init);
      var before, after := Readings(init).value, Readings(entries).value;
      if IsWordEntry(entry) {
        assert after.words[..|after.words| - 1] == before.words;
        assert Spoken(after.words) + "" == Spoken(after.words);
      } else if IsSpacingEntry(entry) {
        var t := At(entry, "text").s;
        assert Spoken(before.words) + (before.spacing + t) == Spoken(before.words) + before.spacing + t;
      }
    }
  }

  // ----- cues as contiguous runs

  predicate EndsSentence(word: Word) {
    var t := TrimEnd(word.text);
    t != "" && t[|t| - 1] in {'.', '!', '?', '\U{3002}', '\U{FF01}', '\U{FF1F}'}
  }

  /** The text of words `i` to `j`, joined by their spacing. */
  function Joined(words: seq<Word>, i: nat, j: nat): string
    requires i < j <= |words|
    decreases j
  {
    if j == i + 1 then words[i].text
    else Joined(words, i, j - 1) + words[j - 1].spacing + words[j - 1].text
  }

  function CueOf(words: seq<Word>, i: nat, j: nat): Cue
    requires i < j <= |words|
  {
    Cue(words[i].start, words[j - 1].end, Joined(words, i, j))
  }

  /** Word `k` may follow the word before it in a run that starts at `i`. */
  predicate Follows(words: seq<Word>, i: nat, k: nat)
    requires i < k < |words|
  {
    && words[k].start - words[k - 1].end < GAP
    && words[k].speaker == words[i].speaker
    && !EndsSentence(words[k - 1])
  }

  predicate Fits(words: seq<Word>, i: nat, j: nat)
    requires i < j <= |words|
  {
    words[j - 1].end - words[i].start <= MAX_SECONDS && |Trim(Joined(words, i, j))| <= MAX_CHARACTERS
  }

  /** A run that may be one cue: a single word, or words that follow each other within the limits. */
  predicate IsRun(words: seq<Word>, i: nat, j: nat) {
    && i < j <= |words|
    && (j == i + 1 || ((forall k :: i < k < j ==> Follows(words, i, k)) && Fits(words, i, j)))
  }

  /** The words from `from` on, cut into runs that end at the positions of `ends`. */
  predicate IsGrouping(words: seq<Word>, from: nat, ends: seq<nat>)
    decreases |ends|
  {
    if ends == [] then from == |words|
    else IsRun(words, from, ends[0]) && IsGrouping(words, ends[0], ends[1..])
  }

  /** Where the loop closes the run that starts at `i` and already holds the words before `j`. */
  function Reach(words: seq<Word>, i: nat, j: nat): (r: nat)
    requires i < j <= |words|
    ensures j <= r <= |words|
    decreases |words| - j
  {
    if j < |words| && Follows(words, i, j) && Fits(words, i, j + 1) then Reach(words, i, j + 1) else j
  }

  function Next(words: seq<Word>, i: nat): (n: nat)
    requires i < |words|
    ensures i < n <= |words|
  {
    Reach(words, i, i + 1)
  }

  /** The run ends the loop produces. */
  function Ends(words: seq<Word>, i: nat): seq<nat>
    requires i <= |words|
    decreases |words| - i
  {
    if i == |words| then [] else [Next(words, i)] + Ends(words, Next(words, i))
  }

  /** The cues of the runs that end at `ends`. */
  function CuesAt(words: seq<Word>, from: nat, ends: seq<nat>): (cues: seq<Cue>)
    requires IsGrouping(words, from, ends)
    ensures |cues| == |ends|
    decreases |ends|
  {
    if ends == [] then [] else [CueOf(words, from, ends[0])] + CuesAt(words, ends[0], ends[1..])
  }

  lemma {:induction false} ReachIsRun(words: seq<Word>, i: nat, j: nat)
    requires IsRun(words, i, j)
    ensures IsRun(words, i, Reach(words, i, j))
    decreases |words| - j
  {
    hide Trim, EndsSentence;
    if j < |words| && Follows(words, i, j) && Fits(words, i, j + 1) {
      ReachIsRun(words, i, j + 1);
    }
  }

  /** The loop's runs group the words, in order and without gaps. */
  lemma {:induction false} EndsGroup(words: seq<Word>, i: nat)
    requires i <= |words|
    ensures IsGrouping(words, i, Ends(words, i))
    decreases |words| - i
  {
    hide IsRun;
    if i < |words| {
      var n := Next(words, i);
      SingleIsRun(words, i);
      ReachIsRun(words, i, i + 1);
      EndsGroup(words, n);
      assert Ends(words, i)[1..] == Ends(words, n);
    }
  }

  lemma SingleIsRun(words: seq<Word>, i: nat)
    requires i < |words|
    ensures IsRun(words, i, i + 1)
  {
  }

  /** The cues of `word_cues`. */
  function CuesFrom(words: seq<Word>, i: nat): seq<Cue>
    requires i <= |words|
  {
    EndsGroup(words, i);
    CuesAt(words, i, Ends(words, i))
  }

  lemma CuesUnfold(words: seq<Word>, i: nat)
    requires i < |words|
    ensures CuesFrom(words, i)
         == [CueOf(words, i, Next(words, i))] + CuesFrom(words, Next(words, i))
  {
    EndsGroup(words, i);
    assert Ends(words, i)[1..] == Ends(words, Next(words, i));
  }

  /** The text ends, white space aside, in none of the marks that end a sentence. */
  predicate GoesOn(text: string) {
    var t := TrimEnd(text);
    t != "" ==> t[|t| - 1] !in ".!?\U{3002}\U{FF01}\U{FF1F}"
  }

  /** Word `k` is less than a second after the one before it, which ends no sentence, and its speaker
      is that of word `i`. */
  predicate Adjoins(words: seq<Word>, i: nat, k: nat)
    requires i < k < |words|
  {
    && words[k].start - words[k - 1].end < 1.0 && words[k].speaker == words[i].speaker
    && GoesOn(words[k - 1].text)
  }

  /** A cue shows words `i` to `j`: from the first start to the last end, with the spoken text between
      them; and when it holds several words it keeps within the limits. */
  predicate ShowsRun(words: seq<Word>, i: nat, j: nat, cue: Cue) {
    && i < j <= |words|
    && cue.start == words[i].start && cue.end == words[j - 1].end
    && Spoken(words[..i]) + words[i].spacing + cue.text == Spoken(words[..j])
    && (j > i + 1 ==>
          && cue.end - cue.start <= 7.0 && |Trim(cue.text)| <= 84
          && forall k :: i < k < j ==> Adjoins(words, i, k))
  }

  /** The cues show the words from `from` on, one run after the other. */
  ghost predicate Shows(words: seq<Word>, from: nat, cues: seq<Cue>)
    decreases |cues|
  {
    if cues == [] then from == |words|
    else exists j :: ShowsRun(words, from, j, cues[0]) && Shows(words, j, cues[1..])
  }

  lemma RunShows(words: seq<Word>, i: nat, j: nat)
    requires IsRun(words, i, j)
    ensures ShowsRun(words, i, j, CueOf(words, i, j))
  {
    SpokenRun(words, i, j);
    hide Joined, Spoken, Trim, EndsSentence, GoesOn;
    forall k | i < k < j
      ensures Adjoins(words, i, k)
    {
      assert Follows(words, i, k);
      NoMark(words[k - 1]);
    }
  }

  lemma NoMark(w: Word)
    requires !EndsSentence(w)
    ensures GoesOn(w.text)
  {
    hide TrimEnd;
  }

  lemma {:induction false} CuesShow(words: seq<Word>, i: nat)
    requires i <= |words|
    ensures Shows(words, i, CuesFrom(words, i))
    decreases |words| - i
  {
    hide CuesFrom, ShowsRun, IsRun;
    if i == |words| {
      CuesEnd(words);
    } else {
      var n := Next(words, i);
      SingleIsRun(words, i);
      ReachIsRun(words, i, i + 1);
      RunShows(words, i, n);
      CuesUnfold(words, i);
      CuesShow(words, n);
      var cues := CuesFrom(words, i);
      assert cues[0] == CueOf(words, i, n) && cues[1..] == CuesFrom(words, n);
    }
  }

  /** The loop over the words, with at most one open cue. */
  method WordCues(words: seq<Word>) returns (cues: seq<Cue>)
    ensures cues == CuesFrom(words, 0) && Shows(words, 0, cues)
    ensures TimesNeverDecrease(words) ==> forall other :: Shows(words, 0, other) ==> |cues| <= |other|
  {
    hide Trim, EndsSentence, Joined, CuesFrom, Shows, TimesNeverDecrease;
    CuesShow(words, 0);
    forall other | TimesNeverDecrease(words) && Shows(words, 0, other)
      ensures |CuesFrom(words, 0)| <= |other|
    {
      FewestShown(words, other);
    }
    cues := [];
    var open: Option<(Cue, Option<Value>)> := None;
    ghost var i := 0;
    for k := 0 to |words|
      invariant i <= k && (open.None? ==> i == k)
      invariant open.None? ==> cues + CuesFrom(words, k) == CuesFrom(words, 0)
      invariant open.Some? ==>
        && i < k && open == Some((CueOf(words, i, k), words[i].speaker)) && !EndsSentence(words[k - 1])
        && cues + [CueOf(words, i, Reach(words, i, k))] + CuesFrom(words, Reach(words, i, k))
           == CuesFrom(words, 0)
    {
      var word := words[k];
      if open.Some? {
        var cue, speaker := open.value.0, open.value.1;
        var candidate := cue.text + word.spacing + word.text;
        JoinedStep(words, i, k);
        var closes := word.start - cue.end >= GAP || word.speaker != speaker
          || word.end - cue.start > MAX_SECONDS || |Trim(candidate)| > MAX_CHARACTERS;
        if closes {
          cues := cues + [cue];
          open := None;
          i := k;
        } else {
          open := Some((Cue(cue.start, word.end, candidate), speaker));
        }
      }
      if open.None? {
        JoinedOne(words, k);
        CuesUnfold(words, k);
        open := Some((Cue(word.start, word.end, word.text), word.speaker));
        assert cues + [CueOf(words, k, Next(words, k))] + CuesFrom(words, Next(words, k))
            == cues + CuesFrom(words, k);
      }
      if EndsSentence(word) {
        cues := cues + [open.value.0];
        open := None;
        i := k + 1;
      }
    }
    CuesEnd(words);
    if open.Some? {
      cues := cues + [open.value.0];
    }
    assert cues + [] == cues;
  }

  lemma JoinedStep(words: seq<Word>, i: nat, k: nat)
    requires i < k < |words|
    ensures Joined(words, i, k + 1) == Joined(words, i, k) + words[k].spacing + words[k].text
  {
  }

  lemma JoinedOne(words: seq<Word>, k: nat)
    requires k < |words|
    ensures Joined(words, k, k + 1) == words[k].text
  {
  }

  lemma CuesEnd(words: seq<Word>)
    ensures CuesFrom(words, |words|) == []
  {
  }

  // ----- no text is lost between words and cues

  /** The cues' texts with the spacing dropped before each of them put back. */
  function Restored(words: seq<Word>, from: nat, ends: seq<nat>): string
    requires IsGrouping(words, from, ends)
    decreases |ends|
  {
    if ends == [] then ""
    else words[from].spacing + CueOf(words, from, ends[0]).text + Restored(words, ends[0], ends[1..])
  }

  lemma {:induction false} SpokenRun(words: seq<Word>, i: nat, j: nat)
    requires i < j <= |words|
    ensures Spoken(words[..i]) + words[i].spacing + Joined(words, i, j) == Spoken(words[..j])
    decreases j
  {
    assert words[..j][..j - 1] == words[..j - 1];
    if j > i + 1 {
      SpokenRun(words, i, j - 1);
      var head := Spoken(words[..i]) + words[i].spacing;
      assert head + (Joined(words, i, j - 1) + words[j - 1].spacing + words[j - 1].text)
          == head + Joined(words, i, j - 1) + words[j - 1].spacing + words[j - 1].text;
    }
  }

  /** Every word text is in exactly one cue, in order: only the spacing between cues is dropped. */
  lemma {:induction false} GroupingConserves(words: seq<Word>, from: nat, ends: seq<nat>)
    requires IsGrouping(words, from, ends)
    ensures from <= |words|
    ensures Spoken(words[..from]) + Restored(words, from, ends) == Spoken(words)
    decreases |ends|
  {
    hide Joined;
    if ends == [] {
      assert words[..from] == words;
    } else {
      SpokenRun(words, from, ends[0]);
      GroupingConserves(words, ends[0], ends[1..]);
      var head, cue := Spoken(words[..from]), words[from].spacing + CueOf(words, from, ends[0]).text;
      var rest := Restored(words, ends[0], ends[1..]);
      assert head + (cue + rest) == head + cue + rest;
      assert head + cue == Spoken(words[..from]) + words[from].spacing + Joined(words, from, ends[0]);
    }
  }

  // ----- the fewest cues

  predicate TimesNeverDecrease(words: seq<Word>) {
    forall i, j :: 0 <= i < j < |words| ==> words[i].start <= words[j].start && words[i].end <= words[j].end
  }

  lemma {:induction false} TrimStartSnoc(s: string, c: char)
    ensures TrimStart(s + [c]) == if TrimStart(s) == "" && IsWhite(c) then "" else TrimStart(s) + [c]
  {
    hide IsWhite;
    if s != "" {
      assert (s + [c])[1..] == s[1..] + [c];
      TrimStartSnoc(s[1..], c);
    } else {
      assert s + [c] == [c] && [c][1..] == "";
    }
  }

  lemma TrimSnoc(s: string, c: char)
    ensures |Trim(s)| <= |Trim(s + [c])|
  {
    hide IsWhite;
    TrimStartSnoc(s, c);
    var t := TrimStart(s);
    assert (t + [c])[..|t + [c]| - 1] == t;
    TrimEndShorter(t);
  }

  lemma {:induction false} TrimEndShorter(s: string)
    ensures |TrimEnd(s)| <= |s|
  {
    hide IsWhite;
    if s != "" && IsWhite(s[|s| - 1]) {
      TrimEndShorter(s[..|s| - 1]);
    }
  }

  lemma {:induction false} TrimEndCons(c: char, s: string)
    ensures TrimEnd([c] + s) == if TrimEnd(s) == "" && IsWhite(c) then "" else [c] + TrimEnd(s)
  {
    hide IsWhite;
    var t := [c] + s;
    if s == "" {
      assert t == [c] && t[..|t| - 1] == "";
    } else {
      assert t[..|t| - 1] == [c] + s[..|s| - 1] && t[|t| - 1] == s[|s| - 1];
      TrimEndCons(c, s[..|s| - 1]);
    }
  }

  lemma {:induction false} TrimStartGrows(s: string)
    ensures |TrimEnd(TrimStart(s))| <= |TrimEnd(s)|
  {
    hide IsWhite;
    if s != "" && IsWhite(s[0]) {
      TrimStartGrows(s[1..]);
      assert s == [s[0]] + s[1..];
      TrimEndCons(s[0], s[1..]);
    }
  }

  lemma TrimCons(c: char, s: string)
    ensures |Trim(s)| <= |Trim([c] + s)|
  {
    hide IsWhite;
    assert ([c] + s)[1..] == s;
    if !IsWhite(c) {
      TrimEndCons(c, s);
      TrimStartGrows(s);
    }
  }

  /** Trimming a part of a text leaves no more than trimming the whole. */
  lemma {:induction false} TrimPart(a: string, b: string, c: string)
    ensures |Trim(b)| <= |Trim(a + b + c)|
    decreases |a| + |c|
  {
    hide Trim;
    if c != "" {
      TrimPart(a, b, c[..|c| - 1]);
      TrimSnoc(a + b + c[..|c| - 1], c[|c| - 1]);
      assert a + b + c == a + b + c[..|c| - 1] + [c[|c| - 1]];
    } else if a != "" {
      TrimPart(a[1..], b, c);
      TrimCons(a[0], a[1..] + b + c);
      assert a + b + c == [a[0]] + (a[1..] + b + c);
    } else {
      assert a + b + c == b;
    }
  }

  /** The text of a shorter run is part of the text of a longer one. */
  lemma {:induction false} JoinedPart(words: seq<Word>, i: nat, k: nat, l: nat, j: nat)
    returns (a: string, c: string)
    requires i <= k < l <= j <= |words|
    ensures Joined(words, i, j) == a + Joined(words, k, l) + c
    decreases j
  {
    if l < j {
      var b;
      a, b := JoinedPart(words, i, k, l, j - 1);
      c := b + words[j - 1].spacing + words[j - 1].text;
      assert a + Joined(words, k, l) + c
          == (a + Joined(words, k, l) + b) + words[j - 1].spacing + words[j - 1].text;
    } else {
      a := JoinedTail(words, i, k, j);
      c := "";
      assert a + Joined(words, k, l) + "" == a + Joined(words, k, l);
    }
  }

  lemma {:induction false} JoinedTail(words: seq<Word>, i: nat, k: nat, j: nat) returns (a: string)
    requires i <= k < j <= |words|
    ensures Joined(words, i, j) == a + Joined(words, k, j)
    decreases j
  {
    if i == k {
      a := "";
    } else if k + 1 == j {
      a := Joined(words, i, j - 1) + words[j - 1].spacing;
    } else {
      a := JoinedTail(words, i, k, j - 1);
      assert a + (Joined(words, k, j - 1) + words[j - 1].spacing + words[j - 1].text)
          == a + Joined(words, k, j - 1) + words[j - 1].spacing + words[j - 1].text;
    }
  }

  /** With times that never decrease, a part of a run is a run. */
  lemma PartOfRun(words: seq<Word>, i: nat, k: nat, l: nat, j: nat)
    requires TimesNeverDecrease(words) && IsRun(words, i, j) && i <= k < l <= j
    ensures IsRun(words, k, l)
  {
    hide Trim, EndsSentence, Joined;
    if l > k + 1 {
      var a, c := JoinedPart(words, i, k, l, j);
      TrimPart(a, Joined(words, k, l), c);
      forall m | k < m < l
        ensures Follows(words, k, m)
      {
        assert Follows(words, i, m);
        assert i < k ==> Follows(words, i, k);
      }
    }
  }

  /** The loop closes a run no earlier than any run from the same word could end. */
  lemma {:induction false} ReachesRun(words: seq<Word>, i: nat, k: nat, j: nat)
    requires TimesNeverDecrease(words) && IsRun(words, i, j) && i < k <= j
    ensures j <= Reach(words, i, k)
    decreases j - k
  {
    if k < j {
      PartOfRun(words, i, i, k + 1, j);
      hide Trim, EndsSentence, Joined;
      assert Follows(words, i, k);
      ReachesRun(words, i, k + 1, j);
    }
  }

  /** A later start needs no more cues. */
  lemma {:induction false} LaterNeedsNoMore(words: seq<Word>, i: nat, k: nat)
    requires TimesNeverDecrease(words) && i <= k <= |words|
    ensures |Ends(words, k)| <= |Ends(words, i)|
    decreases |words| - i
  {
    hide IsRun, TimesNeverDecrease;
    if k < |words| && i < k {
      var n := Next(words, i);
      if n <= k {
        LaterNeedsNoMore(words, n, k);
      } else {
        SingleIsRun(words, i);
        ReachIsRun(words, i, i + 1);
        PartOfRun(words, i, k, n, n);
        ReachesRun(words, k, k + 1, n);
        LaterNeedsNoMore(words, n, Next(words, k));
      }
    }
  }

  /** With times that never decrease, no grouping into runs has fewer cues than the loop's. */
  lemma {:induction false} FewestCues(words: seq<Word>, from: nat, ends: seq<nat>)
    requires TimesNeverDecrease(words) && IsGrouping(words, from, ends)
    ensures from <= |words| && |CuesFrom(words, from)| <= |ends|
    decreases |ends|
  {
    hide IsRun, TimesNeverDecrease;
    if ends != [] {
      RunBounds(words, from, ends[0]);
      FewestCues(words, ends[0], ends[1..]);
      ReachesRun(words, from, from + 1, ends[0]);
      LaterNeedsNoMore(words, ends[0], Next(words, from));
    }
  }

  /** Any cue that shows words within the limits is a run, and its text the joined one. */
  lemma ShownIsRun(words: seq<Word>, i: nat, j: nat, cue: Cue)
    requires ShowsRun(words, i, j, cue)
    ensures IsRun(words, i, j) && cue == CueOf(words, i, j)
  {
    SpokenRun(words, i, j);
    var head := Spoken(words[..i]) + words[i].spacing;
    assert (head + cue.text)[|head|..] == cue.text;
    assert (head + Joined(words, i, j))[|head|..] == Joined(words, i, j);
    hide Joined, Spoken, Trim, EndsSentence, GoesOn;
    if j > i + 1 {
      forall k | i < k < j
        ensures Follows(words, i, k)
      {
        assert Adjoins(words, i, k);
        HasNoMark(words[k - 1]);
      }
    }
  }

  lemma HasNoMark(w: Word)
    requires GoesOn(w.text)
    ensures !EndsSentence(w)
  {
    hide TrimEnd;
  }

  lemma {:induction false} ShownIsGrouping(words: seq<Word>, from: nat, cues: seq<Cue>) returns (ends: seq<nat>)
    requires Shows(words, from, cues)
    ensures |ends| == |cues| && IsGrouping(words, from, ends)
    decreases |cues|
  {
    hide IsRun, ShowsRun;
    if cues == [] {
      ends := [];
    } else {
      var j :| ShowsRun(words, from, j, cues[0]) && Shows(words, j, cues[1..]);
      ShownIsRun(words, from, j, cues[0]);
      var rest := ShownIsGrouping(words, j, cues[1..]);
      ends := [j] + rest;
    }
  }

  /** With times that never decrease, no cues that show the words within the limits are fewer. */
  lemma FewestShown(words: seq<Word>, other: seq<Cue>)
    requires TimesNeverDecrease(words) && Shows(words, 0, other)
    ensures |CuesFrom(words, 0)| <= |other|
  {
    hide CuesFrom, TimesNeverDecrease, Shows, IsGrouping;
    var ends := ShownIsGrouping(words, 0, other);
    FewestCues(words, 0, ends);
  }

  lemma RunBounds(words: seq<Word>, i: nat, j: nat)
    requires IsRun(words, i, j)
    ensures i < j <= |words|
  {
  }

  /** Without that condition the loop may close a run too early: a middle word that ends late. */
  lemma TimesMatter()
    ensures var words := [Word("a", 0.0, 1.0, None, ""), Word("a", 1.0, 8.0, None, ""), Word("a", 8.0, 6.0, None, "")];
            IsGrouping(words, 0, [3]) && |CuesFrom(words, 0)| > 1
  {
    var words := [Word("a", 0.0, 1.0, None, ""), Word("a", 1.0, 8.0, None, ""), Word("a", 8.0, 6.0, None, "")];
    assert TrimEnd("a") == "a";
    assert forall k :: 0 < k < 3 ==> Follows(words, 0, k);
    assert Joined(words, 0, 2) == "a" + "" + "a" == "aa";
    assert Joined(words, 0, 3) == "aa" + "" + "a" == "aaa";
    assert TrimStart("aaa") == "aaa" && Trim("aaa") == "aaa";
    assert IsRun(words, 0, 3);
    var ends: seq<nat> := [3];
    assert ends[1..] == [];
    assert !Fits(words, 0, 2);
    assert Next(words, 0) == 1;
    CuesUnfold(words, 0);
    CuesUnfold(words, 1);
  }
}
