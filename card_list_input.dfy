/**
 * The card-list text box: on submit the text is split into lines, each line
 * is trimmed and the empty ones are dropped; the "Cards entered" counter
 * counts the lines that are not blank.
 */
module CardListInput {
  import opened Wrappers
  import opened JsString

  /** `.map(card => card.trim())` */
  function TrimAll(lines: seq<string>): (trimmed: seq<string>)
    ensures |trimmed| == |lines|
  {
    seq(|lines|, i requires 0 <= i < |lines| => Trim(lines[i]))
  }

  /** `.filter(card => card.length > 0)` */
  function DropEmpty(xs: seq<string>): seq<string>
    decreases |xs|
  {
    if xs == [] then []
    else if |xs[0]| > 0 then [xs[0]] + DropEmpty(xs[1..])
    else DropEmpty(xs[1..])
  }

  /** The list `handleSubmit` builds from the text. */
  function CardEntries(text: string): (entries: seq<string>)
    ensures forall e :: e in entries ==> e != []
    ensures |entries| <= |Split(text, '\n')|
  {
    DropEmptyNonEmpty(TrimAll(Split(text, '\n')));
    DropEmptyNoLonger(TrimAll(Split(text, '\n')));
    DropEmpty(TrimAll(Split(text, '\n')))
  }

  /**
   * `handleSubmit`: nothing is submitted when the trimmed text is empty,
   * which is exactly when the text is blank; otherwise the list submitted is
   * the card entries and is never empty.
   */
  function HandleSubmit(text: string): (submitted: Option<seq<string>>)
    ensures submitted.None? <==> Blank(text)
    ensures submitted.Some? ==> submitted.value == CardEntries(text) && |submitted.value| > 0
  {
    if Trim(text) != [] then
      NonBlankTextHasEntry(text);
      Some(CardEntries(text))
    else
      None
  }

  /** `.filter(line => line.trim().length > 0).length`: the number of lines that are not blank. */
  function CountNonBlank(lines: seq<string>): (n: nat)
    ensures n <= |lines|
    ensures n == 0 <==> forall i :: 0 <= i < |lines| ==> Trim(lines[i]) == []
    decreases |lines|
  {
    if lines == [] then 0
    else (if |Trim(lines[0])| > 0 then 1 else 0) + CountNonBlank(lines[1..])
  }

  /** The "Cards entered" counter shown under the text box. */
  function CardsEntered(text: string): (n: nat)
    ensures n == |CardEntries(text)|
  {
    CountMatchesEntries(Split(text, '\n'));
    CountNonBlank(Split(text, '\n'))
  }

  // ---------------------------------------------------------------------
  // Properties of the card list.
  // ---------------------------------------------------------------------

  /** Trimming then dropping empties walks the lines one by one. */
  lemma EntriesStep(lines: seq<string>)
    requires lines != []
    ensures DropEmpty(TrimAll(lines)) ==
      (if Trim(lines[0]) != [] then [Trim(lines[0])] else []) + DropEmpty(TrimAll(lines[1..]))
  {
    assert TrimAll(lines)[1..] == TrimAll(lines[1..]);
  }

  /** Entry `i` is line `kept[i]` trimmed. */
  ghost predicate TrimmedLinesAt(entries: seq<string>, lines: seq<string>, kept: seq<nat>) {
    && |kept| == |entries|
    && forall i :: 0 <= i < |kept| ==> kept[i] < |lines| && entries[i] == Trim(lines[kept[i]])
  }

  /** The submitted entries are the lines listed in `kept`, trimmed. */
  ghost predicate EntriesFrom(lines: seq<string>, kept: seq<nat>) {
    TrimmedLinesAt(DropEmpty(TrimAll(lines)), lines, kept)
  }

  /** `kept` is strictly increasing. */
  ghost predicate Increasing(kept: seq<nat>) {
    forall i, j :: 0 <= i < j < |kept| ==> kept[i] < kept[j]
  }

  /** Every line that is not blank is in `kept`. */
  ghost predicate CoversNonBlank(lines: seq<string>, kept: seq<nat>) {
    forall k :: 0 <= k < |lines| && Trim(lines[k]) != [] ==> k in kept
  }

  /**
   * The submitted entries keep the order of the lines they come from and
   * miss none that is not blank: they are the subsequence of trimmed lines
   * that are not empty. The result lists the lines the entries come from.
   */
  ghost function KeptLines(lines: seq<string>): (kept: seq<nat>)
    ensures EntriesFrom(lines, kept)
    ensures Increasing(kept)
    ensures CoversNonBlank(lines, kept)
    decreases |lines|
  {
    if lines == [] then []
    else
      var rest := KeptLines(lines[1..]);
      KeptStep(lines, rest);
      Shifted(lines, rest)
  }

  /** The first line's index if it is kept, then the indices kept from the other lines, moved up by one. */
  ghost function Shifted(lines: seq<string>, rest: seq<nat>): seq<nat>
    requires lines != []
  {
    (if Trim(lines[0]) != [] then [0] else []) + seq(|rest|, i requires 0 <= i < |rest| => rest[i] + 1)
  }

  lemma KeptStep(lines: seq<string>, rest: seq<nat>)
    requires lines != []
    requires EntriesFrom(lines[1..], rest) && Increasing(rest) && CoversNonBlank(lines[1..], rest)
    ensures var kept := Shifted(lines, rest);
      EntriesFrom(lines, kept) && Increasing(kept) && CoversNonBlank(lines, kept)
  {
    var kept := Shifted(lines, rest);
    var d := if Trim(lines[0]) != [] then 1 else 0;
    assert forall i :: d <= i < |kept| ==> kept[i] == rest[i - d] + 1;
    EntriesStep(lines);
    KeptEntries(lines, rest, kept, d, DropEmpty(TrimAll(lines)), DropEmpty(TrimAll(lines[1..])));
    KeptOrder(rest, kept, d);
    KeptCovers(lines, rest, kept, d);
  }

  lemma KeptEntries(lines: seq<string>, rest: seq<nat>, kept: seq<nat>, d: nat, entries: seq<string>, tail: seq<string>)
    requires lines != [] && TrimmedLinesAt(tail, lines[1..], rest)
    requires d <= 1 && |kept| == |rest| + d && (d == 1 ==> kept[0] == 0)
    requires forall i :: d <= i < |kept| ==> kept[i] == rest[i - d] + 1
    requires entries == (if d == 1 then [Trim(lines[0])] else []) + tail
    ensures TrimmedLinesAt(entries, lines, kept)
  {
    forall i | 0 <= i < |kept| ensures kept[i] < |lines| && entries[i] == Trim(lines[kept[i]]) {
      if i >= d {
        assert entries[i] == tail[i - d];
        assert lines[1..][rest[i - d]] == lines[kept[i]];
      }
    }
  }

  lemma KeptOrder(rest: seq<nat>, kept: seq<nat>, d: nat)
    requires Increasing(rest)
    requires d <= 1 && |kept| == |rest| + d && (d == 1 ==> kept[0] == 0)
    requires forall i :: d <= i < |kept| ==> kept[i] == rest[i - d] + 1
    ensures Increasing(kept)
  {
  }

  lemma KeptCovers(lines: seq<string>, rest: seq<nat>, kept: seq<nat>, d: nat)
    requires lines != [] && CoversNonBlank(lines[1..], rest)
    requires d == (if Trim(lines[0]) != [] then 1 else 0)
    requires d <= 1 && |kept| == |rest| + d && (d == 1 ==> kept[0] == 0)
    requires forall i :: d <= i < |kept| ==> kept[i] == rest[i - d] + 1
    ensures CoversNonBlank(lines, kept)
  {
    forall k | 0 <= k < |lines| && Trim(lines[k]) != [] ensures k in kept {
      if k > 0 {
        assert lines[1..][k - 1] == lines[k];
        var i :| 0 <= i < |rest| && rest[i] == k - 1;
        assert kept[i + d] == k;
      }
    }
  }

  /**
   * Every entry is a non-empty line with no white space at either end, as a
   * trimmed line is; in particular it holds no line break.
   */
  lemma EntriesAreTrimmedLines(text: string)
    ensures forall e :: e in CardEntries(text) ==>
      e != [] && !IsWhiteSpace(e[0]) && !IsWhiteSpace(e[|e| - 1]) && '\n' !in e
  {
    var lines := Split(text, '\n');
    var kept := KeptLines(lines);
    var entries := CardEntries(text);
    DropEmptyNonEmpty(TrimAll(lines));
    forall e | e in entries
      ensures e != [] && !IsWhiteSpace(e[0]) && !IsWhiteSpace(e[|e| - 1]) && '\n' !in e
    {
      var i :| 0 <= i < |entries| && entries[i] == e;
      var line := lines[kept[i]];
      assert e == Trim(line);
      if '\n' in e {
        TrimKeepsCharacters(line, '\n');
      }
    }
  }

  /** What the filter keeps is non-empty. */
  lemma {:induction false} DropEmptyNonEmpty(xs: seq<string>)
    ensures forall e :: e in DropEmpty(xs) ==> e != []
    decreases |xs|
  {
    if xs != [] {
      DropEmptyNonEmpty(xs[1..]);
    }
  }

  /** The filter keeps at most every element. */
  lemma {:induction false} DropEmptyNoLonger(xs: seq<string>)
    ensures |DropEmpty(xs)| <= |xs|
    decreases |xs|
  {
    if xs != [] {
      DropEmptyNoLonger(xs[1..]);
    }
  }

  /** The counter and the submission use the same test: they agree on every list of lines. */
  lemma {:induction false} CountMatchesEntries(lines: seq<string>)
    ensures CountNonBlank(lines) == |DropEmpty(TrimAll(lines))|
    decreases |lines|
  {
    if lines != [] {
      EntriesStep(lines);
      CountMatchesEntries(lines[1..]);
    }
  }

  /**
   * "Cards entered" shows the length of the list a submit would send, and
   * shows zero exactly when a submit would send nothing.
   */
  lemma CounterMatchesSubmission(text: string)
    ensures CardsEntered(text) == |CardEntries(text)|
    ensures HandleSubmit(text).Some? ==> CardsEntered(text) == |HandleSubmit(text).value|
    ensures HandleSubmit(text).None? <==> CardsEntered(text) == 0
  {
    CountMatchesEntries(Split(text, '\n'));
    if CardsEntered(text) > 0 {
      NonBlankLineMakesTextNonBlank(text);
    }
  }

  /** Text with a character that is not white space has a line that is not blank. */
  lemma {:induction false} NonBlankLine(s: string)
    requires !Blank(s)
    ensures CountNonBlank(Split(s, '\n')) > 0
    decreases |s|
  {
    var rest := Split(s[1..], '\n');
    if !IsWhiteSpace(s[0]) {
      var line := Split(s, '\n')[0];
      assert line[0] == s[0];
      assert !Blank(line);
    } else if !Blank(s[1..]) {
      NonBlankLine(s[1..]);
      if s[0] == '\n' {
        assert Split(s, '\n')[1..] == rest;
      } else {
        var line := [s[0]] + rest[0];
        assert Split(s, '\n') == [line] + rest[1..];
        assert Split(s, '\n')[1..] == rest[1..];
        if Trim(rest[0]) != [] {
          assert !Blank(rest[0]);
          var k :| 0 <= k < |rest[0]| && !IsWhiteSpace(rest[0][k]);
          assert line[k + 1] == rest[0][k];
          assert !Blank(line);
        }
      }
    }
  }

  /** Text that is not blank gives at least one entry. */
  lemma NonBlankTextHasEntry(text: string)
    requires !Blank(text)
    ensures |CardEntries(text)| > 0
  {
    NonBlankLine(text);
    CountMatchesEntries(Split(text, '\n'));
  }

  /** A line that is not blank makes the whole text not blank. */
  lemma {:induction false} NonBlankLineMakesTextNonBlank(s: string)
    requires CountNonBlank(Split(s, '\n')) > 0
    ensures !Blank(s)
    decreases |s|
  {
    var lines := Split(s, '\n');
    var k := FirstNonBlank(lines);
    JoinSplit(s, '\n');
    LineIsPartOfJoin(lines, k, s);
  }

  /** The index of a line that is not blank. */
  lemma {:induction false} FirstNonBlank(lines: seq<string>) returns (k: nat)
    requires CountNonBlank(lines) > 0
    ensures k < |lines| && !Blank(lines[k])
    decreases |lines|
  {
    if Trim(lines[0]) != [] {
      k := 0;
    } else {
      var j := FirstNonBlank(lines[1..]);
      k := j + 1;
    }
  }

  /** A character that is not white space in one piece of a join is one in the joined text. */
  lemma {:induction false} LineIsPartOfJoin(lines: seq<string>, k: nat, s: string)
    requires k < |lines| && !Blank(lines[k]) && s == Join(lines, '\n')
    ensures !Blank(s)
    decreases |lines|
  {
    if |lines| > 1 {
      var tail := Join(lines[1..], '\n');
      assert s == lines[0] + ['\n'] + tail;
      if k == 0 {
        var c :| 0 <= c < |lines[0]| && !IsWhiteSpace(lines[0][c]);
        assert s[c] == lines[0][c];
      } else {
        LineIsPartOfJoin(lines[1..], k - 1, tail);
        var c :| 0 <= c < |tail| && !IsWhiteSpace(tail[c]);
        assert s[|lines[0]| + 1 + c] == tail[c];
      }
    }
  }
}
