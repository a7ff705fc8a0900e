/** The order findings are raised in: by checkpoint ref, read as numbers. */
module FindingOrder {
  import opened Wrappers
  import opened Texts
  import opened Numbers
  import opened Store
  import opened Inspection

  // ------------------------------------------------------- what sorting keeps

  lemma {:induction false} InsertMember(r: ResponseRow, rows: seq<ResponseRow>, x: ResponseRow)
    ensures x in InsertByRef(r, rows) <==> x == r || x in rows
  {
    if rows != [] {
      assert rows == [rows[0]] + rows[1..];
      if RefBefore(rows[0].checkpointRef, r.checkpointRef) {
        InsertMember(r, rows[1..], x);
      }
    }
  }

  lemma {:induction false} SortMember(rows: seq<ResponseRow>, x: ResponseRow)
    ensures x in SortByRef(rows) <==> x in rows
  {
    if rows != [] {
      assert rows == [rows[0]] + rows[1..];
      SortMember(rows[1..], x);
      InsertMember(rows[0], SortByRef(rows[1..]), x);
    }
  }

  lemma {:induction false} NoAnswersMember(rows: seq<ResponseRow>, x: ResponseRow)
    ensures x in NoAnswers(rows) <==> x in rows && x.response.No?
  {
    if rows != [] {
      assert rows == [rows[0]] + rows[1..];
      NoAnswersMember(rows[1..], x);
    }
  }

  function RowRefs(rows: seq<ResponseRow>): (refs: seq<Text>)
    ensures |refs| == |rows|
  {
    seq(|rows|, i requires 0 <= i < |rows| => rows[i].checkpointRef)
  }

  /** No ref stands after one it sorts before. */
  ghost predicate InRefOrder(refs: seq<Text>) {
    forall i, j | 0 <= i < j < |refs| :: !RefBefore(refs[j], refs[i])
  }

  lemma {:induction false} FirstRef(r: ResponseRow, rows: seq<ResponseRow>)
    ensures RowRefs([r] + rows) == [r.checkpointRef] + RowRefs(rows)
    ensures multiset(RowRefs([r] + rows)) == multiset{r.checkpointRef} + multiset(RowRefs(rows))
  {
  }

  lemma {:induction false} InsertKeepsRefs(r: ResponseRow, rows: seq<ResponseRow>)
    ensures multiset(RowRefs(InsertByRef(r, rows))) == multiset{r.checkpointRef} + multiset(RowRefs(rows))
  {
    if rows != [] && RefBefore(rows[0].checkpointRef, r.checkpointRef) {
      InsertKeepsRefs(r, rows[1..]);
      FirstRef(rows[0], rows[1..]);
      FirstRef(rows[0], InsertByRef(r, rows[1..]));
      assert rows == [rows[0]] + rows[1..];
    } else {
      FirstRef(r, rows);
    }
  }

  lemma {:induction false} SortKeepsRefs(rows: seq<ResponseRow>)
    ensures multiset(RowRefs(SortByRef(rows))) == multiset(RowRefs(rows))
  {
    if rows != [] {
      SortKeepsRefs(rows[1..]);
      InsertKeepsRefs(rows[0], SortByRef(rows[1..]));
      assert RowRefs(rows) == [rows[0].checkpointRef] + RowRefs(rows[1..]);
    }
  }

  /** Nothing in the rows sorts before `r`. */
  ghost predicate NoneBefore(rows: seq<ResponseRow>, r: ResponseRow) {
    forall i | 0 <= i < |rows| :: !RefBefore(rows[i].checkpointRef, r.checkpointRef)
  }

  ghost predicate Ordered(rows: seq<ResponseRow>) {
    rows == [] || (NoneBefore(rows[1..], rows[0]) && Ordered(rows[1..]))
  }

  lemma {:induction false} InsertNoneBefore(r: ResponseRow, rows: seq<ResponseRow>, x: ResponseRow)
    requires NoneBefore(rows, x) && !RefBefore(r.checkpointRef, x.checkpointRef)
    ensures NoneBefore(InsertByRef(r, rows), x)
  {
    if rows != [] && RefBefore(rows[0].checkpointRef, r.checkpointRef) {
      InsertNoneBefore(r, rows[1..], x);
    }
  }

  lemma {:induction false} InsertKeepsOrder(r: ResponseRow, rows: seq<ResponseRow>)
    requires Ordered(rows)
    ensures Ordered(InsertByRef(r, rows))
  {
    if rows != [] && RefBefore(rows[0].checkpointRef, r.checkpointRef) {
      InsertKeepsOrder(r, rows[1..]);
      InsertNoneBefore(r, rows[1..], rows[0]);
      assert InsertByRef(r, rows)[1..] == InsertByRef(r, rows[1..]);
    } else {
      assert ([r] + rows)[1..] == rows;
    }
  }

  lemma {:induction false} SortOrders(rows: seq<ResponseRow>)
    ensures Ordered(SortByRef(rows))
  {
    if rows != [] {
      SortOrders(rows[1..]);
      InsertKeepsOrder(rows[0], SortByRef(rows[1..]));
    }
  }

  /** The rows whose refs read as these two numbers, as they stand. */
  function WithNumbers(rows: seq<ResponseRow>, section: int, checkpoint: int): seq<ResponseRow> {
    if rows == [] then []
    else
      var rest := WithNumbers(rows[1..], section, checkpoint);
      if ReadsAs(rows[0].checkpointRef, section, checkpoint) then [rows[0]] + rest else rest
  }

  predicate ReadsAs(ref: Text, section: int, checkpoint: int) {
    RefPart(ref, 0) == section && RefPart(ref, 1) == checkpoint
  }

  lemma {:induction false} FirstWithNumbers(r: ResponseRow, rest: seq<ResponseRow>, section: int, checkpoint: int)
    ensures WithNumbers([r] + rest, section, checkpoint)
         == (if ReadsAs(r.checkpointRef, section, checkpoint) then [r] else []) + WithNumbers(rest, section, checkpoint)
  {
    assert ([r] + rest)[1..] == rest;
  }

  lemma {:induction false} InsertIsStable(r: ResponseRow, rows: seq<ResponseRow>, section: int, checkpoint: int)
    ensures WithNumbers(InsertByRef(r, rows), section, checkpoint) == WithNumbers([r] + rows, section, checkpoint)
  {
    FirstWithNumbers(r, rows, section, checkpoint);
    if rows != [] && RefBefore(rows[0].checkpointRef, r.checkpointRef) {
      InsertIsStable(r, rows[1..], section, checkpoint);
      FirstWithNumbers(rows[0], InsertByRef(r, rows[1..]), section, checkpoint);
      FirstWithNumbers(r, rows[1..], section, checkpoint);
    }
  }

  /** No row stands before one whose ref comes first as numbers, and rows whose refs read as
      the same numbers stand as they stood. */
  lemma {:induction false} RefSortMeans(rows: seq<ResponseRow>, section: int, checkpoint: int)
    ensures Ordered(SortByRef(rows))
    ensures WithNumbers(SortByRef(rows), section, checkpoint) == WithNumbers(rows, section, checkpoint)
  {
    SortOrders(rows);
    if rows != [] {
      RefSortMeans(rows[1..], section, checkpoint);
      InsertIsStable(rows[0], SortByRef(rows[1..]), section, checkpoint);
      FirstWithNumbers(rows[0], SortByRef(rows[1..]), section, checkpoint);
    }
  }

  lemma {:induction false} OrderedRefs(rows: seq<ResponseRow>)
    requires Ordered(rows)
    ensures InRefOrder(RowRefs(rows))
  {
    if rows != [] {
      OrderedRefs(rows[1..]);
      assert RowRefs(rows) == [rows[0].checkpointRef] + RowRefs(rows[1..]);
      assert forall j | 0 < j < |rows| :: rows[j] == rows[1..][j - 1];
    }
  }

  // ------------------------------------------------- spellings of one place

  /** Two refs that read as the same numbers: neither sorts before the other. */
  predicate SamePlace(a: Text, b: Text) {
    RefPart(a, 0) == RefPart(b, 0) && RefPart(a, 1) == RefPart(b, 1)
  }

  lemma {:induction false} OneComesFirst(a: Text, b: Text)
    ensures SamePlace(a, b) <==> !RefBefore(a, b) && !RefBefore(b, a)
  {
  }

  /** Two parts, and perhaps more after a second dot. */
  function Spelling(x: Text, y: Text, more: Option<Text>): Text {
    x + [DOT] + (match more case None => y case Some(z) => y + [DOT] + z)
  }

  lemma {:induction false} SpellingParts(x: Text, y: Text, more: Option<Text>)
    requires DOT !in x && DOT !in y
    ensures var parts := Split(Spelling(x, y, more), DOT); |parts| >= 2 && parts[0] == x && parts[1] == y
  {
    match more
    case None =>
      SplitFirst(x, y, DOT);
      SplitWhole(y, DOT);
    case Some(z) =>
      SplitFirst(x, y + [DOT] + z, DOT);
      SplitFirst(y, z, DOT);
  }

  lemma {:induction false} RefTextParts(section: nat, checkpoint: nat)
    ensures var parts := Split(RefText(section, checkpoint), DOT);
            |parts| >= 2 && WholeNumber(parts[0]) == Some(section) && WholeNumber(parts[1]) == Some(checkpoint)
  {
    var a, b := Digits(section), Digits(checkpoint);
    SpellingParts(a, b, None);
    assert RefText(section, checkpoint) == Spelling(a, b, None);
    DigitsAreWhole(a);
    DigitsAreWhole(b);
    DigitsRoundTrip(section);
    DigitsRoundTrip(checkpoint);
  }

  /** However the two numbers are spelled, and whatever follows a second dot, the
      instrument finds the checkpoint it finds under its own ref, as a second key that
      sorts neither before nor after it. */
  lemma {:induction false} SpellingsFindOneCheckpoint(
      sections: seq<Section>, section: nat, checkpoint: nat, x: Text, y: Text, more: Option<Text>)
    requires DOT !in x && DOT !in y && WholeNumber(x) == Some(section) && WholeNumber(y) == Some(checkpoint)
    ensures FindCheckpoint(sections, Spelling(x, y, more)) == FindCheckpoint(sections, RefText(section, checkpoint))
    ensures SamePlace(Spelling(x, y, more), RefText(section, checkpoint))
  {
    SpellingParts(x, y, more);
    RefTextParts(section, checkpoint);
  }

  /** Leading zeros, to any width, spell the same checkpoint. */
  lemma {:induction false} PaddedRefsAreAliases(
      sections: seq<Section>, section: nat, checkpoint: nat, width: nat, other: nat)
    ensures var alias := PadZeros(width, Digits(section)) + [DOT] + PadZeros(other, Digits(checkpoint));
            && FindCheckpoint(sections, alias) == FindCheckpoint(sections, RefText(section, checkpoint))
            && SamePlace(alias, RefText(section, checkpoint))
            && (alias == RefText(section, checkpoint) <==> width <= |Digits(section)| && other <= |Digits(checkpoint)|)
  {
    var x, y := PadZeros(width, Digits(section)), PadZeros(other, Digits(checkpoint));
    PaddedIsWhole(width, section);
    PaddedIsWhole(other, checkpoint);
    SpellingsFindOneCheckpoint(sections, section, checkpoint, x, y, None);
    if x + [DOT] + y == RefText(section, checkpoint) {
      SpellingParts(x, y, None);
      SpellingParts(Digits(section), Digits(checkpoint), None);
    }
  }

  /** So does white space around either number. */
  lemma {:induction false} SpacedRefsAreAliases(
      sections: seq<Section>, section: nat, checkpoint: nat, a: Text, b: Text, c: Text, e: Text)
    requires AllSpaces(a) && AllSpaces(b) && AllSpaces(c) && AllSpaces(e)
    ensures var alias := (a + Digits(section) + b) + [DOT] + (c + Digits(checkpoint) + e);
            && FindCheckpoint(sections, alias) == FindCheckpoint(sections, RefText(section, checkpoint))
            && SamePlace(alias, RefText(section, checkpoint))
  {
    SpacedNumber(a, section, b);
    SpacedNumber(c, checkpoint, e);
    SpellingsFindOneCheckpoint(
      sections, section, checkpoint, a + Digits(section) + b, c + Digits(checkpoint) + e, None);
  }

  lemma {:induction false} SpacedNumber(before: Text, n: nat, after: Text)
    requires AllSpaces(before) && AllSpaces(after)
    ensures WholeNumber(before + Digits(n) + after) == Some(n) && DOT !in before + Digits(n) + after
  {
    var t := Digits(n);
    assert IsDigit(t[0]) && IsDigit(t[|t| - 1]);
    DigitsAreWhole(t);
    DigitsRoundTrip(n);
    SpacedIsWhole(before, t, after);
  }

  lemma {:induction false} SectionFound(sections: seq<Section>, ordinal: int) returns (i: nat)
    requires FindSection(sections, ordinal).Some?
    ensures i < |sections| && FindSection(sections, ordinal) == Some(sections[i]) && sections[i].ordinal == ordinal
  {
    i := 0;
    if sections[0].ordinal != ordinal {
      var k := SectionFound(sections[1..], ordinal);
      i := k + 1;
    }
  }

  lemma {:induction false} OrdinalFound(checkpoints: seq<Checkpoint>, ordinal: int)
    ensures FindOrdinal(checkpoints, ordinal).Some? ==> FindOrdinal(checkpoints, ordinal).value.ordinal == ordinal
  {
    if checkpoints != [] {
      OrdinalFound(checkpoints[1..], ordinal);
    }
  }

  /** A ref is found where its numbers say. */
  lemma {:induction false} FoundAtItsPlace(sections: seq<Section>, ref: Text) returns (i: nat)
    requires FindCheckpoint(sections, ref).Some?
    ensures i < |sections| && RefPart(ref, 0) == sections[i].ordinal
    ensures RefPart(ref, 1) == FindCheckpoint(sections, ref).value.ordinal
  {
    i := SectionFound(sections, RefPart(ref, 0));
    OrdinalFound(sections[i].checkpoints, RefPart(ref, 1));
  }

  /** A ref written as the instrument writes it. */
  ghost predicate Canonical(ref: Text) {
    exists section: nat, checkpoint: nat :: ref == RefText(section, checkpoint)
  }

  lemma {:induction false} CanonicalRefsDiffer(a: Text, b: Text)
    requires Canonical(a) && Canonical(b) && a != b
    ensures !SamePlace(a, b)
  {
    var s1: nat, c1: nat :| a == RefText(s1, c1);
    var s2: nat, c2: nat :| b == RefText(s2, c2);
    RefTextParts(s1, c1);
    RefTextParts(s2, c2);
  }

  /** Refs as the instrument writes them sort by section and then by checkpoint, as numbers. */
  lemma {:induction false} RefsSortAsNumbers(s1: nat, c1: nat, s2: nat, c2: nat)
    ensures RefBefore(RefText(s1, c1), RefText(s2, c2)) <==> s1 < s2 || (s1 == s2 && c1 < c2)
  {
    RefTextParts(s1, c1);
    RefTextParts(s2, c2);
  }

  // --------------------------------------------------------- repetitions

  ghost predicate NoRepeats(xs: seq<Text>) {
    xs == [] || (xs[0] !in xs[1..] && NoRepeats(xs[1..]))
  }

  lemma {:induction false} NoRepeatsByCount(xs: seq<Text>)
    ensures NoRepeats(xs) <==> forall x: Text :: multiset(xs)[x] <= 1
  {
    if xs != [] {
      NoRepeatsByCount(xs[1..]);
      assert xs == [xs[0]] + xs[1..];
      assert multiset(xs) == multiset{xs[0]} + multiset(xs[1..]);
      forall x: Text ensures multiset(xs)[x] == multiset(xs[1..])[x] + (if x == xs[0] then 1 else 0) {
      }
      if NoRepeats(xs) {
        assert xs[0] !in multiset(xs[1..]);
      }
      if forall x: Text :: multiset(xs)[x] <= 1 {
        assert multiset(xs)[xs[0]] <= 1;
        assert xs[0] !in multiset(xs[1..]);
        forall x: Text ensures multiset(xs[1..])[x] <= 1 {
          assert multiset(xs)[x] <= 1;
        }
      }
    }
  }

  lemma {:induction false} NoRepeatsAt(xs: seq<Text>, i: nat, j: nat)
    requires NoRepeats(xs) && i < j < |xs|
    ensures xs[i] != xs[j]
  {
    if i > 0 {
      NoRepeatsAt(xs[1..], i - 1, j - 1);
    } else {
      assert xs[j] == xs[1..][j - 1];
    }
  }
}
