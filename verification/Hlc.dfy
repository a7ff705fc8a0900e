/** The hybrid logical clock and its stamps. */
module Hlc {
  import opened Wrappers
  import opened Texts
  import opened Numbers

  datatype HlcState = HlcState(physical: int, counter: int, nodeId: Text)

  const PHYS_WIDTH: nat := 15
  const CTR_WIDTH: nat := 5

  function HlcInit(nodeId: Text): HlcState {
    HlcState(0, 0, nodeId)
  }

  /** Advance the clock for an event authored here, whatever the wall clock says. */
  function HlcSend(state: HlcState, now: int): HlcState {
    var physical := Max(state.physical, now);
    state.(physical := physical, counter := if physical == state.physical then state.counter + 1 else 0)
  }

  /** Merge a received stamp: `None` where decoding it throws. */
  function HlcReceive(state: HlcState, remoteStamp: Text, now: int): Option<HlcState> {
    match Decode(remoteStamp)
    case None => None
    case Some(remote) =>
      var physical := Max(Max(state.physical, remote.physical), now);
      var counter :=
        if physical == state.physical && physical == remote.physical then Max(state.counter, remote.counter) + 1
        else if physical == state.physical then state.counter + 1
        else if physical == remote.physical then remote.counter + 1
        else 0;
      Some(state.(physical := physical, counter := counter))
  }

  /** `String(n)`. */
  function IntText(n: int): Text {
    if n < 0 then [MINUS] + Digits(-n) else Digits(n)
  }

  /** `String(n).padStart(width, "0")`: a short negative number has zeros before its sign. */
  function NumberField(width: nat, n: int): Text {
    PadZeros(width, IntText(n))
  }

  function Encode(s: HlcState): Text {
    NumberField(PHYS_WIDTH, s.physical) + [COLON] + NumberField(CTR_WIDTH, s.counter) + [COLON] + s.nodeId
  }

  function Decode(stamp: Text): Option<HlcState> {
    var parts := Split(stamp, COLON);
    if |parts| < 3 then None
    else
      match (WholeNumber(parts[0]), WholeNumber(parts[1]))
      case (Some(physical), Some(counter)) => Some(HlcState(physical, counter, Join(parts[2..], COLON)))
      case _ => None
  }

  /** The comparator: negative, zero or positive; `None` where decoding throws. */
  function HlcCompare(a: Text, b: Text): Option<int> {
    match (Decode(a), Decode(b))
    case (Some(da), Some(db)) =>
      Some(if da.physical != db.physical then da.physical - db.physical
           else if da.counter != db.counter then da.counter - db.counter
           else if LexLess(da.nodeId, db.nodeId) then -1
           else if LexLess(db.nodeId, da.nodeId) then 1 else 0)
    case _ => None
  }

  // ---------------------------------------------------------- round trip

  /** The number is read back from its field. */
  predicate Readable(width: nat, n: int) {
    n >= 0 || |IntText(n)| >= width
  }

  lemma {:induction false} SignedIsWhole(n: int)
    requires n > 0
    ensures WholeNumber([MINUS] + Digits(n)) == Some(-n)
  {
    var t := [MINUS] + Digits(n);
    DigitsRoundTrip(n);
    assert IsDigit(Digits(n)[|Digits(n)| - 1]);
    TrimAround([], t, []);
    assert [] + t + [] == t && t[1..] == Digits(n);
    DigitRunWhole(Digits(n));
    assert Digits(n)[..|Digits(n)|] == Digits(n);
  }

  /** Zeros before a sign are no number. */
  lemma {:induction false} PaddedSignIsNone(width: nat, n: int)
    requires n > 0 && |[MINUS] + Digits(n)| < width
    ensures WholeNumber(PadZeros(width, [MINUS] + Digits(n))) == None
  {
    var t, k := PadZeros(width, [MINUS] + Digits(n)), width - |[MINUS] + Digits(n)|;
    DigitsRoundTrip(n);
    PadZerosShape(width, [MINUS] + Digits(n));
    assert t[k] == t[k..][0] == MINUS;
    assert IsDigit(Digits(n)[|Digits(n)| - 1]) && t[|t| - 1] == t[k..][|t| - 1 - k];
    ZerosThenSignIsNone(t, k);
  }

  lemma {:induction false} ZerosThenSignIsNone(t: Text, k: nat)
    requires 0 < k < |t| && t[k] == MINUS && IsDigit(t[|t| - 1]) && forall i | 0 <= i < k :: t[i] == ZERO
    ensures WholeNumber(t) == None
  {
    TrimAround([], t, []);
    assert [] + t + [] == t;
    DigitRunStops(t, k);
  }

  lemma {:induction false} PadZerosShape(width: nat, t: Text)
    requires |t| <= width
    ensures var k := width - |t|;
            PadZeros(width, t)[k..] == t && forall i | 0 <= i < k :: PadZeros(width, t)[i] == ZERO
    decreases width - |t|
  {
    if |t| < width {
      PadZerosShape(width, [ZERO] + t);
      var k, padded := width - |t|, PadZeros(width, [ZERO] + t);
      assert padded[k - 1..] == [ZERO] + t;
      assert padded[k..] == padded[k - 1..][1..] && padded[k - 1] == padded[k - 1..][0];
    }
  }

  lemma {:induction false} FieldIsRead(width: nat, n: int)
    ensures WholeNumber(NumberField(width, n)) == if Readable(width, n) then Some(n) else None
  {
    if n >= 0 {
      PaddedIsWhole(width, n);
    } else if Readable(width, n) {
      SignedIsWhole(-n);
    } else {
      PaddedSignIsNone(width, -n);
    }
  }

  lemma {:induction false} NoColonInField(width: nat, n: int)
    ensures COLON !in NumberField(width, n)
  {
    if n >= 0 {
      DigitsRoundTrip(n);
      PadZerosKeepsValue(width, Digits(n));
    } else {
      DigitsRoundTrip(-n);
      assert COLON !in IntText(n);
      if |IntText(n)| < width {
        PadZerosShape(width, IntText(n));
        var k, field := width - |IntText(n)|, NumberField(width, n);
        assert field == field[..k] + IntText(n);
      }
    }
  }

  predicate ReadableState(s: HlcState) {
    Readable(PHYS_WIDTH, s.physical) && Readable(CTR_WIDTH, s.counter)
  }

  /** `decode` undoes `encode`, also for a node id that contains colons, exactly where no
      negative number is shorter than its field; there it throws. */
  lemma {:induction false} DecodeEncode(s: HlcState)
    ensures Decode(Encode(s)) == if ReadableState(s) then Some(s) else None
  {
    var p, c := NumberField(PHYS_WIDTH, s.physical), NumberField(CTR_WIDTH, s.counter);
    FieldIsRead(PHYS_WIDTH, s.physical);
    FieldIsRead(CTR_WIDTH, s.counter);
    NoColonInField(PHYS_WIDTH, s.physical);
    NoColonInField(CTR_WIDTH, s.counter);
    assert Encode(s) == p + [COLON] + (c + [COLON] + s.nodeId);
    SplitFirst(p, c + [COLON] + s.nodeId, COLON);
    SplitFirst(c, s.nodeId, COLON);
    JoinSplit(s.nodeId, COLON);
    assert ([p] + ([c] + Split(s.nodeId, COLON)))[2..] == Split(s.nodeId, COLON);
  }

  // --------------------------------------------------------- total order

  predicate StampBefore(a: Text, b: Text) {
    HlcCompare(a, b).Some? && HlcCompare(a, b).value < 0
  }

  ghost predicate IsStamp(t: Text) {
    Decode(t).Some?
  }

  /** The order the comparator implements. */
  predicate Precedes(a: HlcState, b: HlcState) {
    || a.physical < b.physical
    || (a.physical == b.physical && a.counter < b.counter)
    || (a.physical == b.physical && a.counter == b.counter && LexLess(a.nodeId, b.nodeId))
  }

  lemma {:induction false} CompareDecides(a: Text, b: Text)
    requires IsStamp(a) && IsStamp(b)
    ensures HlcCompare(a, b).Some?
    ensures HlcCompare(a, b).value < 0 <==> Precedes(Decode(a).value, Decode(b).value)
    ensures HlcCompare(a, b).value > 0 <==> Precedes(Decode(b).value, Decode(a).value)
    ensures HlcCompare(a, b).value == 0 <==> Decode(a) == Decode(b)
  {
    var x, y := Decode(a).value.nodeId, Decode(b).value.nodeId;
    LexTotal(x, y);
    LexIrreflexive(x);
    if LexLess(x, y) {
      LexAsymmetric(x, y);
    }
  }

  /** `hlcCompare` is a total order on stamps: antisymmetric, transitive, and zero
      exactly between stamps that decode alike. */
  lemma {:induction false} CompareIsTotalOrder(a: Text, b: Text, c: Text)
    requires IsStamp(a) && IsStamp(b) && IsStamp(c)
    ensures HlcCompare(a, b).value < 0 <==> HlcCompare(b, a).value > 0
    ensures HlcCompare(a, b).value == 0 <==> Decode(a) == Decode(b)
    ensures HlcCompare(a, b).value < 0 && HlcCompare(b, c).value < 0 ==> HlcCompare(a, c).value < 0
  {
    CompareDecides(a, b);
    CompareDecides(b, a);
    CompareDecides(b, c);
    CompareDecides(a, c);
    var x, y, z := Decode(a).value, Decode(b).value, Decode(c).value;
    if LexLess(x.nodeId, y.nodeId) && LexLess(y.nodeId, z.nodeId) {
      LexTransitive(x.nodeId, y.nodeId, z.nodeId);
    }
  }

  // -------------------------------------------------------- sorting as text

  /** So is every clock that has read no stamp but its own. */
  predicate NonNegative(s: HlcState) {
    s.physical >= 0 && s.counter >= 0
  }

  predicate Fits(s: HlcState) {
    0 <= s.physical < Pow10(PHYS_WIDTH) && 0 <= s.counter < Pow10(CTR_WIDTH)
  }

  lemma {:induction false} PaddedWidth(width: nat, n: nat)
    requires width > 0 && n < Pow10(width)
    ensures |PadZeros(width, Digits(n))| == width && AllDigits(PadZeros(width, Digits(n)))
    ensures DigitsValue(PadZeros(width, Digits(n))) == n
  {
    DigitsLength(n, width);
    PadZerosKeepsValue(width, Digits(n));
    DigitsRoundTrip(n);
  }

  lemma {:induction false} PaddedFieldDecides(width: nat, m: nat, n: nat, s: Text, t: Text)
    requires width > 0 && m < Pow10(width) && n < Pow10(width)
    ensures var x, y := PadZeros(width, Digits(m)), PadZeros(width, Digits(n));
            LexLess(x + ([COLON] + s), y + ([COLON] + t)) <==> m < n || (m == n && LexLess(s, t))
  {
    var x, y := PadZeros(width, Digits(m)), PadZeros(width, Digits(n));
    PaddedWidth(width, m);
    PaddedWidth(width, n);
    DigitsSortNumerically(x, y);
    if m == n {
      LexCommonPrefix(x, [COLON] + s, [COLON] + t);
      LexCommonPrefix([COLON], s, t);
    } else {
      LexDecidedByPrefix(x, y, [COLON] + s, [COLON] + t);
    }
  }

  /** The first field decides, and where it is level the second, and then the node. */
  lemma {:induction false} FieldsDecide(a: HlcState, b: HlcState, s: Text, t: Text)
    requires Fits(a) && Fits(b)
    requires s == PadZeros(CTR_WIDTH, Digits(a.counter)) + ([COLON] + a.nodeId)
    requires t == PadZeros(CTR_WIDTH, Digits(b.counter)) + ([COLON] + b.nodeId)
    ensures var x, y := PadZeros(PHYS_WIDTH, Digits(a.physical)), PadZeros(PHYS_WIDTH, Digits(b.physical));
            LexLess(x + ([COLON] + s), y + ([COLON] + t)) <==> Precedes(a, b)
  {
    PaddedFieldDecides(PHYS_WIDTH, a.physical, b.physical, s, t);
    PaddedFieldDecides(CTR_WIDTH, a.counter, b.counter, a.nodeId, b.nodeId);
  }

  lemma {:induction false} EncodeParts(a: HlcState, s: Text)
    requires Fits(a) && s == PadZeros(CTR_WIDTH, Digits(a.counter)) + ([COLON] + a.nodeId)
    ensures Encode(a) == PadZeros(PHYS_WIDTH, Digits(a.physical)) + ([COLON] + s)
  {
  }

  /** Stamps whose numbers fit their fields sort as text as the comparator orders them. */
  lemma {:induction false} StampsSortAsText(a: HlcState, b: HlcState)
    requires Fits(a) && Fits(b)
    ensures LexLess(Encode(a), Encode(b)) <==> StampBefore(Encode(a), Encode(b))
    ensures LexLess(Encode(a), Encode(b)) <==> Precedes(a, b)
  {
    var s := PadZeros(CTR_WIDTH, Digits(a.counter)) + ([COLON] + a.nodeId);
    var t := PadZeros(CTR_WIDTH, Digits(b.counter)) + ([COLON] + b.nodeId);
    EncodeParts(a, s);
    EncodeParts(b, t);
    FieldsDecide(a, b, s, t);
    EncodedCompare(a, b);
  }

  lemma {:induction false} EncodedCompare(a: HlcState, b: HlcState)
    requires Fits(a) && Fits(b)
    ensures StampBefore(Encode(a), Encode(b)) <==> Precedes(a, b)
  {
    DecodeEncode(a);
    DecodeEncode(b);
    CompareDecides(Encode(a), Encode(b));
  }

  /** Every two stamps below the bounds sort as text in clock order. */
  ghost predicate TextOrderHoldsBelow(physical: nat, counter: nat) {
    forall a: HlcState, b: HlcState
      | 0 <= a.physical < physical && 0 <= b.physical < physical && 0 <= a.counter < counter && 0 <= b.counter < counter ::
      LexLess(Encode(a), Encode(b)) <==> Precedes(a, b)
  }

  lemma {:induction false} DigitsOfPow10(k: nat)
    ensures |Digits(Pow10(k))| == k + 1 && Digits(Pow10(k))[0] == ZERO + 1
  {
    if k > 0 {
      DigitsOfPow10(k - 1);
      assert Pow10(k) / 10 == Pow10(k - 1);
      assert Digits(Pow10(k)) == Digits(Pow10(k - 1)) + [ZERO + Pow10(k) % 10];
    }
  }

  lemma {:induction false} DigitsOfNines(k: nat)
    requires k > 0
    ensures |Digits(Pow10(k) - 1)| == k && Digits(Pow10(k) - 1)[0] == ZERO + 9
  {
    if k == 1 {
      assert Pow10(1) == 10 * Pow10(0);
    } else {
      DigitsOfNines(k - 1);
      assert Pow10(k) == 10 * Pow10(k - 1);
      assert Pow10(k - 1) >= 10 by { assert Pow10(k - 1) == 10 * Pow10(k - 2); }
      var n := Pow10(k) - 1;
      assert n / 10 == Pow10(k - 1) - 1;
    }
  }

  /** The first number too wide for its field sorts before the last one that fits. */
  lemma {:induction false} OverflowSortsFirst(width: nat, s: Text, t: Text)
    requires width > 0
    ensures LexLess(PadZeros(width, Digits(Pow10(width))) + s, PadZeros(width, Digits(Pow10(width) - 1)) + t)
  {
    DigitsOfPow10(width);
    DigitsOfNines(width);
    var x, y := Digits(Pow10(width)), Digits(Pow10(width) - 1);
    assert (x + s)[0] == ZERO + 1 && (y + t)[0] == ZERO + 9;
  }

  lemma {:induction false} OverflowUnsorted(width: nat, s: Text)
    requires width > 0
    ensures !LexLess(PadZeros(width, Digits(Pow10(width) - 1)) + s, PadZeros(width, Digits(Pow10(width))) + s)
  {
    OverflowSortsFirst(width, s, s);
    LexAsymmetric(PadZeros(width, Digits(Pow10(width))) + s, PadZeros(width, Digits(Pow10(width) - 1)) + s);
  }

  lemma {:induction false} StampSplits(h: HlcState)
    requires NonNegative(h)
    ensures Encode(h) == PadZeros(PHYS_WIDTH, Digits(h.physical))
                         + ([COLON] + PadZeros(CTR_WIDTH, Digits(h.counter)) + [COLON] + h.nodeId)
  {
  }

  lemma {:induction false} PhysicalOverflow(a: HlcState, b: HlcState)
    requires a.counter >= 0 && a.physical == Pow10(PHYS_WIDTH) - 1 && b == a.(physical := Pow10(PHYS_WIDTH))
    ensures !LexLess(Encode(a), Encode(b))
  {
    StampSplits(a);
    StampSplits(b);
    OverflowUnsorted(PHYS_WIDTH, [COLON] + PadZeros(CTR_WIDTH, Digits(a.counter)) + [COLON] + a.nodeId);
  }

  lemma {:induction false} PhysicalTooWide(physical: nat, counter: nat)
    requires physical > Pow10(PHYS_WIDTH) && counter > 0
    ensures !TextOrderHoldsBelow(physical, counter)
  {
    var a, b := HlcState(Pow10(PHYS_WIDTH) - 1, 0, []), HlcState(Pow10(PHYS_WIDTH), 0, []);
    PhysicalOverflow(a, b);
    assert Precedes(a, b) && !LexLess(Encode(a), Encode(b));
  }

  lemma {:induction false} CounterTooWide(physical: nat, counter: nat)
    requires physical > 0 && counter > Pow10(CTR_WIDTH)
    ensures !TextOrderHoldsBelow(physical, counter)
  {
    var a, b := HlcState(0, Pow10(CTR_WIDTH) - 1, []), HlcState(0, Pow10(CTR_WIDTH), []);
    var p := PadZeros(PHYS_WIDTH, Digits(0)) + [COLON];
    var s := [COLON] + [];
    var x, y := PadZeros(CTR_WIDTH, Digits(a.counter)) + s, PadZeros(CTR_WIDTH, Digits(b.counter)) + s;
    OverflowSortsFirst(CTR_WIDTH, s, s);
    assert Encode(a) == p + x && Encode(b) == p + y;
    LexCommonPrefix(p, x, y);
    LexAsymmetric(y, x);
    assert Precedes(a, b) && !LexLess(Encode(a), Encode(b));
  }

  lemma {:induction false} FieldBounds()
    ensures Pow10(PHYS_WIDTH) == 1_000_000_000_000_000 && Pow10(CTR_WIDTH) == 100_000
  {
    assert Pow10(5) == 10 * Pow10(4) && Pow10(4) == 10 * Pow10(3) && Pow10(3) == 10 * Pow10(2);
    assert Pow10(2) == 10 * Pow10(1) && Pow10(1) == 10 * Pow10(0);
    assert Pow10(10) == 10 * Pow10(9) && Pow10(9) == 10 * Pow10(8) && Pow10(8) == 10 * Pow10(7);
    assert Pow10(7) == 10 * Pow10(6) && Pow10(6) == 10 * Pow10(5);
    assert Pow10(15) == 10 * Pow10(14) && Pow10(14) == 10 * Pow10(13) && Pow10(13) == 10 * Pow10(12);
    assert Pow10(12) == 10 * Pow10(11) && Pow10(11) == 10 * Pow10(10);
  }

  /** The field widths are exact: text order is clock order below the bounds if and
      only if the bounds are at most 10^15 and 10^5. */
  lemma {:induction false} WidthsAreExact(physical: nat, counter: nat)
    requires physical > 0 && counter > 0
    ensures TextOrderHoldsBelow(physical, counter)
       <==> physical <= 1_000_000_000_000_000 && counter <= 100_000
  {
    FieldBounds();
    if physical > Pow10(PHYS_WIDTH) {
      PhysicalTooWide(physical, counter);
    } else if counter > Pow10(CTR_WIDTH) {
      CounterTooWide(physical, counter);
    } else {
      forall a: HlcState, b: HlcState
        | 0 <= a.physical < physical && 0 <= b.physical < physical && 0 <= a.counter < counter && 0 <= b.counter < counter
        ensures LexLess(Encode(a), Encode(b)) <==> Precedes(a, b)
      {
        StampsSortAsText(a, b);
      }
    }
  }

  // -------------------------------------------------------------- progress

  /** Strictly later in (physical, counter) order. */
  predicate Later(a: HlcState, b: HlcState) {
    a.physical < b.physical || (a.physical == b.physical && a.counter < b.counter)
  }

  /** An authored stamp is later than the clock it continues, for any wall clock, and both
      are read so wherever both can be read. */
  lemma {:induction false} SendMovesOn(state: HlcState, now: int)
    ensures Later(state, HlcSend(state, now)) && HlcSend(state, now).nodeId == state.nodeId
    ensures HlcSend(state, now).physical >= now
    ensures NonNegative(state) ==> NonNegative(HlcSend(state, now))
    ensures StampBefore(Encode(state), Encode(HlcSend(state, now)))
       <==> ReadableState(state) && ReadableState(HlcSend(state, now))
  {
    DecodeEncode(state);
    DecodeEncode(HlcSend(state, now));
    if ReadableState(state) && ReadableState(HlcSend(state, now)) {
      CompareDecides(Encode(state), Encode(HlcSend(state, now)));
    }
  }

  /** The clock moves on no further than it must: of all clocks that do not count below zero,
      are later than it was and are not before the wall clock, it is the earliest. */
  lemma {:induction false} SendIsEarliest(state: HlcState, now: int, other: HlcState)
    requires other.counter >= 0 && Later(state, other) && other.physical >= now
    ensures !Later(other, HlcSend(state, now))
  {
  }

  /** So does a merge, from both the clock and the stamp. */
  lemma {:induction false} ReceiveIsEarliest(state: HlcState, stamp: Text, now: int, other: HlcState)
    requires Decode(stamp).Some? && other.counter >= 0 && other.physical >= now
    requires Later(state, other) && Later(Decode(stamp).value, other)
    ensures !Later(other, HlcReceive(state, stamp, now).value)
  {
  }

  /** Receiving, of any stamp that decodes, lands strictly above both the local clock and
      the remote stamp, and a stamp that does not decode is all that can stop it. The next
      event authored here sorts after the event received exactly when its stamp can be read. */
  lemma {:induction false} ReceiveIsAboveBoth(state: HlcState, stamp: Text, now: int, later: int)
    ensures HlcReceive(state, stamp, now).Some? <==> Decode(stamp).Some?
    ensures var r := HlcReceive(state, stamp, now);
            r.Some? ==>
              && r.value.nodeId == state.nodeId && r.value.physical >= now
              && Later(state, r.value) && Later(Decode(stamp).value, r.value)
              && (StampBefore(stamp, Encode(HlcSend(r.value, later))) <==> ReadableState(HlcSend(r.value, later)))
  {
    if Decode(stamp).Some? {
      var r := HlcReceive(state, stamp, now).value;
      DecodeEncode(HlcSend(r, later));
      if ReadableState(HlcSend(r, later)) {
        CompareDecides(stamp, Encode(HlcSend(r, later)));
      }
    }
  }

  /** So it can be unless the stamp received counts below zero. */
  lemma {:induction false} ReceiveStaysReadable(state: HlcState, stamp: Text, now: int, later: int)
    requires NonNegative(state) && Decode(stamp).Some? && Decode(stamp).value.counter >= 0
    ensures NonNegative(HlcReceive(state, stamp, now).value)
    ensures StampBefore(stamp, Encode(HlcSend(HlcReceive(state, stamp, now).value, later)))
  {
    ReceiveIsAboveBoth(state, stamp, now, later);
    SendMovesOn(HlcReceive(state, stamp, now).value, later);
  }

  /** A stamp that counts from -1000: it decodes and is merged, and what is authored next
      has a stamp that no one can decode, this device included. */
  lemma {:induction false} NegativeCounterIsUnreadable(nodeId: Text, remote: Text)
    ensures var stamp := Encode(HlcState(1, -1000, remote));
            && Decode(stamp) == Some(HlcState(1, -1000, remote))
            && var r := HlcReceive(HlcInit(nodeId), stamp, 0);
               r.Some? && Decode(Encode(HlcSend(r.value, 0))) == None
  {
    var stamp := HlcState(1, -1000, remote);
    DigitsLength(1000, 3);
    DecodeEncode(stamp);
    DigitsLength(998, 3);
    var r := HlcReceive(HlcInit(nodeId), Encode(stamp), 0);
    assert HlcSend(r.value, 0) == HlcState(1, -998, nodeId);
    DecodeEncode(HlcSend(r.value, 0));
  }
}
