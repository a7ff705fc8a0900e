/** Reading a facility registry out of a spreadsheet: the plan says, row by row, what
    will be registered or why it will not. */
module Import {
  import opened Wrappers
  import opened Texts

  datatype Column =
    | Name | LicenceNumber | FacilityKind | Lga | Address | Town
    | OwnerName | OwnerPhone | Latitude | Longitude | Gps

  datatype FacilityType = AgroDealer | BlendingPlant | Manufacturing | Importer

  /** What the plan asks of the platform: the column a heading means, upper-casing, the
      type words, and the finite number a text denotes. */
  datatype Rules = Rules(
    columnOf: Text -> Option<Column>,
    upper: Text -> Text,
    typeOf: Text -> Option<FacilityType>,
    number: Text -> Option<real>)

  /** A heading and the text of its cell; a null cell has none. */
  type RawRow = seq<(Text, Option<Text>)>

  type NormalizedRow = map<Column, Text>

  function Cell(r: NormalizedRow, c: Column): Text {
    if c in r then r[c] else []
  }

  // ------------------------------------------------------------ normalize

  predicate Fills(rules: Rules, entry: (Text, Option<Text>), c: Column) {
    rules.columnOf(entry.0) == Some(c) && entry.1.Some? && Trim(entry.1.value) != []
  }

  /** The first cell under a heading for the column that is not blank, trimmed. */
  function FirstCell(rules: Rules, raw: RawRow, c: Column): Text {
    if raw == [] then []
    else if Fills(rules, raw[0], c) then Trim(raw[0].1.value)
    else FirstCell(rules, raw[1..], c)
  }

  /** None where every cell for the column is blank; else the first that is not, trimmed. */
  lemma {:induction false} FirstCellMeans(rules: Rules, raw: RawRow, c: Column)
    ensures FirstCell(rules, raw, c) == [] <==> forall i | 0 <= i < |raw| :: !Fills(rules, raw[i], c)
    ensures FirstCell(rules, raw, c) != [] ==>
              exists i :: 0 <= i < |raw| && IsFirstFilled(rules, raw, c, i) && FirstCell(rules, raw, c) == Trim(raw[i].1.value)
  {
    if raw != [] {
      FirstCellMeans(rules, raw[1..], c);
      assert raw == [raw[0]] + raw[1..];
      if Fills(rules, raw[0], c) {
        assert IsFirstFilled(rules, raw, c, 0);
      } else if FirstCell(rules, raw[1..], c) != [] {
        var i :| 0 <= i < |raw[1..]| && IsFirstFilled(rules, raw[1..], c, i)
                 && FirstCell(rules, raw[1..], c) == Trim(raw[1..][i].1.value);
        assert IsFirstFilled(rules, raw, c, i + 1);
      }
    }
  }

  ghost predicate IsFirstFilled(rules: Rules, raw: RawRow, c: Column, i: nat) {
    && i < |raw| && Fills(rules, raw[i], c)
    && forall j | 0 <= j < i :: !Fills(rules, raw[j], c)
  }

  ghost predicate Normalizes(rules: Rules, raw: RawRow, r: NormalizedRow) {
    forall c: Column :: Cell(r, c) == FirstCell(rules, raw, c)
  }

  lemma {:induction false} FirstCellNext(rules: Rules, raw: RawRow, entry: (Text, Option<Text>), c: Column)
    ensures FirstCell(rules, raw + [entry], c)
         == if FirstCell(rules, raw, c) != [] then FirstCell(rules, raw, c)
            else if Fills(rules, entry, c) then Trim(entry.1.value) else []
  {
    if raw == [] {
      assert raw + [entry] == [entry];
      assert FirstCell(rules, [entry][1..], c) == [];
    } else {
      assert (raw + [entry])[1..] == raw[1..] + [entry];
      FirstCellNext(rules, raw[1..], entry, c);
    }
  }

  method Normalize(rules: Rules, raw: RawRow) returns (out: NormalizedRow)
    ensures Normalizes(rules, raw, out)
  {
    out := map[];
    for i := 0 to |raw|
      invariant Normalizes(rules, raw[..i], out)
    {
      var (heading, value) := raw[i];
      ghost var before := out;
      var key := rules.columnOf(heading);
      if key.Some? && value.Some? {
        var text := Trim(value.value);
        if text != [] && Cell(out, key.value) == [] {
          out := out[key.value := text];
        }
      }
      forall c: Column ensures Cell(out, c) == FirstCell(rules, raw[..i + 1], c) {
        FirstCellNext(rules, raw[..i], raw[i], c);
        assert raw[..i + 1] == raw[..i] + [raw[i]];
        assert Cell(before, c) == FirstCell(rules, raw[..i], c);
      }
    }
    assert raw[..|raw|] == raw;
  }

  // --------------------------------------------------------------- the point

  datatype Point = Point(lat: real, lng: real)

  datatype PointError = TwoNumbers | BothNeeded | NotNumbers | Outside

  datatype PointResult = NoPoint | At(point: Point) | BadPoint(error: PointError)

  predicate Separator(c: CodeUnit) {
    c == COMMA || c == SEMICOLON || IsSpace(c)
  }

  function WordLength(t: Text): (n: nat)
    ensures n <= |t|
    ensures t != [] && !Separator(t[0]) ==> n > 0
  {
    if t == [] || Separator(t[0]) then 0 else 1 + WordLength(t[1..])
  }

  /** `split(/[,;\s]+/).filter(Boolean)`. */
  function Words(t: Text): (words: seq<Text>)
    ensures forall i | 0 <= i < |words| :: words[i] != []
  {
    if t == [] then []
    else if Separator(t[0]) then Words(t[1..])
    else [t[..WordLength(t)]] + Words(t[WordLength(t)..])
  }

  predicate InNigeria(lat: real, lng: real) {
    3.5 <= lat <= 14.5 && 2.5 <= lng <= 15.0
  }

  function PointOf(rules: Rules, latText: Text, lngText: Text): PointResult {
    if latText == [] && lngText == [] then NoPoint
    else if latText == [] || lngText == [] then BadPoint(BothNeeded)
    else
      match (rules.number(latText), rules.number(lngText))
      case (Some(lat), Some(lng)) =>
        if InNigeria(lat, lng) then At(Point(lat, lng))
        else if InNigeria(lng, lat) then At(Point(lng, lat))
        else BadPoint(Outside)
      case _ => BadPoint(NotNumbers)
  }

  function PointFrom(rules: Rules, lat: Text, lng: Text, gps: Text): PointResult {
    if lat == [] && lng == [] && gps != [] then
      var parts := Words(gps);
      if |parts| != 2 then BadPoint(TwoNumbers) else PointOf(rules, parts[0], parts[1])
    else PointOf(rules, lat, lng)
  }

  /** The two numbers a row gives: one in each cell, or both in the single GPS cell when
      the other two are blank. */
  predicate Gives(rules: Rules, lat: Text, lng: Text, gps: Text, a: real, b: real) {
    || (lat != [] && lng != [] && rules.number(lat) == Some(a) && rules.number(lng) == Some(b))
    || (lat == [] && lng == [] && |Words(gps)| == 2
        && rules.number(Words(gps)[0]) == Some(a) && rules.number(Words(gps)[1]) == Some(b))
  }

  /** A row gets a point exactly when it gives two numbers that lie in the box around Nigeria
      one way round; the point is in the box, and is turned round only when as written it is
      not. It is left without one, and without error, exactly when all three cells are blank. */
  lemma {:induction false} PointIsInTheBox(rules: Rules, lat: Text, lng: Text, gps: Text)
    ensures var r := PointFrom(rules, lat, lng, gps);
            && (r.At? <==> exists a: real, b: real ::
                  && Gives(rules, lat, lng, gps, a, b)
                  && ((3.5 <= a <= 14.5 && 2.5 <= b <= 15.0) || (3.5 <= b <= 14.5 && 2.5 <= a <= 15.0)))
            && (forall a: real, b: real | Gives(rules, lat, lng, gps, a, b) ::
                  && (r.At? ==> 3.5 <= r.point.lat <= 14.5 && 2.5 <= r.point.lng <= 15.0)
                  && (r.At? ==> r.point == (if 3.5 <= a <= 14.5 && 2.5 <= b <= 15.0 then Point(a, b) else Point(b, a)))
                  && (!r.At? ==> r == BadPoint(Outside)))
            && (r.NoPoint? <==> lat == [] && lng == [] && gps == [])
  {
    var r := PointFrom(rules, lat, lng, gps);
    if r.At? {
      var x, y := if lat == [] then Words(gps)[0] else lat, if lat == [] then Words(gps)[1] else lng;
      assert Gives(rules, lat, lng, gps, rules.number(x).value, rules.number(y).value);
    }
  }

  lemma {:induction false} WordLengthStops(word: Text, rest: Text)
    requires forall i | 0 <= i < |word| :: !Separator(word[i])
    requires rest == [] || Separator(rest[0])
    ensures WordLength(word + rest) == |word|
  {
    if word == [] {
      assert word + rest == rest;
    } else {
      assert (word + rest)[1..] == word[1..] + rest;
      WordLengthStops(word[1..], rest);
    }
  }

  lemma {:induction false} WordsAfter(between: Text, rest: Text)
    requires forall i | 0 <= i < |between| :: Separator(between[i])
    ensures Words(between + rest) == Words(rest)
  {
    if between == [] {
      assert between + rest == rest;
    } else {
      assert (between + rest)[1..] == between[1..] + rest;
      WordsAfter(between[1..], rest);
    }
  }

  lemma {:induction false} FirstWord(word: Text, rest: Text)
    requires word != [] && forall i | 0 <= i < |word| :: !Separator(word[i])
    requires rest == [] || Separator(rest[0])
    ensures Words(word + rest) == [word] + Words(rest)
  {
    WordLengthStops(word, rest);
    assert (word + rest)[..|word|] == word && (word + rest)[|word|..] == rest;
  }

  /** One GPS cell with two words in it, however they are separated, reads as the two
      words in a cell each. */
  lemma {:induction false} OneCellReadsAsTwo(rules: Rules, a: Text, between: Text, b: Text, other: Text)
    requires a != [] && b != [] && between != []
    requires forall i | 0 <= i < |a| :: a[i] != COMMA && a[i] != SEMICOLON && !IsSpace(a[i])
    requires forall i | 0 <= i < |b| :: b[i] != COMMA && b[i] != SEMICOLON && !IsSpace(b[i])
    requires forall i | 0 <= i < |between| :: between[i] == COMMA || between[i] == SEMICOLON || IsSpace(between[i])
    ensures PointFrom(rules, [], [], a + (between + b)) == PointFrom(rules, a, b, other)
  {
    FirstWord(a, between + b);
    WordsAfter(between, b);
    FirstWord(b, []);
    assert b + [] == b;
  }

  // ---------------------------------------------------------------- the plan

  datatype RowError =
    | NameMissing | NameTooLong
    | LicenceMissing | LicenceTooLong | AlreadyRegistered | SameLicenceAs(row: nat)
    | TypeMissing | TypeUnknown(text: Text)
    | BadGps(error: PointError)

  datatype Facility = Facility(
    name: Text, licenceNumber: Text, kind: FacilityType, lga: Option<Text>,
    address: (Option<Text>, Option<Text>), owner: (Option<Text>, Option<Text>), point: Option<Point>)

  datatype RowResult = RowResult(
    row: nat, name: Text, licenceNumber: Text, errors: seq<RowError>, facility: Option<Facility>)

  function Licence(rules: Rules, raw: RawRow): Text {
    rules.upper(FirstCell(rules, raw, LicenceNumber))
  }

  function NonEmpty(t: Text): Option<Text> {
    if t == [] then None else Some(t)
  }

  function NameErrors(name: Text): seq<RowError> {
    if name == [] then [NameMissing] else if |name| > 200 then [NameTooLong] else []
  }

  /** `seen` gives the row that first held a licence, if an earlier one did. */
  function LicenceErrors(licence: Text, registered: set<Text>, seen: Option<nat>): seq<RowError> {
    if licence == [] then [LicenceMissing]
    else if |licence| > 64 then [LicenceTooLong]
    else if licence in registered then [AlreadyRegistered]
    else if seen.Some? then [SameLicenceAs(seen.value)] else []
  }

  function TypeErrors(rules: Rules, text: Text): seq<RowError> {
    if text == [] then [TypeMissing] else if rules.typeOf(text).None? then [TypeUnknown(text)] else []
  }

  function PointErrors(r: PointResult): seq<RowError> {
    if r.BadPoint? then [BadGps(r.error)] else []
  }

  /** The first of the rows that holds a licence. */
  function FirstWith(rules: Rules, raws: seq<RawRow>, licence: Text): (r: Option<nat>)
    ensures r.None? ==> forall j | 0 <= j < |raws| :: Licence(rules, raws[j]) != licence
    ensures r.Some? ==> r.value < |raws| && Licence(rules, raws[r.value]) == licence
    ensures r.Some? ==> forall j | 0 <= j < r.value :: Licence(rules, raws[j]) != licence
  {
    if raws == [] then None
    else
      match FirstWith(rules, raws[..|raws| - 1], licence)
      case Some(j) => Some(j)
      case None => if Licence(rules, raws[|raws| - 1]) == licence then Some(|raws| - 1) else None
  }

  function EarlierRow(rules: Rules, raws: seq<RawRow>, i: nat): Option<nat>
    requires i < |raws|
  {
    match FirstWith(rules, raws[..i], Licence(rules, raws[i]))
    case Some(j) => Some(j + 2)
    case None => None
  }

  /** The result for one row: its errors, or the facility when there are none. */
  function RowFrom(rules: Rules, r: NormalizedRow, registered: set<Text>, first: Option<nat>, row: nat): RowResult {
    var name, licence, kind := Cell(r, Name), rules.upper(Cell(r, LicenceNumber)), Cell(r, FacilityKind);
    var point := PointFrom(rules, Cell(r, Latitude), Cell(r, Longitude), Cell(r, Gps));
    var errors := NameErrors(name) + LicenceErrors(licence, registered, first)
                  + TypeErrors(rules, kind) + PointErrors(point);
    RowResult(
      row, name, licence, errors,
      if errors != [] then None
      else Some(Facility(
        name, licence, rules.typeOf(kind).value, NonEmpty(Cell(r, Lga)),
        (NonEmpty(Cell(r, Address)), NonEmpty(Cell(r, Town))),
        (NonEmpty(Cell(r, OwnerName)), NonEmpty(Cell(r, OwnerPhone))),
        if point.At? then Some(point.point) else None)))
  }

  function FirstCells(rules: Rules, raw: RawRow): NormalizedRow {
    map c: Column | true :: FirstCell(rules, raw, c)
  }

  /** What the plan says of row `i`; rows are numbered as in the sheet, under a heading row. */
  function PlannedRow(rules: Rules, raws: seq<RawRow>, registered: set<Text>, i: nat): RowResult
    requires i < |raws|
  {
    RowFrom(rules, FirstCells(rules, raws[i]), registered, EarlierRow(rules, raws, i), i + 2)
  }

  lemma {:induction false} SameCells(
      rules: Rules, raw: RawRow, r: NormalizedRow, registered: set<Text>, first: Option<nat>, row: nat)
    requires Normalizes(rules, raw, r)
    ensures RowFrom(rules, r, registered, first, row) == RowFrom(rules, FirstCells(rules, raw), registered, first, row)
    ensures rules.upper(Cell(r, LicenceNumber)) == Licence(rules, raw)
  {
    forall c: Column ensures Cell(r, c) == Cell(FirstCells(rules, raw), c) {
    }
  }

  function Accepted(rows: seq<RowResult>): nat {
    if rows == [] then 0
    else Accepted(rows[..|rows| - 1]) + (if rows[|rows| - 1].facility.Some? then 1 else 0)
  }

  /** The map holds the first row of every licence seen so far, and nothing else. */
  ghost predicate Seen(rules: Rules, raws: seq<RawRow>, seen: map<Text, nat>) {
    forall licence: Text ::
      && (licence in seen <==> licence != [] && FirstWith(rules, raws, licence).Some?)
      && (licence in seen ==> seen[licence] == FirstWith(rules, raws, licence).value + 2)
  }

  lemma {:induction false} SeenNext(rules: Rules, raws: seq<RawRow>, seen: map<Text, nat>, raw: RawRow)
    requires Seen(rules, raws, seen)
    ensures var licence := Licence(rules, raw);
            Seen(rules, raws + [raw],
                 if licence != [] && licence !in seen then seen[licence := |raws| + 2] else seen)
  {
    assert (raws + [raw])[..|raws|] == raws;
  }

  function Remember(seen: map<Text, nat>, licence: Text, row: nat): map<Text, nat> {
    if licence != [] && licence !in seen then seen[licence := row] else seen
  }

  function Recall(seen: map<Text, nat>, licence: Text): Option<nat> {
    if licence in seen then Some(seen[licence]) else None
  }

  lemma {:induction false} RecallIsEarlier(rules: Rules, raws: seq<RawRow>, i: nat, seen: map<Text, nat>)
    requires i < |raws| && Seen(rules, raws[..i], seen) && Licence(rules, raws[i]) != []
    ensures Recall(seen, Licence(rules, raws[i])) == EarlierRow(rules, raws, i)
  {
  }

  /** The map answers for a row as the rows above it do ... */
  lemma {:induction false} RowFromMap(
      rules: Rules, raws: seq<RawRow>, registered: set<Text>, i: nat, r: NormalizedRow, seen: map<Text, nat>)
    requires i < |raws| && Normalizes(rules, raws[i], r) && Seen(rules, raws[..i], seen)
    ensures RowFrom(rules, r, registered, Recall(seen, Licence(rules, raws[i])), i + 2)
         == PlannedRow(rules, raws, registered, i)
  {
    var first := Recall(seen, Licence(rules, raws[i]));
    SameCells(rules, raws[i], r, registered, first, i + 2);
    if Licence(rules, raws[i]) != [] {
      RecallIsEarlier(rules, raws, i, seen);
    } else {
      NoLicenceNoMatter(rules, FirstCells(rules, raws[i]), registered, first, EarlierRow(rules, raws, i), i + 2);
    }
  }

  /** ... and then holds the row too. */
  lemma {:induction false} MapAfterRow(rules: Rules, raws: seq<RawRow>, i: nat, seen: map<Text, nat>)
    requires i < |raws| && Seen(rules, raws[..i], seen)
    ensures Seen(rules, raws[..i + 1], Remember(seen, Licence(rules, raws[i]), i + 2))
  {
    SeenNext(rules, raws[..i], seen, raws[i]);
    assert raws[..i + 1] == raws[..i] + [raws[i]];
  }

  lemma {:induction false} OneRow(
      rules: Rules, raws: seq<RawRow>, registered: set<Text>, i: nat, r: NormalizedRow, seen: map<Text, nat>)
    requires i < |raws| && Normalizes(rules, raws[i], r) && Seen(rules, raws[..i], seen)
    ensures var licence := rules.upper(Cell(r, LicenceNumber));
            && RowFrom(rules, r, registered, Recall(seen, licence), i + 2) == PlannedRow(rules, raws, registered, i)
            && Seen(rules, raws[..i + 1], Remember(seen, licence, i + 2))
  {
    assert rules.upper(Cell(r, LicenceNumber)) == Licence(rules, raws[i]);
    RowFromMap(rules, raws, registered, i, r, seen);
    MapAfterRow(rules, raws, i, seen);
  }

  lemma {:induction false} NoLicenceNoMatter(
      rules: Rules, r: NormalizedRow, registered: set<Text>, first: Option<nat>, other: Option<nat>, row: nat)
    requires rules.upper(Cell(r, LicenceNumber)) == []
    ensures RowFrom(rules, r, registered, first, row) == RowFrom(rules, r, registered, other, row)
  {
  }

  ghost predicate Planned(rules: Rules, raws: seq<RawRow>, registered: set<Text>, rows: seq<RowResult>) {
    |rows| <= |raws| && forall i | 0 <= i < |rows| :: rows[i] == PlannedRow(rules, raws, registered, i)
  }

  lemma {:induction false} PlannedNext(
      rules: Rules, raws: seq<RawRow>, registered: set<Text>, rows: seq<RowResult>, row: RowResult)
    requires Planned(rules, raws, registered, rows) && |rows| < |raws|
    requires row == PlannedRow(rules, raws, registered, |rows|)
    ensures Planned(rules, raws, registered, rows + [row])
  {
    forall i | 0 <= i <= |rows| ensures (rows + [row])[i] == PlannedRow(rules, raws, registered, i) {
      if i < |rows| {
        assert rows[i] == PlannedRow(rules, raws, registered, i);
      }
    }
  }

  lemma {:induction false} AcceptedNext(rows: seq<RowResult>, row: RowResult)
    ensures Accepted(rows + [row]) == Accepted(rows) + (if row.facility.Some? then 1 else 0)
  {
    assert (rows + [row])[..|rows|] == rows;
  }

  /** As many as there are rows with a facility. */
  lemma {:induction false} AcceptedCounts(rows: seq<RowResult>)
    ensures Accepted(rows) == |set i | 0 <= i < |rows| && rows[i].facility.Some?|
  {
    var all := set i | 0 <= i < |rows| && rows[i].facility.Some?;
    if rows != [] {
      var n := |rows| - 1;
      var before := set i | 0 <= i < n && rows[..n][i].facility.Some?;
      AcceptedCounts(rows[..n]);
      assert all == before + (if rows[n].facility.Some? then {n} else {});
    }
  }

  method PlanImport(rules: Rules, raws: seq<RawRow>, registered: set<Text>)
    returns (rows: seq<RowResult>, valid: nat, invalid: nat)
    ensures |rows| == |raws| && Planned(rules, raws, registered, rows)
    ensures valid == Accepted(rows) && valid + invalid == |raws|
  {
    var seen: map<Text, nat> := map[];
    rows, valid := [], 0;
    for i := 0 to |raws|
      invariant |rows| == i && valid == Accepted(rows) && valid <= i
      invariant Planned(rules, raws, registered, rows)
      invariant Seen(rules, raws[..i], seen)
    {
      var r := Normalize(rules, raws[i]);
      OneRow(rules, raws, registered, i, r, seen);
      var licence := rules.upper(Cell(r, LicenceNumber));
      var row := RowFrom(rules, r, registered, Recall(seen, licence), i + 2);
      seen := Remember(seen, licence, i + 2);
      if row.facility.Some? {
        valid := valid + 1;
      }
      PlannedNext(rules, raws, registered, rows, row);
      AcceptedNext(rows, row);
      rows := rows + [row];
    }
    invalid := |rows| - valid;
  }

  // ------------------------------------------------------ what a plan promises

  predicate GoodLicence(licence: Text, registered: set<Text>) {
    0 < |licence| <= 64 && licence !in registered
  }

  /** A row is accepted exactly when its name, licence, type and point are good and no
      row above it holds the same licence, accepted or not. */
  lemma {:induction false} AcceptedExactlyWhen(rules: Rules, raws: seq<RawRow>, registered: set<Text>, i: nat)
    requires i < |raws|
    ensures var raw := raws[i];
            PlannedRow(rules, raws, registered, i).facility.Some?
            <==> && 0 < |FirstCell(rules, raw, Name)| <= 200
                 && GoodLicence(Licence(rules, raw), registered)
                 && (forall j | 0 <= j < i :: Licence(rules, raws[j]) != Licence(rules, raw))
                 && FirstCell(rules, raw, FacilityKind) != [] && rules.typeOf(FirstCell(rules, raw, FacilityKind)).Some?
                 && !PointFrom(rules, FirstCell(rules, raw, Latitude), FirstCell(rules, raw, Longitude),
                               FirstCell(rules, raw, Gps)).BadPoint?
  {
    RowCells(rules, raws[i]);
    assert forall j | 0 <= j < i :: raws[..i][j] == raws[j];
  }

  lemma {:induction false} RowCells(rules: Rules, raw: RawRow)
    ensures forall c: Column :: Cell(FirstCells(rules, raw), c) == FirstCell(rules, raw, c)
  {
  }

  /** A text of the facility is the cell of its column, where that is not blank. */
  predicate FromCell(rules: Rules, raw: RawRow, c: Column, t: Option<Text>) {
    match t
    case None => FirstCell(rules, raw, c) == []
    case Some(text) => text == FirstCell(rules, raw, c) && text != []
  }

  /** What is accepted is what the row says, column by column, and the point it gives. */
  lemma {:induction false} AcceptedHolds(rules: Rules, raws: seq<RawRow>, registered: set<Text>, i: nat)
    requires i < |raws| && PlannedRow(rules, raws, registered, i).facility.Some?
    ensures var raw, f := raws[i], PlannedRow(rules, raws, registered, i).facility.value;
            && f.licenceNumber == Licence(rules, raw)
            && FromCell(rules, raw, Name, Some(f.name)) && rules.typeOf(FirstCell(rules, raw, FacilityKind)) == Some(f.kind)
            && FromCell(rules, raw, Lga, f.lga)
            && FromCell(rules, raw, Address, f.address.0) && FromCell(rules, raw, Town, f.address.1)
            && FromCell(rules, raw, OwnerName, f.owner.0) && FromCell(rules, raw, OwnerPhone, f.owner.1)
            && match PointFrom(rules, FirstCell(rules, raw, Latitude), FirstCell(rules, raw, Longitude),
                               FirstCell(rules, raw, Gps))
               case NoPoint => f.point.None?
               case At(point) => f.point == Some(point)
               case BadPoint(_) => false
  {
    RowCells(rules, raws[i]);
  }

  lemma {:induction false} EachError(
      rules: Rules, name: Text, licence: Text, kind: Text, point: PointResult, registered: set<Text>, first: Option<nat>,
      errors: seq<RowError>, error: PointError, text: Text)
    requires errors == NameErrors(name) + LicenceErrors(licence, registered, first) + TypeErrors(rules, kind)
                       + PointErrors(point)
    ensures NameMissing in errors <==> name == []
    ensures NameTooLong in errors <==> |name| > 200
    ensures LicenceMissing in errors <==> licence == []
    ensures LicenceTooLong in errors <==> |licence| > 64
    ensures AlreadyRegistered in errors <==> 0 < |licence| <= 64 && licence in registered
    ensures TypeMissing in errors <==> kind == []
    ensures TypeUnknown(text) in errors <==> kind != [] && text == kind && rules.typeOf(kind).None?
    ensures BadGps(error) in errors <==> point == BadPoint(error)
  {
    var a, b, c, d := NameErrors(name), LicenceErrors(licence, registered, first), TypeErrors(rules, kind), PointErrors(point);
    InSum(NameMissing, a, b, c, d);
    InSum(NameTooLong, a, b, c, d);
    InSum(LicenceMissing, a, b, c, d);
    InSum(LicenceTooLong, a, b, c, d);
    InSum(AlreadyRegistered, a, b, c, d);
    InSum(TypeMissing, a, b, c, d);
    InSum(TypeUnknown(text), a, b, c, d);
    InSum(BadGps(error), a, b, c, d);
  }

  lemma {:induction false} InSum(e: RowError, a: seq<RowError>, b: seq<RowError>, c: seq<RowError>, d: seq<RowError>)
    ensures e in a + b + c + d <==> e in a || e in b || e in c || e in d
  {
  }

  /** Every row is named and numbered as in the sheet, and each error stands in it exactly
      when the row has the fault. */
  lemma {:induction false} ErrorsExactlyWhen(
      rules: Rules, raws: seq<RawRow>, registered: set<Text>, i: nat, error: PointError, text: Text)
    requires i < |raws|
    ensures var raw, r := raws[i], PlannedRow(rules, raws, registered, i);
            var name, licence, kind := FirstCell(rules, raw, Name), Licence(rules, raw), FirstCell(rules, raw, FacilityKind);
            var point := PointFrom(rules, FirstCell(rules, raw, Latitude), FirstCell(rules, raw, Longitude),
                                   FirstCell(rules, raw, Gps));
            && r.row == i + 2 && r.name == name && r.licenceNumber == licence
            && (NameMissing in r.errors <==> name == [])
            && (NameTooLong in r.errors <==> |name| > 200)
            && (LicenceMissing in r.errors <==> licence == [])
            && (LicenceTooLong in r.errors <==> |licence| > 64)
            && (AlreadyRegistered in r.errors <==> 0 < |licence| <= 64 && licence in registered)
            && (TypeMissing in r.errors <==> kind == [])
            && (TypeUnknown(text) in r.errors <==> kind != [] && text == kind && rules.typeOf(kind).None?)
            && (BadGps(error) in r.errors <==> point == BadPoint(error))
  {
    var raw := raws[i];
    RowCells(rules, raw);
    EachError(rules, FirstCell(rules, raw, Name), Licence(rules, raw), FirstCell(rules, raw, FacilityKind),
              PointFrom(rules, FirstCell(rules, raw, Latitude), FirstCell(rules, raw, Longitude), FirstCell(rules, raw, Gps)),
              registered, EarlierRow(rules, raws, i), PlannedRow(rules, raws, registered, i).errors, error, text);
  }

  /** The licences a plan registers are new, and each is registered once. */
  lemma {:induction false} AcceptedAreDistinct(rules: Rules, raws: seq<RawRow>, registered: set<Text>, i: nat, j: nat)
    requires i < j < |raws|
    requires PlannedRow(rules, raws, registered, i).facility.Some? && PlannedRow(rules, raws, registered, j).facility.Some?
    ensures var a, b := PlannedRow(rules, raws, registered, i).facility.value,
                        PlannedRow(rules, raws, registered, j).facility.value;
            a.licenceNumber != b.licenceNumber && a.licenceNumber !in registered && b.licenceNumber !in registered
  {
    AcceptedExactlyWhen(rules, raws, registered, i);
    AcceptedExactlyWhen(rules, raws, registered, j);
    AcceptedHolds(rules, raws, registered, i);
    AcceptedHolds(rules, raws, registered, j);
  }

  /** A duplicate is reported exactly when the licence is otherwise good and stands in a
      row above, and names the first such row. */
  lemma {:induction false} DuplicateNamesFirst(rules: Rules, raws: seq<RawRow>, registered: set<Text>, i: nat, row: nat)
    requires i < |raws|
    ensures SameLicenceAs(row) in PlannedRow(rules, raws, registered, i).errors
       <==> && GoodLicence(Licence(rules, raws[i]), registered)
            && 2 <= row < i + 2 && Licence(rules, raws[row - 2]) == Licence(rules, raws[i])
            && forall j | 0 <= j < row - 2 :: Licence(rules, raws[j]) != Licence(rules, raws[i])
  {
    RowCells(rules, raws[i]);
    assert forall j | 0 <= j < i :: raws[..i][j] == raws[j];
    var errors := PlannedRow(rules, raws, registered, i).errors;
    var licence := Licence(rules, raws[i]);
    var own := LicenceErrors(licence, registered, EarlierRow(rules, raws, i));
    assert SameLicenceAs(row) in errors <==> SameLicenceAs(row) in own;
  }

  /** The licences a plan accepts. */
  function AcceptedLicences(rules: Rules, raws: seq<RawRow>, registered: set<Text>): set<Text> {
    set i | 0 <= i < |raws| && PlannedRow(rules, raws, registered, i).facility.Some? :: Licence(rules, raws[i])
  }

  /** Planning the same sheet again, once its licences are registered, accepts nothing. */
  lemma {:induction false} PlanningAgainAcceptsNothing(rules: Rules, raws: seq<RawRow>, registered: set<Text>, i: nat)
    requires i < |raws|
    ensures PlannedRow(rules, raws, registered + AcceptedLicences(rules, raws, registered), i).facility.None?
  {
    var again := registered + AcceptedLicences(rules, raws, registered);
    AcceptedExactlyWhen(rules, raws, registered, i);
    AcceptedExactlyWhen(rules, raws, again, i);
    if PlannedRow(rules, raws, registered, i).facility.Some? {
      assert Licence(rules, raws[i]) in AcceptedLicences(rules, raws, registered);
    }
  }

  /** A row that is refused still holds its licence: no row below it with the same
      licence is accepted either. */
  lemma {:induction false} RefusedRowHoldsItsLicence(
      rules: Rules, raws: seq<RawRow>, registered: set<Text>, i: nat, j: nat)
    requires i < j < |raws| && Licence(rules, raws[i]) == Licence(rules, raws[j])
    ensures PlannedRow(rules, raws, registered, j).facility.None?
  {
    AcceptedExactlyWhen(rules, raws, registered, j);
  }
}
