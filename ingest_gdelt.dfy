/** The record rules of the GDELT agent: the CAMEO material-conflict filter, the
    Levant bounding box, and the conversion of each remaining row into an event with
    an ISO 8601 timestamp. Downloading and unpacking the export, pandas itself and
    Python's text-to-number parsers are outside the model; the parsers and the clock
    are parameters. */
module IngestGdelt {
  import opened Text

  /** CAMEO root code 19 ("Fight"): 190 to 195. */
  const MaterialConflictCodes: seq<string> := ["190", "191", "192", "193", "194", "195"]

  /** The bounding box, degrees; every bound is inclusive. */
  const LatMin: real := 29.0
  const LatMax: real := 37.5
  const LonMin: real := 33.0
  const LonMax: real := 42.5

  const EventCode: string := "EventCode"
  const GeoLat: string := "ActionGeo_Lat"
  const GeoLong: string := "ActionGeo_Long"

  // ---------------------------------------------------------------------------
  // Frames
  // ---------------------------------------------------------------------------

  /** A DataFrame cell: NaN (or None), an int, a float, or text. */
  datatype Cell = Missing | IntCell(i: int) | RealCell(x: real) | StrCell(s: string)

  /** One row: its cell under each column label. */
  type Row = map<string, Cell>

  /** A DataFrame as a value: column labels and rows, in order. */
  datatype Frame = Frame(columns: seq<string>, rows: seq<Row>)

  /** pandas' DataFrame.empty: no rows or no columns. */
  predicate Empty(f: Frame) {
    f.columns == [] || f.rows == []
  }

  /** `row.get(column, default)`. */
  function GetOr(r: Row, column: string, default: Cell): Cell {
    if column in r then r[column] else default
  }

  /** Python's str() of a float. Its digits are not modelled, only that the text of a
      finite float always holds a decimal point or an exponent ("190.0", "1e+16"). */
  type FloatText = f: real -> string | forall x :: '.' in f(x) || 'e' in f(x)
    witness (x: real) => "0.0"

  /** str() of a cell, as `astype(str)` writes it. */
  function CellText(c: Cell, repr: FloatText): string {
    match c
    case Missing => "nan"
    case IntCell(i) => IntToString(i)
    case RealCell(x) => repr(x)
    case StrCell(s) => s
  }

  // ---------------------------------------------------------------------------
  // CAMEO filter
  // ---------------------------------------------------------------------------

  predicate IsMaterialConflict(code: string) {
    code in MaterialConflictCodes
  }

  /** The row's code, as text, is a material-conflict code. */
  predicate ConflictRow(row: Row, repr: FloatText) {
    IsMaterialConflict(CellText(GetOr(row, EventCode, Missing), repr))
  }

  /** The EventCode column after `astype(str)`. */
  function CodesAsText(rows: seq<Row>, repr: FloatText): (r: seq<Row>)
    ensures |r| == |rows|
    ensures forall k :: 0 <= k < |rows| ==> r[k].Keys == rows[k].Keys + {EventCode}
    ensures forall k :: 0 <= k < |rows| ==>
      r[k][EventCode] == StrCell(CellText(GetOr(rows[k], EventCode, Missing), repr))
  {
    seq(|rows|, k requires 0 <= k < |rows| =>
      rows[k][EventCode := StrCell(CellText(GetOr(rows[k], EventCode, Missing), repr))])
  }

  /** The row if it passes the filter, nothing otherwise. */
  function KeepOne(row: Row, repr: FloatText): seq<Row> {
    if ConflictRow(row, repr) then [row] else []
  }

  /** The rows whose code is a material-conflict code, in their original order. */
  function KeepConflictRows(rows: seq<Row>, repr: FloatText): (r: seq<Row>)
    ensures |r| <= |rows|
    decreases |rows|
  {
    if rows == [] then []
    else
      var n := |rows| - 1;
      KeepConflictRows(rows[..n], repr) + KeepOne(rows[n], repr)
  }

  lemma KeepStep(rows: seq<Row>, repr: FloatText)
    requires rows != []
    ensures KeepConflictRows(rows, repr)
      == KeepConflictRows(rows[..|rows| - 1], repr) + KeepOne(rows[|rows| - 1], repr)
  {
  }

  /** A row survives the filter exactly when it is one of the rows and its code is a
      material-conflict code. */
  lemma {:induction false} KeepConflictRowsMembers(rows: seq<Row>, repr: FloatText, row: Row)
    ensures row in KeepConflictRows(rows, repr) <==> row in rows && ConflictRow(row, repr)
    decreases |rows|
  {
    if rows != [] {
      var n := |rows| - 1;
      KeepConflictRowsMembers(rows[..n], repr, row);
      assert rows == rows[..n] + [rows[n]];
    }
  }

  /** Filtering respects order: filtering two runs of rows one after the other is
      filtering their concatenation. */
  lemma {:induction false} KeepConflictRowsAppend(a: seq<Row>, b: seq<Row>, repr: FloatText)
    ensures KeepConflictRows(a + b, repr) == KeepConflictRows(a, repr) + KeepConflictRows(b, repr)
    decreases |b|
  {
    if b == [] {
      assert a + b == a;
    } else {
      var n := |b| - 1;
      var ab := a + b;
      assert ab[..|ab| - 1] == a + b[..n] && ab[|ab| - 1] == b[n];
      KeepConflictRowsAppend(a, b[..n], repr);
      KeepStep(ab, repr);
      KeepStep(b, repr);
      var x, y, z := KeepConflictRows(a, repr), KeepConflictRows(b[..n], repr), KeepOne(b[n], repr);
      assert x + y + z == x + (y + z);
    }
  }

  /** Filtering a second time removes nothing more. */
  lemma {:induction false} KeepConflictRowsTwice(rows: seq<Row>, repr: FloatText)
    ensures KeepConflictRows(KeepConflictRows(rows, repr), repr) == KeepConflictRows(rows, repr)
    decreases |rows|
  {
    if rows != [] {
      var n := |rows| - 1;
      var front := KeepConflictRows(rows[..n], repr);
      KeepConflictRowsTwice(rows[..n], repr);
      KeepConflictRowsAppend(front, KeepOne(rows[n], repr), repr);
      if ConflictRow(rows[n], repr) {
        assert [rows[n]][..0] == [];
      }
    }
  }

  /** Every row holds its code as text. */
  predicate CodesAreText(rows: seq<Row>) {
    forall k :: 0 <= k < |rows| ==> EventCode in rows[k] && rows[k][EventCode].StrCell?
  }

  /** Filtering keeps codes that are text as text. */
  lemma {:induction false} KeepConflictRowsText(rows: seq<Row>, repr: FloatText)
    requires CodesAreText(rows)
    ensures CodesAreText(KeepConflictRows(rows, repr))
    decreases |rows|
  {
    if rows != [] {
      var n := |rows| - 1;
      assert CodesAreText(rows[..n]);
      KeepConflictRowsText(rows[..n], repr);
    }
  }

  /** Rows whose code is already text are left alone by the conversion. */
  lemma CodesAsTextOnText(rows: seq<Row>, repr: FloatText)
    requires CodesAreText(rows)
    ensures CodesAsText(rows, repr) == rows
  {
    var r := CodesAsText(rows, repr);
    forall k | 0 <= k < |rows| ensures r[k] == rows[k] {
      assert r[k].Keys == rows[k].Keys;
    }
  }

  /** filter_by_cameo_codes as a function of the frame: an empty frame, or one
      without an EventCode column, gives a frame with no columns and no rows;
      otherwise the rows whose code as text is one of 190 to 195, with the code
      column already converted to text. */
  function CameoFilter(f: Frame, repr: FloatText): (r: Frame)
    ensures Empty(f) || EventCode !in f.columns ==> r == Frame([], [])
    ensures !Empty(f) && EventCode in f.columns ==> r.columns == f.columns && |r.rows| <= |f.rows|
  {
    if Empty(f) || EventCode !in f.columns then Frame([], [])
    else Frame(f.columns, KeepConflictRows(CodesAsText(f.rows, repr), repr))
  }

  /** A code held as a float never passes: its text is "190.0", not "190". */
  lemma FloatCodeNeverKept(f: Frame, repr: FloatText, k: int)
    requires 0 <= k < |f.rows| && EventCode in f.rows[k] && f.rows[k][EventCode].RealCell?
    ensures !ConflictRow(CodesAsText(f.rows, repr)[k], repr)
    ensures CodesAsText(f.rows, repr)[k] !in CameoFilter(f, repr).rows
  {
    var text := repr(f.rows[k][EventCode].x);
    assert '.' in text || 'e' in text;
    forall c | c in MaterialConflictCodes ensures '.' !in c && 'e' !in c {
    }
    assert !IsMaterialConflict(text);
    if !Empty(f) && EventCode in f.columns {
      KeepConflictRowsMembers(CodesAsText(f.rows, repr), repr, CodesAsText(f.rows, repr)[k]);
    }
  }

  /** The filtered rows are the converted rows whose code is 190 to 195: each holds
      its code as text, and that text is a material-conflict code. */
  lemma CameoFilterMembers(f: Frame, repr: FloatText, row: Row)
    requires !Empty(f) && EventCode in f.columns
    ensures row in CameoFilter(f, repr).rows <==> row in CodesAsText(f.rows, repr) && ConflictRow(row, repr)
    ensures row in CameoFilter(f, repr).rows ==>
      EventCode in row && row[EventCode].StrCell? && IsMaterialConflict(row[EventCode].s)
  {
    KeepConflictRowsMembers(CodesAsText(f.rows, repr), repr, row);
  }

  /** Filtering twice keeps the same rows as filtering once. The frame itself is the
      same too unless no row survived the first pass: the empty result then has its
      column labels, and the second pass returns a frame without any. */
  lemma CameoFilterIdempotent(f: Frame, repr: FloatText)
    ensures CameoFilter(CameoFilter(f, repr), repr).rows == CameoFilter(f, repr).rows
    ensures CameoFilter(f, repr).rows != [] ==> CameoFilter(CameoFilter(f, repr), repr) == CameoFilter(f, repr)
  {
    var once := CameoFilter(f, repr);
    if once.rows != [] {
      var converted := CodesAsText(f.rows, repr);
      assert CodesAreText(converted);
      KeepConflictRowsText(converted, repr);
      CodesAsTextOnText(once.rows, repr);
      KeepConflictRowsTwice(converted, repr);
    }
  }

  /** A frame that pandas code changes in place. */
  class DataFrame {
    var columns: seq<string>
    var rows: seq<Row>

    constructor(columns: seq<string>, rows: seq<Row>)
      ensures this.columns == columns && this.rows == rows
    {
      this.columns := columns;
      this.rows := rows;
    }

    function Value(): Frame
      reads this
    {
      Frame(columns, rows)
    }
  }

  /** filter_by_cameo_codes. Besides returning the filtered frame it overwrites the
      caller's EventCode column with its text form, unless it returned early. */
  method FilterByCameoCodes(df: DataFrame, repr: FloatText) returns (filtered: Frame)
    modifies df
    ensures filtered == CameoFilter(old(df.Value()), repr)
    ensures df.columns == old(df.columns)
    ensures Empty(old(df.Value())) || EventCode !in old(df.columns) ==> df.rows == old(df.rows)
    ensures !Empty(old(df.Value())) && EventCode in old(df.columns) ==>
      df.rows == CodesAsText(old(df.rows), repr)
  {
    if df.columns == [] || df.rows == [] || EventCode !in df.columns {
      return Frame([], []);
    }
    df.rows := CodesAsText(df.rows, repr);
    filtered := Frame(df.columns, KeepConflictRows(df.rows, repr));
  }

  // ---------------------------------------------------------------------------
  // Bounding box
  // ---------------------------------------------------------------------------

  /** A number cell as a float; None for text, which pandas cannot compare with a
      float (TypeError). */
  function Numeric(c: Cell): Option<real> {
    match c
    case IntCell(i) => Some(i as real)
    case RealCell(x) => Some(x)
    case _ => None
  }

  predicate HasPosition(row: Row) {
    GetOr(row, GeoLat, Missing) != Missing && GetOr(row, GeoLong, Missing) != Missing
  }

  /** The row has a numeric position inside the box, bounds included. */
  predicate InBox(row: Row) {
    var lat, lon := Numeric(GetOr(row, GeoLat, Missing)), Numeric(GetOr(row, GeoLong, Missing));
    && lat.Some? && lon.Some?
    && LatMin <= lat.value <= LatMax
    && LonMin <= lon.value <= LonMax
  }

  /** Some row with a position has text in a position column. */
  predicate TextPosition(rows: seq<Row>) {
    exists k :: 0 <= k < |rows| && HasPosition(rows[k])
      && (Numeric(GetOr(rows[k], GeoLat, Missing)).None? || Numeric(GetOr(rows[k], GeoLong, Missing)).None?)
  }

  /** The rows with a position inside the box, in order. */
  function KeepInBox(rows: seq<Row>): (r: seq<Row>)
    ensures |r| <= |rows|
    ensures forall row :: row in r <==> row in rows && InBox(row)
    decreases |rows|
  {
    if rows == [] then []
    else
      var n := |rows| - 1;
      assert rows == rows[..n] + [rows[n]];
      KeepInBox(rows[..n]) + (if InBox(rows[n]) then [rows[n]] else [])
  }

  /** filter_by_bounding_box. An empty frame, or one lacking a position column, is
      returned as it is. Otherwise rows missing a coordinate are dropped and the rest
      kept when 29.0 <= lat <= 37.5 and 33.0 <= lon <= 42.5. A position written as
      text makes the comparison raise TypeError (Err). */
  function BoundingBoxFilter(f: Frame): (r: Result<Frame, string>)
    ensures Empty(f) || GeoLat !in f.columns || GeoLong !in f.columns ==> r == Ok(f)
    ensures r.Err? <==> !Empty(f) && GeoLat in f.columns && GeoLong in f.columns && TextPosition(f.rows)
    ensures r.Ok? ==> r.value.columns == f.columns && |r.value.rows| <= |f.rows|
    ensures r.Ok? && !Empty(f) && GeoLat in f.columns && GeoLong in f.columns ==>
      forall row :: row in r.value.rows <==> row in f.rows && InBox(row)
  {
    if Empty(f) || GeoLat !in f.columns || GeoLong !in f.columns then Ok(f)
    else if TextPosition(f.rows) then Err("TypeError")
    else Ok(Frame(f.columns, KeepInBox(f.rows)))
  }

  // ---------------------------------------------------------------------------
  // Dates
  // ---------------------------------------------------------------------------

  predicate LeapYear(y: int) {
    y % 4 == 0 && (y % 100 != 0 || y % 400 == 0)
  }

  function DaysInMonth(y: int, m: int): int
    requires 1 <= m <= 12
  {
    if m == 2 then (if LeapYear(y) then 29 else 28)
    else if m in {4, 6, 9, 11} then 30
    else 31
  }

  /** A calendar date datetime accepts (year 1 onwards). */
  predicate ValidDate(y: int, m: int, d: int) {
    y >= 1 && 1 <= m <= 12 && 1 <= d <= DaysInMonth(y, m)
  }

  /** An 8-character text strptime accepts with '%Y%m%d': four digits of year, two of
      month, two of day, forming a valid date. */
  predicate ValidYmd(s: string)
    requires |s| == 8
  {
    AllDigits(s) && ValidDate(DigitsValue(s[..4]), DigitsValue(s[4..6]), DigitsValue(s[6..8]))
  }

  /** The timestamp of a row from its SQLDATE read as an int: eight characters must
      form a valid YYYYMMDD date and become "YYYY-MM-DDT00:00:00Z" (otherwise
      strptime raises ValueError: None); any other length gives the current time
      (`now`, as isoformat() writes it) with a 'Z'. */
  function Timestamp(sqlDate: int, now: string): (r: Option<string>)
    ensures var s := IntToString(sqlDate);
      && (|s| != 8 ==> r == Some(now + "Z"))
      && (|s| == 8 ==> (r.None? <==> !ValidYmd(s)))
      && (|s| == 8 && r.Some? ==> r.value == s[..4] + "-" + s[4..6] + "-" + s[6..8] + "T00:00:00Z")
  {
    var s := IntToString(sqlDate);
    if |s| != 8 then Some(now + "Z")
    else if !ValidYmd(s) then None
    else Some(s[..4] + "-" + s[4..6] + "-" + s[6..8] + "T00:00:00Z")
  }

  /** Two decimal digits, with a leading zero below 10. */
  function Pad2(n: nat): (r: string)
    requires n < 100
    ensures |r| == 2 && AllDigits(r)
  {
    [DigitChar(n / 10), DigitChar(n % 10)]
  }

  /** Writing a * 100 + b is writing a and then b on two digits. */
  lemma DecimalShift(a: nat, b: nat)
    requires a >= 1 && b < 100
    ensures NatToString(a * 100 + b) == NatToString(a) + Pad2(b)
  {
    var n := a * 100 + b;
    assert n / 10 == a * 10 + b / 10 && n % 10 == b % 10;
    assert (a * 10 + b / 10) / 10 == a && (a * 10 + b / 10) % 10 == b / 10;
  }

  lemma Pad2Value(n: nat)
    requires n < 100
    ensures DigitsValue(Pad2(n)) == n
  {
    var s := Pad2(n);
    var t := s[..1];
    assert t == [DigitChar(n / 10)] && t[..0] == [];
    assert DigitValue(s[0]) == n / 10 && DigitValue(s[1]) == n % 10;
    assert DigitsValue(t) == DigitsValue(t[..0]) * 10 + DigitValue(t[0]) == n / 10;
    assert DigitsValue(s) == DigitsValue(t) * 10 + DigitValue(s[1]);
  }

  /** A valid date of a four-digit year, written as the integer YYYYMMDD, becomes
      "YYYY-MM-DDT00:00:00Z" with the same year, month and day. */
  lemma {:induction false} TimestampOfDate(y: nat, m: nat, d: nat, now: string)
    requires 1000 <= y <= 9999 && ValidDate(y, m, d)
    ensures Timestamp(y * 10000 + m * 100 + d, now)
      == Some(NatToString(y) + "-" + Pad2(m) + "-" + Pad2(d) + "T00:00:00Z")
  {
    var ys := NatToString(y);
    assert |ys| == 4 by {
      assert 1 <= y / 1000 < 10 && y / 10 / 10 / 10 == y / 1000;
      assert ys == NatToString(y / 10) + [DigitChar(y % 10)];
      assert NatToString(y / 10) == NatToString(y / 10 / 10) + [DigitChar(y / 10 % 10)];
      assert NatToString(y / 10 / 10) == NatToString(y / 1000) + [DigitChar(y / 10 / 10 % 10)];
    }
    DecimalShift(y, m);
    DecimalShift(y * 100 + m, d);
    assert y * 10000 + m * 100 + d == (y * 100 + m) * 100 + d;
    var s := IntToString(y * 10000 + m * 100 + d);
    assert s == ys + Pad2(m) + Pad2(d);
    assert s[..4] == ys && s[4..6] == Pad2(m) && s[6..8] == Pad2(d);
    NatToStringRoundTrip(y);
    Pad2Value(m);
    Pad2Value(d);
  }

  // ---------------------------------------------------------------------------
  // Rows to events
  // ---------------------------------------------------------------------------

  /** A float field: a number, or NaN (float() of a missing cell). */
  datatype Number = Finite(value: real) | NaN

  datatype Event = Event(
    timestamp: string, lat: Number, lon: Number,
    sourceUrl: string, eventCode: string, actor1: string, actor2: string,
    goldsteinScale: Option<Number>, numMentions: Option<int>)

  /** int() truncates a float toward zero. */
  function TruncateReal(x: real): int {
    if x >= 0.0 then x.Floor else -((-x).Floor)
  }

  /** Python's int() of a cell; None is its ValueError. `parseInt` is int() on text. */
  function ToInt(c: Cell, parseInt: string -> Option<int>): Option<int> {
    match c
    case Missing => None
    case IntCell(i) => Some(i)
    case RealCell(x) => Some(TruncateReal(x))
    case StrCell(s) => parseInt(s)
  }

  /** Python's float() of a cell; NaN stays NaN. `parseFloat` is float() on text. */
  function ToFloat(c: Cell, parseFloat: string -> Option<Number>): Option<Number> {
    match c
    case Missing => Some(NaN)
    case IntCell(i) => Some(Finite(i as real))
    case RealCell(x) => Some(Finite(x))
    case StrCell(s) => parseFloat(s)
  }

  /** The conversions the source performs, with the ones it may skip the row for
      (ValueError or TypeError) returning None. */
  datatype Parsers = Parsers(repr: FloatText, parseInt: string -> Option<int>,
                             parseFloat: string -> Option<Number>)

  /** One row of clean_and_transform: None when a conversion raises ValueError or
      TypeError and the row is skipped. */
  function ConvertRow(row: Row, now: string, p: Parsers): (r: Option<Event>)
    // the row is skipped exactly when one of its conversions fails
    ensures r.None? <==>
      || ToInt(GetOr(row, "SQLDATE", IntCell(0)), p.parseInt).None?
      || Timestamp(ToInt(GetOr(row, "SQLDATE", IntCell(0)), p.parseInt).value, now).None?
      || ToFloat(GetOr(row, GeoLat, IntCell(0)), p.parseFloat).None?
      || ToFloat(GetOr(row, GeoLong, IntCell(0)), p.parseFloat).None?
      || ("GoldsteinScale" in row && ToFloat(row["GoldsteinScale"], p.parseFloat).None?)
      || ("NumMentions" in row && ToInt(row["NumMentions"], p.parseInt).None?)
    // and otherwise every field is the converted cell, with the source's defaults
    ensures r.Some? ==>
      && ToInt(GetOr(row, "SQLDATE", IntCell(0)), p.parseInt).Some?
      && Some(r.value.timestamp) == Timestamp(ToInt(GetOr(row, "SQLDATE", IntCell(0)), p.parseInt).value, now)
      && Some(r.value.lat) == ToFloat(GetOr(row, GeoLat, IntCell(0)), p.parseFloat)
      && Some(r.value.lon) == ToFloat(GetOr(row, GeoLong, IntCell(0)), p.parseFloat)
      && r.value.sourceUrl == CellText(GetOr(row, "SOURCEURL", StrCell("")), p.repr)
      && r.value.eventCode == CellText(GetOr(row, EventCode, StrCell("")), p.repr)
      && r.value.actor1 == CellText(GetOr(row, "Actor1Code", StrCell("UNKNOWN")), p.repr)
      && r.value.actor2 == CellText(GetOr(row, "Actor2Code", StrCell("UNKNOWN")), p.repr)
      && (r.value.goldsteinScale.Some? <==> "GoldsteinScale" in row)
      && ("GoldsteinScale" in row ==>
            Some(r.value.goldsteinScale.value) == ToFloat(row["GoldsteinScale"], p.parseFloat))
      && (r.value.numMentions.Some? <==> "NumMentions" in row)
      && ("NumMentions" in row ==>
            Some(r.value.numMentions.value) == ToInt(row["NumMentions"], p.parseInt))
  {
    var sqlDate := ToInt(GetOr(row, "SQLDATE", IntCell(0)), p.parseInt);
    if sqlDate.None? then None
    else
      var timestamp := Timestamp(sqlDate.value, now);
      var lat := ToFloat(GetOr(row, GeoLat, IntCell(0)), p.parseFloat);
      var lon := ToFloat(GetOr(row, GeoLong, IntCell(0)), p.parseFloat);
      var goldstein := if "GoldsteinScale" in row then Some(ToFloat(row["GoldsteinScale"], p.parseFloat)) else None;
      var mentions := if "NumMentions" in row then Some(ToInt(row["NumMentions"], p.parseInt)) else None;
      if timestamp.None? || lat.None? || lon.None? then None
      else if goldstein == Some(None) || mentions == Some(None) then None
      else
        Some(Event(
          timestamp.value, lat.value, lon.value,
          CellText(GetOr(row, "SOURCEURL", StrCell("")), p.repr),
          CellText(GetOr(row, EventCode, StrCell("")), p.repr),
          CellText(GetOr(row, "Actor1Code", StrCell("UNKNOWN")), p.repr),
          CellText(GetOr(row, "Actor2Code", StrCell("UNKNOWN")), p.repr),
          if goldstein.Some? then Some(goldstein.value.value) else None,
          if mentions.Some? then Some(mentions.value.value) else None))
  }

  /** What each row comes to, in order. */
  function Conversions(rows: seq<Row>, now: string, p: Parsers): seq<Option<Event>> {
    seq(|rows|, k requires 0 <= k < |rows| => ConvertRow(rows[k], now, p))
  }

  /** The present values, in order. */
  function Present<T>(xs: seq<Option<T>>): (r: seq<T>)
    ensures |r| <= |xs|
    decreases |xs|
  {
    if xs == [] then []
    else
      var n := |xs| - 1;
      Present(xs[..n]) + (match xs[n] case None => [] case Some(x) => [x])
  }

  /** An event is in the output exactly when some row converts to it. */
  lemma {:induction false} PresentMembers<T>(xs: seq<Option<T>>, x: T)
    ensures x in Present(xs) <==> Some(x) in xs
    decreases |xs|
  {
    if xs != [] {
      var n := |xs| - 1;
      PresentMembers(xs[..n], x);
      assert xs == xs[..n] + [xs[n]];
    }
  }

  /** clean_and_transform: [] for an empty frame; otherwise the rows in order, each
      converted to an event or skipped. */
  method CleanAndTransform(f: Frame, now: string, p: Parsers) returns (events: seq<Event>)
    ensures Empty(f) ==> events == []
    ensures !Empty(f) ==> events == Present(Conversions(f.rows, now, p))
    ensures |events| <= |f.rows|
  {
    if f.columns == [] || f.rows == [] {
      return [];
    }
    ghost var conversions := Conversions(f.rows, now, p);
    events := [];
    var i := 0;
    while i < |f.rows|
      invariant 0 <= i <= |f.rows|
      invariant events == Present(conversions[..i])
    {
      assert conversions[..i + 1][..i] == conversions[..i];
      var event := ConvertRow(f.rows[i], now, p);
      assert conversions[i] == event;
      if event.Some? {
        events := events + [event.value];
      }
      i := i + 1;
    }
    assert conversions[..i] == conversions;
  }
}
