/** CSV printing (crates/solver-worker/src/calculation_bundle.rs) against a reader that follows
    section 2 of RFC 4180 with a line feed as record end. */
module CsvRows {
  import opened Wrappers

  type Field = string
  type Row = seq<Field>

  predicate IsSpecial(c: char) {
    c == ',' || c == '"' || c == '\n' || c == '\r'
  }

  predicate NeedsQuotes(f: Field) {
    exists i :: 0 <= i < |f| && IsSpecial(f[i])
  }

  /** Every double quote doubled. */
  function Doubled(f: Field): string {
    if f == "" then "" else (if f[0] == '"' then ['"', '"'] else [f[0]]) + Doubled(f[1..])
  }

  function PrintField(f: Field): string {
    if NeedsQuotes(f) then ['"'] + (Doubled(f) + ['"']) else f
  }

  /** A field with a comma, a quote or a line end is enclosed in quotes; any other is printed as it is. */
  lemma QuotesAsNeeded(f: Field)
    ensures ',' in f || '"' in f || '\n' in f || '\r' in f ==> PrintField(f) == "\"" + Doubled(f) + "\""
    ensures ',' !in f && '"' !in f && '\n' !in f && '\r' !in f ==> PrintField(f) == f
  {
    if c :| c in f && IsSpecial(c) {
      var i :| 0 <= i < |f| && f[i] == c;
    }
  }

  /** Fields from the first on, each but the first preceded by a comma, then the record end. */
  function PrintRow(row: Row): string {
    if row == [] then ['\n'] else PrintField(row[0]) + PrintRest(row[1..])
  }

  function PrintRest(row: Row): string {
    if row == [] then ['\n'] else [','] + (PrintField(row[0]) + PrintRest(row[1..]))
  }

  function PrintRows(rows: seq<Row>): string {
    if rows == [] then "" else PrintRow(rows[0]) + PrintRows(rows[1..])
  }

  /** One field as the loop writes it, in pieces. */
  method WriteField(written: string, value: Field) returns (output: string)
    ensures output == written + PrintField(value)
  {
    output := written;
    if NeedsQuotes(value) {
      output := output + ['"'];
      output := output + Doubled(value);
      output := output + ['"'];
    } else {
      output := output + value;
    }
  }

  /** What is still to be printed before field `i`. */
  ghost function Ahead(values: Row, i: nat): string
    requires i <= |values|
  {
    if i == 0 then PrintRow(values) else PrintRest(values[i..])
  }

  lemma AheadStep(written: string, values: Row, i: nat)
    requires i < |values|
    ensures i == 0 ==> written + Ahead(values, i) == written + PrintField(values[i]) + Ahead(values, i + 1)
    ensures i > 0 ==> written + Ahead(values, i) == written + [','] + PrintField(values[i]) + Ahead(values, i + 1)
  {
    assert values[i..][0] == values[i] && values[i..][1..] == values[i + 1..];
    var field, rest := PrintField(values[i]), PrintRest(values[i + 1..]);
    if i == 0 {
      assert written + (field + rest) == written + field + rest;
    } else {
      assert written + ([','] + (field + rest)) == written + [','] + field + rest;
    }
  }

  /** `write_csv_row`, appending to what has been written. */
  method WriteCsvRow(written: string, values: Row) returns (output: string)
    ensures output == written + PrintRow(values)
  {
    output := written;
    var first := true;
    for i := 0 to |values|
      invariant first <==> i == 0
      invariant output + Ahead(values, i) == written + PrintRow(values)
    {
      AheadStep(output, values, i);
      if !first {
        output := output + [','];
      }
      first := false;
      output := WriteField(output, values[i]);
    }
    assert values[|values|..] == [];
    output := output + ['\n'];
  }

  lemma Regroup(a: string, b: string, c: string, d: string)
    ensures a + b + c + d == a + (b + c + d)
  {
  }

  // ---------------------------------------------------------------------
  // The reader
  // ---------------------------------------------------------------------

  datatype Parsed<T> = Parsed(item: T, rest: string)

  /** An escaped field after its opening quote. */
  function ParseQuoted(s: string): (r: Option<Parsed<Field>>)
    ensures r.Some? ==> |r.value.rest| < |s|
  {
    if s == "" then None
    else if s[0] != '"' then
      match ParseQuoted(s[1..])
      case None => None
      case Some(p) => Some(Parsed([s[0]] + p.item, p.rest))
    else if |s| > 1 && s[1] == '"' then
      match ParseQuoted(s[2..])
      case None => None
      case Some(p) => Some(Parsed("\"" + p.item, p.rest))
    else Some(Parsed("", s[1..]))
  }

  /** A field that is not escaped ends before the first special character. */
  function ParsePlain(s: string): (p: Parsed<Field>)
    ensures |p.rest| <= |s|
  {
    if s == "" || IsSpecial(s[0]) then Parsed("", s)
    else
      var p := ParsePlain(s[1..]);
      Parsed([s[0]] + p.item, p.rest)
  }

  function ParseField(s: string): (r: Option<Parsed<Field>>)
    ensures r.Some? ==> |r.value.rest| <= |s|
  {
    if s != "" && s[0] == '"' then ParseQuoted(s[1..]) else Some(ParsePlain(s))
  }

  function ParseRow(s: string): (r: Option<Parsed<Row>>)
    ensures r.Some? ==> |r.value.rest| < |s| && r.value.item != []
    decreases |s|
  {
    match ParseField(s)
    case None => None
    case Some(p) =>
      if p.rest == "" then None
      else if p.rest[0] == '\n' then Some(Parsed([p.item], p.rest[1..]))
      else if p.rest[0] != ',' then None
      else
        match ParseRow(p.rest[1..])
        case None => None
        case Some(q) => Some(Parsed([p.item] + q.item, q.rest))
  }

  function ParseRows(s: string): (r: Option<seq<Row>>)
    ensures r.Some? ==> forall i :: 0 <= i < |r.value| ==> r.value[i] != []
    decreases |s|
  {
    if s == "" then Some([])
    else
      match ParseRow(s)
      case None => None
      case Some(p) =>
        match ParseRows(p.rest)
        case None => None
        case Some(rows) => Some([p.item] + rows)
  }

  // ---------------------------------------------------------------------
  // Round trip
  // ---------------------------------------------------------------------

  lemma {:induction false} QuotedRoundTrip(f: Field, t: string)
    requires t != "" && t[0] != '"'
    ensures ParseQuoted(Doubled(f) + ['"'] + t) == Some(Parsed(f, t))
  {
    if f == "" {
      assert Doubled(f) + ['"'] + t == ['"'] + t;
    } else {
      QuotedRoundTrip(f[1..], t);
      Regroup(if f[0] == '"' then ['"', '"'] else [f[0]], Doubled(f[1..]), ['"'], t);
      assert f == [f[0]] + f[1..];
    }
  }

  lemma {:induction false} PlainRoundTrip(f: Field, t: string)
    requires !NeedsQuotes(f) && t != "" && IsSpecial(t[0])
    ensures ParsePlain(f + t) == Parsed(f, t)
  {
    if f == "" {
      assert f + t == t;
    } else {
      assert !IsSpecial(f[0]);
      forall i | 0 <= i < |f[1..]| ensures !IsSpecial(f[1..][i]) {
        assert f[1..][i] == f[i + 1];
      }
      PlainRoundTrip(f[1..], t);
      assert (f + t)[1..] == f[1..] + t;
      assert f == [f[0]] + f[1..];
    }
  }

  lemma FieldRoundTrip(f: Field, t: string)
    requires t != "" && (t[0] == ',' || t[0] == '\n')
    ensures ParseField(PrintField(f) + t) == Some(Parsed(f, t))
  {
    if NeedsQuotes(f) {
      QuotedRoundTrip(f, t);
      Opens(Doubled(f) + ['"'], t);
    } else {
      PlainRoundTrip(f, t);
      assert f != "" ==> !IsSpecial(f[0]);
    }
  }

  lemma Opens(s: string, t: string)
    ensures ParseField(['"'] + s + t) == ParseQuoted(s + t)
  {
    assert (['"'] + s + t)[1..] == s + t;
  }

  lemma {:induction false} RowRoundTrip(row: Row, t: string)
    requires row != []
    ensures ParseRow(PrintRow(row) + t) == Some(Parsed(row, t))
    decreases |row|
  {
    var f, others := row[0], row[1..];
    assert row == [f] + others;
    var tail := PrintRest(others) + t;
    assert PrintRow(row) + t == PrintField(f) + tail;
    if others == [] {
      assert row == [f];
      FieldRoundTrip(f, ['\n'] + t);
    } else {
      var next := PrintRow(others) + t;
      RowRoundTrip(others, t);
      RestIsCommaRow(others, t);
      FieldRoundTrip(f, [','] + next);
    }
  }

  lemma RestIsCommaRow(row: Row, t: string)
    requires row != []
    ensures PrintRest(row) + t == [','] + (PrintRow(row) + t)
  {
  }

  lemma RowsContinue(s: string, row: Row, t: string, rows: seq<Row>)
    requires ParseRow(s) == Some(Parsed(row, t)) && ParseRows(t) == Some(rows)
    ensures ParseRows(s) == Some([row] + rows)
  {
  }

  lemma {:induction false} RowsRoundTrip(rows: seq<Row>)
    requires forall i :: 0 <= i < |rows| ==> rows[i] != []
    ensures ParseRows(PrintRows(rows)) == Some(rows)
  {
    if rows == [] {
    } else {
      RowRoundTrip(rows[0], PrintRows(rows[1..]));
      RowsRoundTrip(rows[1..]);
      RowsContinue(PrintRows(rows), rows[0], PrintRows(rows[1..]), rows[1..]);
      assert rows == [rows[0]] + rows[1..];
    }
  }

  /** Reading back what was printed gives the same rows exactly when every row has a field: a row
      without fields prints like a row with one empty field. */
  lemma {:induction false} ReadsBackIffFields(rows: seq<Row>)
    ensures ParseRows(PrintRows(rows)) == Some(rows) <==> forall i :: 0 <= i < |rows| ==> rows[i] != []
  {
    if forall i :: 0 <= i < |rows| ==> rows[i] != [] {
      RowsRoundTrip(rows);
    }
  }

  /** So different tables never print alike. */
  lemma {:induction false} PrintIsInjective(a: seq<Row>, b: seq<Row>)
    requires forall i :: 0 <= i < |a| ==> a[i] != []
    requires forall i :: 0 <= i < |b| ==> b[i] != []
    requires PrintRows(a) == PrintRows(b)
    ensures a == b
  {
    RowsRoundTrip(a);
    RowsRoundTrip(b);
  }
}
