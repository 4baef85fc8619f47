/** The data the six direct converters of ConversionService read and write,
    and what each of them produces, as functions. The converters themselves
    (loops over a builder) are in module Conversion and are proved equal to
    these functions. */
module Formats {
  import opened Common
  import opened Text
  import opened JsonFixer

  /** One record: (name, value) pairs in order. For a CSV source it is a data
      line zipped with the header line; for a JSON source it is one object of
      the parsed array, its keys in the object's own iteration order. */
  type Record = seq<(string, string)>

  /** The parser of the JSON library applied to the fixed text: the objects
      of the array, or the message of the exception it throws. */
  type JsonParser = string -> Result<seq<Record>, string>

  const EmptyCsvMessage: string := "Empty CSV file"
  const JsonErrorPrefix: string := "Error parsing JSON: "

  // ---------------------------------------------------------------------
  // CSV source: first line is the header, every later line one record.

  function Min(a: nat, b: nat): nat
  {
    if a < b then a else b
  }

  /** A data line's fields paired position by position with the header's,
      both trimmed; fields beyond the shorter of the two are dropped. */
  function CsvRecord(headers: seq<string>, values: seq<string>): Record
  {
    seq(Min(|headers|, |values|), i requires 0 <= i < Min(|headers|, |values|) => (Trim(headers[i]), Trim(values[i])))
  }

  /** The records of a CSV file whose first line is `lines[0]`: one per
      data line, none for the header line. */
  function CsvRecords(lines: seq<string>): (r: seq<Record>)
    requires |lines| >= 1
    ensures |r| == |lines| - 1
  {
    var headers := JavaSplit(lines[0], ',');
    seq(|lines| - 1, i requires 0 <= i < |lines| - 1 => CsvRecord(headers, JavaSplit(lines[i + 1], ',')))
  }

  /** One record per data line; each has as many fields as the shorter of
      header and line, at most one per header field, holding the trimmed
      header field and the trimmed value at that position. */
  lemma CsvRecordsShape(lines: seq<string>, i: nat)
    requires |lines| >= 1 && i < |lines| - 1
    ensures |CsvRecords(lines)| == |lines| - 1
    ensures var headers := JavaSplit(lines[0], ',');
            var values := JavaSplit(lines[i + 1], ',');
            var rec := CsvRecords(lines)[i];
            && |rec| == Min(|headers|, |values|) <= |headers|
            && forall j :: 0 <= j < |rec| ==> rec[j] == (Trim(headers[j]), Trim(values[j]))
  {
    var headers := JavaSplit(lines[0], ',');
    var values := JavaSplit(lines[i + 1], ',');
    assert CsvRecords(lines)[i] == CsvRecord(headers, values);
    CsvRecordShape(headers, values);
  }

  /** The pairs of one record, position by position. */
  lemma CsvRecordShape(headers: seq<string>, values: seq<string>)
    ensures var rec := CsvRecord(headers, values);
            && |rec| == Min(|headers|, |values|) <= |headers|
            && forall j :: 0 <= j < |rec| ==> rec[j] == (Trim(headers[j]), Trim(values[j]))
  {
  }

  // ---------------------------------------------------------------------
  // JSON text written by CSV -> JSON: two-space indentation, no escaping.

  function JsonMember(field: (string, string)): string
  {
    "    \"" + field.0 + "\": \"" + field.1 + "\""
  }

  function JsonMembers(rec: Record): seq<string>
  {
    seq(|rec|, k requires 0 <= k < |rec| => JsonMember(rec[k]))
  }

  /** The line of the member at `k`: a comma after every member but the last. */
  function JsonMemberLine(rec: Record, k: nat): string
    requires k < |rec|
  {
    JsonMember(rec[k]) + (if k < |rec| - 1 then "," else "") + "\n"
  }

  function JsonMemberLines(rec: Record): seq<string>
  {
    seq(|rec|, k requires 0 <= k < |rec| => JsonMemberLine(rec, k))
  }

  /** One object: `{`, its members one per line, `}`. */
  function JsonObject(rec: Record): string
  {
    "  {\n" + Concat(JsonMemberLines(rec)) + "  }"
  }

  /** The member lines up to `k` are the members joined by `,` and a line
      break, then the comma that follows a member that is not the last. */
  lemma {:induction false} JsonMemberLinesPrefix(rec: Record, k: nat)
    requires 1 <= k <= |rec|
    ensures Concat(JsonMemberLines(rec)[..k])
            == Join(JsonMembers(rec)[..k], ",\n") + (if k < |rec| then "," else "") + "\n"
  {
    var lines, members := JsonMemberLines(rec), JsonMembers(rec);
    var comma := if k < |rec| then "," else "";
    ConcatPrefixStep(lines, k - 1);
    JoinPrefixStep(members, k - 1, ",\n");
    assert lines[k - 1] == members[k - 1] + comma + "\n";
    if k == 1 {
      assert lines[..0] == [];
      assert Concat(lines[..1]) == lines[0];
    } else {
      JsonMemberLinesPrefix(rec, k - 1);
      var j := Join(members[..k - 1], ",\n");
      assert Concat(lines[..k - 1]) == j + "," + "\n";
      assert Concat(lines[..k]) == j + "," + "\n" + (members[k - 1] + comma + "\n");
      assert Join(members[..k], ",\n") == j + ",\n" + members[k - 1];
      MemberLineRegroup(j, members[k - 1], comma);
    }
  }

  /** Regrouping the separator of the member lines. */
  lemma MemberLineRegroup(j: string, m: string, comma: string)
    ensures j + "," + "\n" + (m + comma + "\n") == j + ",\n" + m + comma + "\n"
  {
    assert "," + "\n" == ",\n";
  }

  /** The same object written as a join: the members separated by `,` and a
      line break, followed by a line break unless there are none. */
  lemma JsonObjectJoin(rec: Record)
    ensures JsonObject(rec) == "  {\n" + (if rec == [] then "" else Join(JsonMembers(rec), ",\n") + "\n") + "  }"
  {
    var lines, members := JsonMemberLines(rec), JsonMembers(rec);
    if rec != [] {
      JsonMemberLinesPrefix(rec, |rec|);
      assert lines[..|rec|] == lines;
      assert members[..|rec|] == members;
    }
  }

  function JsonObjects(recs: seq<Record>): seq<string>
  {
    seq(|recs|, i requires 0 <= i < |recs| => JsonObject(recs[i]))
  }

  /** The array: `[`, the objects separated by `,` and a line break, `]`. */
  function JsonArray(recs: seq<Record>): string
  {
    "[\n" + Join(JsonObjects(recs), ",\n") + "\n]"
  }

  // ---------------------------------------------------------------------
  // Plain text written by CSV -> TXT and JSON -> TXT.

  function TxtLine(field: (string, string)): string
  {
    field.0 + ": " + field.1 + "\n"
  }

  function TxtLines(rec: Record): seq<string>
  {
    seq(|rec|, k requires 0 <= k < |rec| => TxtLine(rec[k]))
  }

  /** `Record <n>:`, one `name: value` line per field, a blank line. */
  function TxtBlock(n: nat, rec: Record): string
  {
    "Record " + DecimalString(n) + ":\n" + Concat(TxtLines(rec)) + "\n"
  }

  /** The blocks of all records, numbered from 1. */
  function TxtBlocks(recs: seq<Record>): seq<string>
  {
    seq(|recs|, i requires 0 <= i < |recs| => TxtBlock(i + 1, recs[i]))
  }

  function TxtDocument(recs: seq<Record>): string
  {
    Concat(TxtBlocks(recs))
  }

  // ---------------------------------------------------------------------
  // XML written by CSV -> XML and JSON -> XML, as the element tree handed
  // to the serialiser: <records><record id="n"><name>value</name>...</record>...</records>.

  datatype XmlField = XmlField(name: string, text: string)
  datatype XmlRecord = XmlRecord(id: nat, fields: seq<XmlField>)
  datatype XmlDocument = Records(records: seq<XmlRecord>)

  predicate IsAsciiLetter(c: char)
  {
    'A' <= c <= 'Z' || 'a' <= c <= 'z'
  }

  predicate IsAsciiAlnum(c: char)
  {
    IsAsciiLetter(c) || '0' <= c <= '9'
  }

  predicate IsNameChar(c: char)
  {
    IsAsciiAlnum(c) || c == '_'
  }

  /** A name the sanitiser can produce: non-empty, starting with an ASCII
      letter, and only ASCII letters, digits and `_`. Every such name is a
      legal XML element name. */
  predicate IsSafeName(name: string)
  {
    |name| >= 1 && IsAsciiLetter(name[0]) && forall i :: 0 <= i < |name| ==> IsNameChar(name[i])
  }

  /** `replaceAll("[^a-zA-Z0-9]", "_")`. */
  function ReplaceNonAlnum(s: string): string
  {
    seq(|s|, i requires 0 <= i < |s| => if IsAsciiAlnum(s[i]) then s[i] else '_')
  }

  /** The element-name sanitiser: every char outside `[A-Za-z0-9]` becomes
      `_`, and `field_` is put in front when what is left is empty or does not
      start with a letter. */
  function ElementName(key: string): (r: string)
    ensures IsSafeName(r)
  {
    var e := ReplaceNonAlnum(key);
    if e == [] || !IsAsciiLetter(e[0]) then "field_" + e else e
  }

  /** The prefix is added exactly when the key is empty or starts with
      something other than an ASCII letter. */
  lemma ElementNamePrefix(key: string)
    ensures ElementName(key) == "field_" + ReplaceNonAlnum(key) <==> (key == [] || !IsAsciiLetter(key[0]))
    ensures ElementName(key) == ReplaceNonAlnum(key) <==> (key != [] && IsAsciiLetter(key[0]))
  {
    var e := ReplaceNonAlnum(key);
    assert |"field_" + e| != |e|;
  }

  /** A name that is already safe and has no `_` is kept as it is; and
      sanitising a sanitised name changes nothing. */
  lemma ElementNameStable(key: string)
    ensures IsSafeName(key) ==> ElementName(key) == key
    ensures ElementName(ElementName(key)) == ElementName(key)
  {
    var r := ElementName(key);
    assert ReplaceNonAlnum(r) == r;
    if IsSafeName(key) {
      assert ReplaceNonAlnum(key) == key;
    }
  }

  function XmlRecordOf(n: nat, rec: Record): XmlRecord
  {
    XmlRecord(n, seq(|rec|, k requires 0 <= k < |rec| => XmlField(ElementName(rec[k].0), rec[k].1)))
  }

  /** The tree for a sequence of records: one `record` element per record,
      with ids 1, 2, ... in order, one child per field, each named by the
      sanitiser and holding the field's value. */
  function XmlDocumentOf(recs: seq<Record>): (d: XmlDocument)
    ensures |d.records| == |recs|
    ensures forall i :: 0 <= i < |recs| ==> d.records[i].id == i + 1 && |d.records[i].fields| == |recs[i]|
    ensures forall i, k :: 0 <= i < |recs| && 0 <= k < |recs[i]| ==>
              IsSafeName(d.records[i].fields[k].name) && d.records[i].fields[k].text == recs[i][k].1
  {
    Records(seq(|recs|, i requires 0 <= i < |recs| => XmlRecordOf(i + 1, recs[i])))
  }

  // ---------------------------------------------------------------------
  // CSV written by JSON -> CSV.

  /** `JSONObject.has` and `get`: the value of the first pair with this key. */
  function Lookup(rec: Record, key: string): (r: Option<string>)
    ensures r.None? <==> forall k :: 0 <= k < |rec| ==> rec[k].0 != key
    ensures r.Some? ==> exists k :: 0 <= k < |rec| && rec[k] == (key, r.value)
  {
    if rec == [] then None
    else if rec[0].0 == key then Some(rec[0].1)
    else
      var r := Lookup(rec[1..], key);
      assert r.Some? ==> exists k :: 0 <= k < |rec[1..]| && rec[1..][k] == (key, r.value);
      r
  }

  /** The cell of one key in one object's row: empty when the object lacks
      the key, the value wrapped in `"` when it holds a comma (an inner `"` is
      not escaped), the value itself otherwise. */
  function CsvCell(rec: Record, key: string): string
  {
    match Lookup(rec, key)
    case None => ""
    case Some(v) => if ',' in v then "\"" + v + "\"" else v
  }

  function CsvCells(headers: seq<string>, rec: Record): seq<string>
  {
    seq(|headers|, j requires 0 <= j < |headers| => CsvCell(rec, headers[j]))
  }

  function CsvRow(headers: seq<string>, rec: Record): string
  {
    Join(CsvCells(headers, rec), ",") + "\n"
  }

  function CsvRows(headers: seq<string>, recs: seq<Record>): seq<string>
  {
    seq(|recs|, i requires 0 <= i < |recs| => CsvRow(headers, recs[i]))
  }

  /** The header line, then one row per object. */
  function CsvDocument(headers: seq<string>, recs: seq<Record>): string
  {
    Join(headers, ",") + "\n" + Concat(CsvRows(headers, recs))
  }

  /** The keys of one object. */
  function KeysOf(rec: Record): set<string>
  {
    set p | p in rec :: p.0
  }

  /** The union of the keys of all objects. */
  function KeySet(recs: seq<Record>): set<string>
  {
    if recs == [] then {} else KeySet(recs[..|recs| - 1]) + KeysOf(recs[|recs| - 1])
  }

  /** A key is in the union exactly when some object has it. */
  lemma {:induction false} KeySetMembers(recs: seq<Record>, key: string)
    ensures key in KeySet(recs) <==> exists i, k :: 0 <= i < |recs| && 0 <= k < |recs[i]| && recs[i][k].0 == key
    decreases |recs|
  {
    if recs != [] {
      var n := |recs| - 1;
      KeySetMembers(recs[..n], key);
      if key in KeysOf(recs[n]) {
        var p :| p in recs[n] && p.0 == key;
        var k :| 0 <= k < |recs[n]| && recs[n][k] == p;
        assert recs[n][k].0 == key;
      }
      if exists i, k :: 0 <= i < |recs| && 0 <= k < |recs[i]| && recs[i][k].0 == key {
        var i, k :| 0 <= i < |recs| && 0 <= k < |recs[i]| && recs[i][k].0 == key;
        if i < n {
          assert recs[..n][i] == recs[i];
        } else {
          assert recs[n][k] in recs[n];
        }
      }
    }
  }

  predicate Distinct(s: seq<string>)
  {
    forall i, j :: 0 <= i < j < |s| ==> s[i] != s[j]
  }

  /** The header order `HashSet.toArray` may give: every key of the union
      exactly once, in some order. */
  predicate IsHeaderOrder(headers: seq<string>, recs: seq<Record>)
  {
    Distinct(headers) && (set h | h in headers) == KeySet(recs)
  }

  /** Every row has one cell per header: as long as no value holds a comma,
      splitting a row at its commas gives the cells back, the value or an
      empty cell for each header in turn, except that Java's split drops the
      trailing empty ones. */
  lemma CsvRowCells(headers: seq<string>, rec: Record)
    requires |headers| >= 2
    requires forall k :: 0 <= k < |rec| ==> ',' !in rec[k].1
    ensures var row := CsvRow(headers, rec);
            JavaSplit(row[..|row| - 1], ',') == DropTrailingEmpty(CsvCells(headers, rec))
    ensures forall j :: 0 <= j < |headers| ==>
              CsvCells(headers, rec)[j] == (match Lookup(rec, headers[j]) case None => "" case Some(v) => v)
  {
    var cells := CsvCells(headers, rec);
    forall j | 0 <= j < |cells| ensures ',' !in cells[j] {
      var l := Lookup(rec, headers[j]);
      if l.Some? {
        var k :| 0 <= k < |rec| && rec[k] == (headers[j], l.value);
      }
    }
    var row := CsvRow(headers, rec);
    assert row[..|row| - 1] == Join(cells, ",");
    JavaSplitJoin(cells, ',');
    forall j | 0 <= j < |headers|
      ensures cells[j] == (match Lookup(rec, headers[j]) case None => "" case Some(v) => v)
    {
      var l := Lookup(rec, headers[j]);
      if l.Some? {
        var k :| 0 <= k < |rec| && rec[k] == (headers[j], l.value);
      }
    }
  }

  /** When no key and no value holds a line break, the CSV text has exactly
      one line per object plus the header line, each ended by `\n`. */
  lemma CsvDocumentLines(headers: seq<string>, recs: seq<Record>)
    requires forall h :: h in headers ==> '\n' !in h
    requires forall i, k :: 0 <= i < |recs| && 0 <= k < |recs[i]| ==> '\n' !in recs[i][k].1
    ensures Count(CsvDocument(headers, recs), '\n') == |recs| + 1
  {
    JoinAbsent(headers, ",", '\n');
    CountAbsent(Join(headers, ","), '\n');
    CountAppend(Join(headers, ","), "\n", '\n');
    var rows := CsvRows(headers, recs);
    forall i | 0 <= i < |rows| ensures Count(rows[i], '\n') == 1 {
      RowLines(headers, recs[i]);
    }
    ConcatLines(rows);
    CountAppend(Join(headers, ",") + "\n", Concat(rows), '\n');
  }

  lemma RowLines(headers: seq<string>, rec: Record)
    requires forall k :: 0 <= k < |rec| ==> '\n' !in rec[k].1
    ensures Count(CsvRow(headers, rec), '\n') == 1
  {
    var cells := CsvCells(headers, rec);
    forall j | 0 <= j < |cells| ensures '\n' !in cells[j] {
      var l := Lookup(rec, headers[j]);
      if l.Some? {
        var k :| 0 <= k < |rec| && rec[k] == (headers[j], l.value);
      }
    }
    JoinAbsent(cells, ",", '\n');
    CountAbsent(Join(cells, ","), '\n');
    CountAppend(Join(cells, ","), "\n", '\n');
  }

  lemma {:induction false} ConcatLines(rows: seq<string>)
    requires forall i :: 0 <= i < |rows| ==> Count(rows[i], '\n') == 1
    ensures Count(Concat(rows), '\n') == |rows|
    decreases |rows|
  {
    if rows != [] {
      var n := |rows| - 1;
      ConcatLines(rows[..n]);
      CountAppend(Concat(rows[..n]), rows[n], '\n');
    }
  }

  // ---------------------------------------------------------------------
  // What each direct converter produces from its input.

  function CsvToJsonText(lines: seq<string>): Result<string, string>
  {
    if |lines| == 0 then Failure(EmptyCsvMessage) else Success(JsonArray(CsvRecords(lines)))
  }

  function CsvToXmlDocument(lines: seq<string>): Result<XmlDocument, string>
  {
    if |lines| == 0 then Failure(EmptyCsvMessage) else Success(XmlDocumentOf(CsvRecords(lines)))
  }

  function CsvToTxtText(lines: seq<string>): Result<string, string>
  {
    if |lines| == 0 then Failure(EmptyCsvMessage) else Success(TxtDocument(CsvRecords(lines)))
  }

  function JsonToTxtText(text: string, parse: JsonParser): Result<string, string>
  {
    match parse(FixJson(text))
    case Failure(m) => Failure(JsonErrorPrefix + m)
    case Success(recs) => Success(TxtDocument(recs))
  }

  function JsonToXmlDocument(text: string, parse: JsonParser): Result<XmlDocument, string>
  {
    match parse(FixJson(text))
    case Failure(m) => Failure(JsonErrorPrefix + m)
    case Success(recs) => Success(XmlDocumentOf(recs))
  }

  /** JSON -> CSV is determined only up to the header order. */
  predicate IsJsonToCsvText(text: string, parse: JsonParser, headers: seq<string>, r: Result<string, string>)
  {
    match parse(FixJson(text))
    case Failure(m) => r == Failure(JsonErrorPrefix + m)
    case Success(recs) => IsHeaderOrder(headers, recs) && r == Success(CsvDocument(headers, recs))
  }
}
