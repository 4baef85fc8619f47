/** ConversionService.convertFile: the six direct converters, each a loop
    appending to a builder, and the dispatch that picks one of them, the
    Hadoop job, or the Hadoop job with a fall back to the direct converter. */
module Conversion {
  import opened Common
  import opened Text
  import opened JsonFixer
  import opened Formats

  /** Files larger than this (10 MiB, strictly) are first offered to Hadoop. */
  const HadoopThreshold: int := 10 * 1024 * 1024

  /** What `ConversionJob.runJob` does when called: return normally (its
      boolean result is ignored by the caller) or throw. */
  datatype HadoopRun = Returned(result: bool) | Threw(message: string)

  /** The stored source file: its size in bytes, the lines a `BufferedReader`
      reads from it, and its whole text. */
  datatype SourceFile = SourceFile(size: nat, lines: seq<string>, text: string)

  /** What was written to the output location. */
  datatype Written = TextFile(content: string) | XmlFile(document: XmlDocument) | HadoopOutput

  datatype Converted = Converted(outputFileName: string, written: Written)

  /** The output name: the source's base name and the lower-cased target format. */
  function OutputFileName(fileName: string, targetFormat: string): string
  {
    BaseName(fileName) + "." + Lower(targetFormat)
  }

  /** A target format with no `.` and no separator comes back out of the
      output name: its base name is the source's base name and its
      extension is the lower-cased target format. */
  lemma OutputFileNameParts(fileName: string, targetFormat: string)
    requires '.' !in targetFormat && '/' !in targetFormat && '\\' !in targetFormat
    ensures BaseName(OutputFileName(fileName, targetFormat)) == BaseName(fileName)
    ensures Extension(OutputFileName(fileName, targetFormat)) == Lower(targetFormat)
  {
    var ext := Lower(targetFormat);
    assert '.' !in ext && '/' !in ext && '\\' !in ext;
    BuiltNameParts(BaseName(fileName), ext);
  }

  /** The six ordered pairs with a direct converter (compared case-sensitively). */
  predicate IsDirectPair(sourceFormat: string, targetFormat: string)
  {
    (sourceFormat == "csv" && (targetFormat == "json" || targetFormat == "xml" || targetFormat == "txt"))
    || (sourceFormat == "json" && (targetFormat == "csv" || targetFormat == "txt" || targetFormat == "xml"))
  }

  /** The two pairs that try Hadoop first for large files. */
  predicate TriesHadoopFirst(sourceFormat: string, targetFormat: string)
  {
    (sourceFormat == "csv" && targetFormat == "json") || (sourceFormat == "json" && targetFormat == "csv")
  }

  // ---------------------------------------------------------------------
  // Per-record writers (the inner loops of the converters).

  /** The inner loop of CSV -> JSON: one member per field, a comma after
      every member but the last. */
  method WriteJsonObject(rec: Record) returns (s: string)
    ensures s == JsonObject(rec)
  {
    ghost var lines := JsonMemberLines(rec);
    var n := |rec|;
    s := "  {\n";
    ghost var head := s;
    assert s == head + Concat(lines[..0]);
    for i := 0 to n
      invariant s == head + Concat(lines[..i])
    {
      var member := "    \"" + rec[i].0 + "\": \"" + rec[i].1 + "\"";
      var comma := if i < n - 1 then "," else "";
      assert member == JsonMember(rec[i]);
      assert lines[i] == JsonMemberLine(rec, i);
      s := s + (member + comma + "\n");
      ConcatPrefixStep(lines, i);
    }
    assert lines[..n] == lines;
    s := s + "  }";
  }

  /** The inner loop of the TXT converters: one `name: value` line per field. */
  method WriteTxtBlock(n: nat, rec: Record) returns (s: string)
    ensures s == TxtBlock(n, rec)
  {
    ghost var lines := TxtLines(rec);
    var head := "Record " + DecimalString(n) + ":\n";
    s := head;
    for i := 0 to |rec|
      invariant s == head + Concat(lines[..i])
    {
      var line := rec[i].0 + ": " + rec[i].1 + "\n";
      s := s + line;
      ConcatPrefixStep(lines, i);
    }
    assert lines[..|rec|] == lines;
    s := s + "\n";
  }

  /** The inner loop of the XML converters: one child element per field. */
  method BuildXmlRecord(n: nat, rec: Record) returns (x: XmlRecord)
    ensures x == XmlRecordOf(n, rec)
  {
    var fields: seq<XmlField> := [];
    for i := 0 to |rec|
      invariant |fields| == i
      invariant forall k :: 0 <= k < i ==> fields[k] == XmlField(ElementName(rec[k].0), rec[k].1)
    {
      var name := ElementName(rec[i].0);
      fields := fields + [XmlField(name, rec[i].1)];
    }
    x := XmlRecord(n, fields);
  }

  /** The header line of JSON -> CSV: the keys separated by commas. */
  method WriteCsvHeader(headers: seq<string>) returns (s: string)
    ensures s == Join(headers, ",") + "\n"
  {
    var n := |headers|;
    s := "";
    for i := 0 to n
      invariant i == 0 ==> s == ""
      invariant 0 < i ==> s == Join(headers[..i], ",") + (if i < n then "," else "")
    {
      ghost var before := s;
      s := s + headers[i];
      if i < n - 1 {
        s := s + ",";
      }
      if i == 0 {
        assert headers[..1] == [headers[0]];
      } else {
        assert headers[..i + 1] == headers[..i] + [headers[i]];
        JoinSnoc(headers[..i], headers[i], ",");
      }
    }
    assert n > 0 ==> headers[..n] == headers;
    s := s + "\n";
  }

  /** One data row of JSON -> CSV: a cell per header, separated by commas. */
  method WriteCsvRow(headers: seq<string>, rec: Record) returns (s: string)
    ensures s == CsvRow(headers, rec)
  {
    ghost var cells := CsvCells(headers, rec);
    var n := |headers|;
    s := "";
    for j := 0 to n
      invariant j == 0 ==> s == ""
      invariant 0 < j ==> s == Join(cells[..j], ",") + (if j < n then "," else "")
    {
      ghost var before := s;
      var found := Lookup(rec, headers[j]);
      if found.Some? {
        var value := found.value;
        if ',' in value {
          value := "\"" + value + "\"";
        }
        s := s + value;
      }
      assert s == before + cells[j];
      if j < n - 1 {
        s := s + ",";
      }
      if j == 0 {
        assert cells[..1] == [cells[0]];
      } else {
        assert cells[..j + 1] == cells[..j] + [cells[j]];
        JoinSnoc(cells[..j], cells[j], ",");
      }
    }
    assert n > 0 ==> cells[..n] == cells;
    s := s + "\n";
  }

  // ---------------------------------------------------------------------
  // The direct converters.

  /** CSV -> JSON: the first line is the header; each later line becomes an
      object. */
  method CsvToJson(lines: seq<string>) returns (r: Result<string, string>)
    ensures r == CsvToJsonText(lines)
  {
    if |lines| == 0 {
      return Failure(EmptyCsvMessage);
    }
    var objects := WriteJsonObjects(lines);
    r := Success("[\n" + objects + "\n]");
  }

  /** The loop of CSV -> JSON over the data lines, with `,\n` before every
      object but the first. */
  method WriteJsonObjects(lines: seq<string>) returns (json: string)
    requires |lines| >= 1
    ensures json == Join(JsonObjects(CsvRecords(lines)), ",\n")
  {
    var headers := JavaSplit(lines[0], ',');
    ghost var objects := JsonObjects(CsvRecords(lines));
    json := "";
    var firstRow := true;
    for i := 1 to |lines|
      invariant firstRow <==> i == 1
      invariant json == Join(objects[..i - 1], ",\n")
    {
      if !firstRow {
        json := json + ",\n";
      }
      var values := JavaSplit(lines[i], ',');
      var obj := WriteJsonObject(CsvRecord(headers, values));
      assert obj == objects[i - 1];
      json := json + obj;
      firstRow := false;
      JoinPrefixStep(objects, i - 1, ",\n");
    }
    assert objects[..|lines| - 1] == objects;
  }

  /** CSV -> XML: a `record` element per data line, numbered from 1. */
  method CsvToXml(lines: seq<string>) returns (r: Result<XmlDocument, string>)
    ensures r == CsvToXmlDocument(lines)
  {
    if |lines| == 0 {
      return Failure(EmptyCsvMessage);
    }
    var records := BuildCsvXmlRecords(lines);
    r := Success(Records(records));
  }

  /** The loop of CSV -> XML over the data lines, the id counting from 1. */
  method BuildCsvXmlRecords(lines: seq<string>) returns (records: seq<XmlRecord>)
    requires |lines| >= 1
    ensures records == XmlDocumentOf(CsvRecords(lines)).records
  {
    var headers := JavaSplit(lines[0], ',');
    ghost var target := XmlDocumentOf(CsvRecords(lines)).records;
    records := [];
    var recordId := 1;
    for i := 1 to |lines|
      invariant recordId == i
      invariant records == target[..i - 1]
    {
      var values := JavaSplit(lines[i], ',');
      var record := BuildXmlRecord(recordId, CsvRecord(headers, values));
      assert record == target[i - 1] by {
        assert CsvRecords(lines)[i - 1] == CsvRecord(headers, values);
      }
      recordId := recordId + 1;
      records := records + [record];
      TakeSnoc(target, i - 1);
    }
    assert target[..|lines| - 1] == target;
  }

  /** CSV -> TXT: a numbered block per data line. */
  method CsvToTxt(lines: seq<string>) returns (r: Result<string, string>)
    ensures r == CsvToTxtText(lines)
  {
    if |lines| == 0 {
      return Failure(EmptyCsvMessage);
    }
    var txt := WriteCsvTxtBlocks(lines);
    r := Success(txt);
  }

  /** The loop of CSV -> TXT over the data lines, the number counting from 1. */
  method WriteCsvTxtBlocks(lines: seq<string>) returns (txt: string)
    requires |lines| >= 1
    ensures txt == TxtDocument(CsvRecords(lines))
  {
    var headers := JavaSplit(lines[0], ',');
    ghost var recs := CsvRecords(lines);
    ghost var blocks := TxtBlocks(recs);
    txt := "";
    var recordId := 1;
    for i := 1 to |lines|
      invariant recordId == i
      invariant txt == Concat(blocks[..i - 1])
    {
      var values := JavaSplit(lines[i], ',');
      var block := WriteTxtBlock(recordId, CsvRecord(headers, values));
      assert recs[i - 1] == CsvRecord(headers, values);
      recordId := recordId + 1;
      txt := txt + block;
      ConcatPrefixStep(blocks, i - 1);
    }
    assert blocks[..|lines| - 1] == blocks;
  }

  /** The loop that adds every key of every object into a set. */
  method CollectKeys(recs: seq<Record>) returns (keys: set<string>)
    ensures keys == KeySet(recs)
  {
    keys := {};
    for i := 0 to |recs|
      invariant keys == KeySet(recs[..i])
    {
      var rec := recs[i];
      for j := 0 to |rec|
        invariant keys == KeySet(recs[..i]) + set p | p in rec[..j] :: p.0
      {
        assert forall p :: p in rec[..j + 1] <==> p in rec[..j] || p == rec[j];
        keys := keys + {rec[j].0};
      }
      assert rec[..|rec|] == rec;
      assert recs[..i + 1][..i] == recs[..i];
    }
    assert recs[..|recs|] == recs;
  }

  /** `HashSet.toArray`: the keys in some order, each once. */
  method KeysInSomeOrder(keys: set<string>) returns (s: seq<string>)
    ensures Distinct(s)
    ensures (set h | h in s) == keys
  {
    s := [];
    var rest := keys;
    while rest != {}
      invariant rest <= keys
      invariant Distinct(s)
      invariant forall h :: h in s <==> h in keys && h !in rest
      decreases rest
    {
      var k :| k in rest;
      s := s + [k];
      rest := rest - {k};
    }
  }

  /** JSON -> CSV: fix and parse the text, collect the union of keys, write
      the header line and one row per object. The header order it used is
      returned beside the text. */
  method JsonToCsv(text: string, parse: JsonParser) returns (r: Result<string, string>, headers: seq<string>)
    ensures IsJsonToCsvText(text, parse, headers, r)
  {
    var fixed := FixJson(text);
    var parsed := parse(fixed);
    if parsed.Failure? {
      return Failure(JsonErrorPrefix + parsed.error), [];
    }
    var recs := parsed.value;
    var allKeys := CollectKeys(recs);
    headers := KeysInSomeOrder(allKeys);
    var csv := WriteCsvDocument(headers, recs);
    r := Success(csv);
  }

  /** The writing half of JSON -> CSV: the header line, then one row per object. */
  method WriteCsvDocument(headers: seq<string>, recs: seq<Record>) returns (csv: string)
    ensures csv == CsvDocument(headers, recs)
  {
    ghost var rows := CsvRows(headers, recs);
    csv := WriteCsvHeader(headers);
    ghost var header := csv;
    assert csv == header + Concat(rows[..0]);
    for i := 0 to |recs|
      invariant csv == header + Concat(rows[..i])
    {
      var row := WriteCsvRow(headers, recs[i]);
      assert row == rows[i];
      csv := csv + row;
      ConcatPrefixStep(rows, i);
    }
    assert rows[..|recs|] == rows;
  }

  /** JSON -> TXT: a numbered block per object, its keys in its own order. */
  method JsonToTxt(text: string, parse: JsonParser) returns (r: Result<string, string>)
    ensures r == JsonToTxtText(text, parse)
  {
    var fixed := FixJson(text);
    var parsed := parse(fixed);
    if parsed.Failure? {
      return Failure(JsonErrorPrefix + parsed.error);
    }
    var txt := WriteTxtBlocks(parsed.value);
    r := Success(txt);
  }

  /** The loop of JSON -> TXT over the objects, numbered from 1. */
  method WriteTxtBlocks(recs: seq<Record>) returns (txt: string)
    ensures txt == TxtDocument(recs)
  {
    ghost var blocks := TxtBlocks(recs);
    txt := "";
    for i := 0 to |recs|
      invariant txt == Concat(blocks[..i])
    {
      var block := WriteTxtBlock(i + 1, recs[i]);
      txt := txt + block;
      ConcatPrefixStep(blocks, i);
    }
    assert blocks[..|recs|] == blocks;
  }

  /** JSON -> XML: a `record` element per object, numbered from 1. */
  method JsonToXml(text: string, parse: JsonParser) returns (r: Result<XmlDocument, string>)
    ensures r == JsonToXmlDocument(text, parse)
  {
    var fixed := FixJson(text);
    var parsed := parse(fixed);
    if parsed.Failure? {
      return Failure(JsonErrorPrefix + parsed.error);
    }
    var records := BuildXmlRecords(parsed.value);
    r := Success(Records(records));
  }

  /** The loop of JSON -> XML over the objects, numbered from 1. */
  method BuildXmlRecords(recs: seq<Record>) returns (records: seq<XmlRecord>)
    ensures records == XmlDocumentOf(recs).records
  {
    ghost var target := XmlDocumentOf(recs).records;
    records := [];
    for i := 0 to |recs|
      invariant records == target[..i]
    {
      var record := BuildXmlRecord(i + 1, recs[i]);
      records := records + [record];
      assert target[..i + 1] == target[..i] + [target[i]];
    }
    assert target[..|recs|] == target;
  }

  // ---------------------------------------------------------------------
  // Dispatch.

  function AsText(r: Result<string, string>, name: string): Result<Converted, string>
  {
    match r
    case Success(t) => Success(Converted(name, TextFile(t)))
    case Failure(m) => Failure(m)
  }

  function AsXml(r: Result<XmlDocument, string>, name: string): Result<Converted, string>
  {
    match r
    case Success(d) => Success(Converted(name, XmlFile(d)))
    case Failure(m) => Failure(m)
  }

  /** The outcome of the direct converter of a supported pair. */
  ghost predicate IsDirectOutcome(sourceFormat: string, targetFormat: string, file: SourceFile,
                                  parse: JsonParser, name: string, r: Result<Converted, string>)
  {
    if sourceFormat == "csv" && targetFormat == "json" then r == AsText(CsvToJsonText(file.lines), name)
    else if sourceFormat == "csv" && targetFormat == "xml" then r == AsXml(CsvToXmlDocument(file.lines), name)
    else if sourceFormat == "csv" && targetFormat == "txt" then r == AsText(CsvToTxtText(file.lines), name)
    else if sourceFormat == "json" && targetFormat == "csv" then
      exists headers :: IsJsonToCsvText(file.text, parse, headers, StripName(r))
    else if sourceFormat == "json" && targetFormat == "txt" then r == AsText(JsonToTxtText(file.text, parse), name)
    else r == AsXml(JsonToXmlDocument(file.text, parse), name)
  }

  /** The text of a converted result, for stating JSON -> CSV up to header order. */
  function StripName(r: Result<Converted, string>): Result<string, string>
  {
    match r
    case Success(c) => if c.written.TextFile? then Success(c.written.content) else Failure("")
    case Failure(m) => Failure(m)
  }

  /** Whether `convertFile` calls `runJob`: for a pair with no direct
      converter always, for CSV -> JSON and JSON -> CSV when the file is
      larger than the threshold, otherwise never. */
  predicate UsesHadoop(sourceFormat: string, targetFormat: string, size: nat)
  {
    !IsDirectPair(sourceFormat, targetFormat)
    || (TriesHadoopFirst(sourceFormat, targetFormat) && size > HadoopThreshold)
  }

  /** The outcomes `convertFile` may have. A normal return of `runJob`, when
      it is called, is a success whatever it returns; its exception falls
      back to the direct converter, except for a pair with no direct
      converter, where it is the result. Every success carries the output
      name; a direct conversion has exactly its converter's outcome. */
  ghost predicate ConvertOutcome(fileName: string, sourceFormat: string, targetFormat: string,
                                 file: SourceFile, parse: JsonParser, hadoop: HadoopRun,
                                 r: Result<Converted, string>)
  {
    var name := OutputFileName(fileName, targetFormat);
    var byHadoop := UsesHadoop(sourceFormat, targetFormat, file.size) && hadoop.Returned?;
    && (r.Success? ==> r.value.outputFileName == name)
    && (byHadoop ==> r == Success(Converted(name, HadoopOutput)))
    && (!IsDirectPair(sourceFormat, targetFormat) && hadoop.Threw? ==> r == Failure(hadoop.message))
    && (IsDirectPair(sourceFormat, targetFormat) && !byHadoop ==>
          && (r.Success? ==> r.value.written != HadoopOutput)
          && IsDirectOutcome(sourceFormat, targetFormat, file, parse, name, r))
  }

  /** The chain of direct converters in `convertFile`, for a supported pair. */
  method ConvertDirect(sourceFormat: string, targetFormat: string, file: SourceFile,
                       parse: JsonParser, outputFileName: string)
    returns (r: Result<Converted, string>)
    requires IsDirectPair(sourceFormat, targetFormat)
    ensures r.Success? ==> r.value.outputFileName == outputFileName && r.value.written != HadoopOutput
    ensures IsDirectOutcome(sourceFormat, targetFormat, file, parse, outputFileName, r)
  {
    if sourceFormat == "csv" && targetFormat == "json" {
      var t := CsvToJson(file.lines);
      r := AsText(t, outputFileName);
    } else if sourceFormat == "csv" && targetFormat == "xml" {
      var d := CsvToXml(file.lines);
      r := AsXml(d, outputFileName);
    } else if sourceFormat == "csv" && targetFormat == "txt" {
      var t := CsvToTxt(file.lines);
      r := AsText(t, outputFileName);
    } else if sourceFormat == "json" && targetFormat == "csv" {
      var t, headers := JsonToCsv(file.text, parse);
      r := AsText(t, outputFileName);
      assert StripName(r) == t;
      assert IsJsonToCsvText(file.text, parse, headers, StripName(r));
    } else if sourceFormat == "json" && targetFormat == "txt" {
      var t := JsonToTxt(file.text, parse);
      r := AsText(t, outputFileName);
    } else {
      var d := JsonToXml(file.text, parse);
      r := AsXml(d, outputFileName);
    }
  }

  /** `convertFile`. `usedHadoop` tells whether `runJob` was called. */
  method ConvertFile(fileName: string, sourceFormat: string, targetFormat: string,
                     file: SourceFile, parse: JsonParser, hadoop: HadoopRun)
    returns (r: Result<Converted, string>, usedHadoop: bool)
    ensures usedHadoop <==> UsesHadoop(sourceFormat, targetFormat, file.size)
    ensures ConvertOutcome(fileName, sourceFormat, targetFormat, file, parse, hadoop, r)
  {
    var outputFileName := OutputFileName(fileName, targetFormat);
    usedHadoop := false;
    if TriesHadoopFirst(sourceFormat, targetFormat) && file.size > HadoopThreshold {
      usedHadoop := true;
      if hadoop.Returned? {
        return Success(Converted(outputFileName, HadoopOutput)), usedHadoop;
      }
      // the exception is logged and the direct converter runs
    }
    if IsDirectPair(sourceFormat, targetFormat) {
      r := ConvertDirect(sourceFormat, targetFormat, file, parse, outputFileName);
    } else {
      usedHadoop := true;
      match hadoop
      case Returned(_) =>
        r := Success(Converted(outputFileName, HadoopOutput));
      case Threw(message) =>
        r := Failure(message);
    }
  }
}
