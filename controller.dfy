/** The logic of ConversionController: the source-format guess, the task
    lifecycle of an upload, the decoding of a stored task status for the
    status endpoint, and the content type of a download. */
module Controller {
  import opened Common
  import opened Text
  import opened Tasks
  import Conversion
  import Formats

  // ---------------------------------------------------------------------
  // Status decoding (`getStatus`).

  /** What the status endpoint reports: the output name of a completed
      task, the message of a failed one, or the stored status itself. */
  datatype TaskView = CompletedView(outputFileName: string) | ErrorView(error: string) | Passed(status: string)

  /** The stored status a view was read from. */
  function EncodeView(v: TaskView): string
  {
    match v
    case CompletedView(o) => CompletedPrefix + o
    case ErrorView(e) => ErrorPrefix + e
    case Passed(s) => s
  }

  /** `getStatus`: a `completed:` prefix is checked first, then `error:`;
      the text after the prefix is reported, any other status as it is. */
  function DecodeStatus(status: string): (v: TaskView)
    ensures v.CompletedView? <==> StartsWith(status, CompletedPrefix)
    ensures v.ErrorView? <==> !StartsWith(status, CompletedPrefix) && StartsWith(status, ErrorPrefix)
    ensures EncodeView(v) == status
  {
    if StartsWith(status, CompletedPrefix) then
      assert status == status[..|CompletedPrefix|] + status[|CompletedPrefix|..];
      CompletedView(status[|CompletedPrefix|..])
    else if StartsWith(status, ErrorPrefix) then
      assert status == status[..|ErrorPrefix|] + status[|ErrorPrefix|..];
      ErrorView(status[|ErrorPrefix|..])
    else
      Passed(status)
  }

  /** What `setCompleted` and `setError` write decodes back to the output
      name and the message, whatever they contain. */
  lemma {:induction false} DecodeWritten(result: string, errorMessage: string)
    ensures DecodeStatus(CompletedPrefix + result) == CompletedView(result)
    ensures DecodeStatus(ErrorPrefix + errorMessage) == ErrorView(errorMessage)
  {
    var c := CompletedPrefix + result;
    assert c[..|CompletedPrefix|] == CompletedPrefix;
    assert c[|CompletedPrefix|..] == result;
    var e := ErrorPrefix + errorMessage;
    assert e[0] == 'e' != CompletedPrefix[0];
    assert e[..|ErrorPrefix|] == ErrorPrefix;
    assert e[|ErrorPrefix|..] == errorMessage;
  }

  /** A view is decoded from exactly the status it encodes to, except a
      passed-through status that itself carries one of the two prefixes. */
  lemma DecodeEncode(v: TaskView)
    requires v.Passed? ==> !StartsWith(v.status, CompletedPrefix) && !StartsWith(v.status, ErrorPrefix)
    ensures DecodeStatus(EncodeView(v)) == v
  {
    match v
    case CompletedView(o) => DecodeWritten(o, "");
    case ErrorView(e) => DecodeWritten("", e);
    case Passed(s) =>
  }

  /** The statuses written without a prefix, and the default, pass through. */
  lemma {:induction false} PlainStatusesPass()
    ensures DecodeStatus("uploaded") == Passed("uploaded")
    ensures DecodeStatus("processing") == Passed("processing")
    ensures DecodeStatus(Unknown) == Passed(Unknown)
  {
    assert "uploaded"[0] != CompletedPrefix[0] && "uploaded"[0] != ErrorPrefix[0];
    assert "processing"[0] != CompletedPrefix[0] && "processing"[0] != ErrorPrefix[0];
    assert Unknown[0] != CompletedPrefix[0] && Unknown[0] != ErrorPrefix[0];
  }

  // ---------------------------------------------------------------------
  // Content type (`downloadFile`).

  /** The content type of a download, by the file name's ending. The three
      endings exclude each other, so each type is chosen by its ending alone. */
  function ContentType(fileName: string): (t: string)
    ensures t == "text/csv" <==> EndsWith(fileName, ".csv")
    ensures t == "application/json" <==> EndsWith(fileName, ".json")
    ensures t == "application/xml" <==> EndsWith(fileName, ".xml")
    ensures t == "application/octet-stream" <==>
              !EndsWith(fileName, ".csv") && !EndsWith(fileName, ".json") && !EndsWith(fileName, ".xml")
  {
    EndingsExclusive(fileName);
    if EndsWith(fileName, ".csv") then "text/csv"
    else if EndsWith(fileName, ".json") then "application/json"
    else if EndsWith(fileName, ".xml") then "application/xml"
    else "application/octet-stream"
  }

  /** No name ends with two of `.csv`, `.json`, `.xml`: their last chars differ. */
  lemma EndingsExclusive(fileName: string)
    ensures !(EndsWith(fileName, ".csv") && EndsWith(fileName, ".json"))
    ensures !(EndsWith(fileName, ".csv") && EndsWith(fileName, ".xml"))
    ensures !(EndsWith(fileName, ".json") && EndsWith(fileName, ".xml"))
  {
    EndsWithLast(fileName, ".csv");
    EndsWithLast(fileName, ".json");
    EndsWithLast(fileName, ".xml");
  }

  /** A name `p.e` is served by its extension `e`. */
  lemma {:induction false} ContentTypeOfExtension(p: string, e: string)
    ensures e == "csv" ==> ContentType(p + "." + e) == "text/csv"
    ensures e == "json" ==> ContentType(p + "." + e) == "application/json"
    ensures e == "xml" ==> ContentType(p + "." + e) == "application/xml"
    ensures e == "txt" ==> ContentType(p + "." + e) == "application/octet-stream"
  {
    var name := p + "." + e;
    DotExtension(p, e);
    if e == "csv" {
      assert "." + e == ".csv";
    } else if e == "json" {
      assert "." + e == ".json";
    } else if e == "xml" {
      assert "." + e == ".xml";
    } else if e == "txt" {
      assert "." + e == ".txt";
      EndsWithLast(name, ".txt");
      NotServedTyped(name);
    }
  }

  /** A name whose last char is not `v`, `n` or `l` has no typed ending. */
  lemma NotServedTyped(name: string)
    requires |name| > 0 && name[|name| - 1] !in {'v', 'n', 'l'}
    ensures ContentType(name) == "application/octet-stream"
  {
    EndsWithLast(name, ".csv");
    EndsWithLast(name, ".json");
    EndsWithLast(name, ".xml");
  }

  lemma DotExtension(p: string, e: string)
    ensures EndsWith(p + "." + e, "." + e)
  {
    var name := p + "." + e;
    assert name == p + ("." + e);
    assert name[|p|..] == "." + e;
  }

  /** A converted file is served with the type of its target format, as the
      output name ends with the lower-cased target. TXT output has no type
      of its own. */
  lemma ContentTypeOfOutput(fileName: string, targetFormat: string)
    ensures Lower(targetFormat) == "csv" ==> ContentType(Conversion.OutputFileName(fileName, targetFormat)) == "text/csv"
    ensures Lower(targetFormat) == "json" ==> ContentType(Conversion.OutputFileName(fileName, targetFormat)) == "application/json"
    ensures Lower(targetFormat) == "xml" ==> ContentType(Conversion.OutputFileName(fileName, targetFormat)) == "application/xml"
    ensures Lower(targetFormat) == "txt" ==>
              ContentType(Conversion.OutputFileName(fileName, targetFormat)) == "application/octet-stream"
  {
    ContentTypeOfExtension(BaseName(fileName), Lower(targetFormat));
  }

  // ---------------------------------------------------------------------
  // Source-format detection (`uploadFile`).

  /** An empty (or absent) source format is replaced by the lower-cased
      extension of the uploaded file's name; a given one is kept as it is. */
  function DetectSourceFormat(sourceFormat: string, originalFilename: string): (r: string)
    ensures sourceFormat != [] ==> r == sourceFormat
    ensures sourceFormat == [] ==> |r| == |Extension(originalFilename)| && '.' !in r && '/' !in r
    ensures sourceFormat == [] ==>
              forall i :: 0 <= i < |r| ==>
                && !('A' <= r[i] <= 'Z')
                && (r[i] == Extension(originalFilename)[i]
                    || ('A' <= Extension(originalFilename)[i] <= 'Z'
                        && r[i] as int == Extension(originalFilename)[i] as int + 32))
  {
    if sourceFormat == [] then Lower(Extension(originalFilename)) else sourceFormat
  }

  /** The format detected for `name.ext` is `ext` lower-cased, when neither
      part holds a path separator and `ext` holds no `.`. */
  lemma DetectFromBuiltName(id: string, ext: string)
    requires '/' !in id && '\\' !in id
    requires '.' !in ext && '/' !in ext && '\\' !in ext
    ensures DetectSourceFormat([], id + "." + ext) == Lower(ext)
  {
    BuiltNameParts(id, ext);
  }

  // ---------------------------------------------------------------------
  // The task lifecycle.

  class ConversionController {
    const tasks: TaskService

    constructor (tasks: TaskService)
      ensures this.tasks == tasks
    {
      this.tasks := tasks;
    }

    /** `processFileAsync`: `processing`, then the conversion, then
        `completed:` with the output name when it returns or `error:` with
        the message when it throws. The conversion's outcome is returned
        for the contract only. */
    method ProcessFileAsync(taskId: string, fileName: string, sourceFormat: string, targetFormat: string,
                            file: Conversion.SourceFile, parse: Formats.JsonParser, hadoop: Conversion.HadoopRun)
      returns (ghost outcome: Result<Conversion.Converted, string>)
      modifies tasks
      ensures Conversion.ConvertOutcome(fileName, sourceFormat, targetFormat, file, parse, hadoop, outcome)
      ensures tasks.taskStatus.Keys == old(tasks.taskStatus).Keys + {taskId}
      ensures forall other :: other != taskId ==> tasks.GetStatus(other) == old(tasks.GetStatus(other))
      ensures outcome.Success? ==> DecodeStatus(tasks.GetStatus(taskId)) == CompletedView(outcome.value.outputFileName)
      ensures outcome.Failure? ==> DecodeStatus(tasks.GetStatus(taskId)) == ErrorView(outcome.error)
    {
      tasks.SetStatus(taskId, "processing");
      var r, _ := Conversion.ConvertFile(fileName, sourceFormat, targetFormat, file, parse, hadoop);
      outcome := r;
      match r
      case Success(converted) =>
        tasks.SetCompleted(taskId, converted.outputFileName);
        DecodeWritten(converted.outputFileName, "");
      case Failure(message) =>
        tasks.SetError(taskId, message);
        DecodeWritten("", message);
    }

    /** `uploadFile`: detect the source format, save the file, register the
        task as `uploaded` under a fresh id and run the conversion of the
        saved file with the detected format at once. A failed save is
        reported and registers nothing. The conversion's outcome is
        returned for the contract only. */
    method UploadFile(originalFilename: string, sourceFormat: string, targetFormat: string,
                      saved: Result<string, string>, taskId: string,
                      file: Conversion.SourceFile, parse: Formats.JsonParser, hadoop: Conversion.HadoopRun)
      returns (r: Result<(string, string), string>, ghost outcome: Result<Conversion.Converted, string>)
      modifies tasks
      ensures saved.Failure? ==> r == Failure(saved.error) && tasks.taskStatus == old(tasks.taskStatus)
      ensures saved.Success? ==>
                && r == Success((taskId, saved.value))
                && Conversion.ConvertOutcome(saved.value, DetectSourceFormat(sourceFormat, originalFilename),
                                             targetFormat, file, parse, hadoop, outcome)
                && tasks.taskStatus.Keys == old(tasks.taskStatus).Keys + {taskId}
                && (forall other :: other != taskId ==> tasks.GetStatus(other) == old(tasks.GetStatus(other)))
                && (outcome.Success? ==> DecodeStatus(tasks.GetStatus(taskId)) == CompletedView(outcome.value.outputFileName))
                && (outcome.Failure? ==> DecodeStatus(tasks.GetStatus(taskId)) == ErrorView(outcome.error))
    {
      var format := DetectSourceFormat(sourceFormat, originalFilename);
      if saved.Failure? {
        return Failure(saved.error), Failure(saved.error);
      }
      var fileName := saved.value;
      tasks.SetStatus(taskId, "uploaded");
      outcome := ProcessFileAsync(taskId, fileName, format, targetFormat, file, parse, hadoop);
      r := Success((taskId, fileName));
    }
  }
}
