/** BatchJobService: the registry of batch jobs, adding uploaded files to a
    job, running the conversion of every item in order, and removing
    finished jobs. The converter is a function given by the caller that
    either returns or fails with a message; the clock is a counter. */
module BatchService {
  import opened Common
  import opened Text
  import opened BatchModel
  import Conversion

  const NotFoundPrefix: string := "Batch job not found: "

  /** `ConversionService.convertFile(storedFilename, sourceFormat, targetFormat)`:
      the output name, or the message of the exception it throws. */
  type Converter = (string, string, string) -> Result<string, string>

  /** `new Date()`: each reading returns the current time and advances it. */
  class Clock {
    var now: int

    constructor (start: int)
      ensures now == start
    {
      now := start;
    }

    method Now() returns (t: int)
      modifies this
      ensures t == old(now) && now == old(now) + 1
    {
      t := now;
      now := now + 1;
    }
  }

  /** The output name a batch records: the stored name's base name and the
      target format exactly as given. */
  function BatchOutputName(storedFilename: string, targetFormat: string): string
  {
    BaseName(storedFilename) + "." + targetFormat
  }

  /** The batch name agrees with the name the conversion itself writes
      exactly when the target format is already lower case. */
  lemma BatchOutputNameAgrees(storedFilename: string, targetFormat: string)
    ensures BatchOutputName(storedFilename, targetFormat) == Conversion.OutputFileName(storedFilename, targetFormat)
            <==> Lower(targetFormat) == targetFormat
  {
    var p := BaseName(storedFilename) + ".";
    assert BatchOutputName(storedFilename, targetFormat) == p + targetFormat;
    assert Conversion.OutputFileName(storedFilename, targetFormat) == p + Lower(targetFormat);
    if p + targetFormat == p + Lower(targetFormat) {
      assert targetFormat == (p + targetFormat)[|p|..];
      assert Lower(targetFormat) == (p + Lower(targetFormat))[|p|..];
    }
  }

  /** What `processItem` does to one item, from its fields `before` to its
      fields `after`: start and end times set, the identifying fields kept,
      and on success `completed` with the output name, on failure `failed`
      with the exception's message and no output name. */
  predicate ItemProcessed(before: BatchJobItem, after: BatchJobItem, targetFormat: string,
                          convert: Converter, start: int, end: int)
  {
    && after.id == before.id
    && after.originalFilename == before.originalFilename
    && after.storedFilename == before.storedFilename
    && after.sourceFormat == before.sourceFormat
    && after.startTime == Some(start)
    && after.endTime == Some(end)
    && match convert(before.storedFilename, before.sourceFormat, targetFormat)
       case Success(_) =>
         && after.status == ItemStatus.Completed
         && after.outputFilename == Some(BatchOutputName(before.storedFilename, targetFormat))
         && after.errorMessage == before.errorMessage
       case Failure(m) =>
         && after.status == ItemStatus.Failed
         && after.errorMessage == Some(m)
         && after.outputFilename == before.outputFilename
  }

  /** A processed item is `completed` or `failed`, and with a clock that
      did not go back its processing time is the non-negative difference. */
  lemma ProcessedSettled(before: BatchJobItem, after: BatchJobItem, targetFormat: string,
                         convert: Converter, start: int, end: int)
    requires ItemProcessed(before, after, targetFormat, convert, start, end)
    requires start <= end <= start + LongMax
    ensures after.status.IsTerminal()
    ensures after.ProcessingTimeMs() == end - start >= 0
  {
    ProcessingTimeExact(after);
  }

  /** The fields `processItem` leaves an item with, when the clock reads
      `start` at its start and `start + 1` at its end. */
  function ProcessedFields(before: BatchJobItem, targetFormat: string, convert: Converter, start: int): (r: BatchJobItem)
    ensures ItemProcessed(before, r, targetFormat, convert, start, start + 1)
  {
    var timed := before.(startTime := Some(start), endTime := Some(start + 1));
    match convert(before.storedFilename, before.sourceFormat, targetFormat)
    case Success(_) =>
      timed.(status := ItemStatus.Completed,
             outputFilename := Some(BatchOutputName(before.storedFilename, targetFormat)))
    case Failure(m) =>
      timed.(status := ItemStatus.Failed, errorMessage := Some(m))
  }

  /** `ItemProcessed` allows exactly one outcome, the one `ProcessedFields` computes. */
  lemma ItemProcessedUnique(before: BatchJobItem, after: BatchJobItem, targetFormat: string,
                            convert: Converter, start: int)
    ensures ItemProcessed(before, after, targetFormat, convert, start, start + 1)
            <==> after == ProcessedFields(before, targetFormat, convert, start)
  {
  }

  /** One turn of the loop of `processBatchJob`: an item and the clock
      reading when the turn starts, to the item after the turn. */
  type Step = (BatchJobItem, int) -> BatchJobItem

  /** The turn `processItem` performs for a job with this target format. */
  function Processor(targetFormat: string, convert: Converter): Step
  {
    (item: BatchJobItem, start: int) => ProcessedFields(item, targetFormat, convert, start)
  }

  /** The items after they are processed in order, the clock reading `t0`
      when the first one starts and advancing by two per item. */
  function ProcessedAll(before: seq<BatchJobItem>, step: Step, t0: int): (r: seq<BatchJobItem>)
    ensures |r| == |before|
  {
    if before == [] then []
    else [step(before[0], t0)] + ProcessedAll(before[1..], step, t0 + 2)
  }

  /** Item `k` is processed with the clock reading `t0 + 2 * k` at its start:
      each earlier item read the clock twice. */
  lemma {:induction false} ProcessedAllAt(before: seq<BatchJobItem>, step: Step, t0: int, k: nat)
    requires k < |before|
    ensures ProcessedAll(before, step, t0)[k] == step(before[k], t0 + 2 * k)
  {
    if k > 0 {
      ProcessedAllAt(before[1..], step, t0 + 2, k - 1);
    }
  }

  /** Processing one more item appends it, processed. */
  lemma {:induction false} ProcessedAllSnoc(before: seq<BatchJobItem>, x: BatchJobItem, step: Step, t0: int)
    ensures ProcessedAll(before + [x], step, t0) == ProcessedAll(before, step, t0) + [step(x, t0 + 2 * |before|)]
  {
    if before != [] {
      assert (before + [x])[1..] == before[1..] + [x];
      ProcessedAllSnoc(before[1..], x, step, t0 + 2);
    }
  }

  /** A turn that always ends `completed` or `failed` leaves every item so. */
  lemma {:induction false} ProcessedAllSettled(before: seq<BatchJobItem>, step: Step, t0: int)
    requires forall item, start :: step(item, start).status.IsTerminal()
    ensures forall k :: 0 <= k < |before| ==> ProcessedAll(before, step, t0)[k].status.IsTerminal()
  {
    if before != [] {
      ProcessedAllSettled(before[1..], step, t0 + 2);
    }
  }

  /** The items after the first `i` turns of the loop of `processBatchJob`:
      turn `j` processes item `j` with the clock reading `t0 + 2 * j`. */
  function Progressed(before: seq<BatchJobItem>, step: Step, t0: int, i: nat): (r: seq<BatchJobItem>)
    requires i <= |before|
    ensures |r| == |before|
  {
    if i == 0 then before
    else
      var p := Progressed(before, step, t0, i - 1);
      p[i - 1 := step(p[i - 1], t0 + 2 * (i - 1))]
  }

  /** One more turn processes the next item and leaves the others. */
  lemma ProgressedNext(before: seq<BatchJobItem>, step: Step, t0: int, i: nat)
    requires i < |before|
    ensures var p := Progressed(before, step, t0, i);
            Progressed(before, step, t0, i + 1) == p[i := step(p[i], t0 + 2 * i)]
  {
  }

  /** After `i` turns the first `i` items are processed and the rest untouched. */
  lemma {:induction false} ProgressedIsAll(before: seq<BatchJobItem>, step: Step, t0: int, i: nat)
    requires i <= |before|
    ensures Progressed(before, step, t0, i) == ProcessedAll(before[..i], step, t0) + before[i..]
  {
    if i > 0 {
      ProgressedIsAll(before, step, t0, i - 1);
      assert before[..i] == before[..i - 1] + [before[i - 1]];
      ProcessedAllSnoc(before[..i - 1], before[i - 1], step, t0);
    }
  }

  /** Once every item had its turn, the items are `ProcessedAll`. */
  lemma ProgressedDone(before: seq<BatchJobItem>, step: Step, t0: int)
    ensures Progressed(before, step, t0, |before|) == ProcessedAll(before, step, t0)
  {
    ProgressedIsAll(before, step, t0, |before|);
    assert before[..|before|] == before;
  }

  /** After processing every item is `completed` or `failed`, so the
      aggregate status no longer depends on the job's previous status. */
  lemma ProcessedAllAggregate(before: seq<BatchJobItem>, targetFormat: string, convert: Converter, t0: int,
                              a: JobStatus, b: JobStatus)
    ensures var statuses := StatusesOf(ProcessedAll(before, Processor(targetFormat, convert), t0));
            && Aggregate(statuses, a) == Aggregate(statuses, b)
            && Aggregate(statuses, a) in {JobStatus.Completed, JobStatus.CompletedWithErrors, JobStatus.Failed}
  {
    var step := Processor(targetFormat, convert);
    forall item, start
      ensures step(item, start).status.IsTerminal()
    {
      assert step(item, start) == ProcessedFields(item, targetFormat, convert, start);
    }
    ProcessedAllSettled(before, step, t0);
    AggregateSettled(StatusesOf(ProcessedAll(before, step, t0)), a, b);
  }

  /** Whether `clearCompletedJobs` removes a job with this status. */
  predicate IsCleared(status: JobStatus)
  {
    status == JobStatus.Completed || status == JobStatus.Failed
  }

  class BatchJobService {
    var batchJobs: map<string, BatchJob>
    /** The upload directory: stored file name to content. */
    var uploads: map<string, string>

    constructor ()
      ensures batchJobs == map[] && uploads == map[]
    {
      batchJobs := map[];
      uploads := map[];
    }

    /** `createBatchJob`: a new pending job registered under its fresh id. */
    method CreateBatchJob(targetFormat: string, jobId: string, clock: Clock) returns (job: BatchJob)
      modifies this, clock
      ensures fresh(job)
      ensures job.id == jobId && job.targetFormat == targetFormat && job.creationTime == old(clock.now)
      ensures job.status == JobStatus.Pending && job.items == []
      ensures batchJobs == old(batchJobs)[jobId := job] && uploads == old(uploads)
      ensures GetBatchJob(jobId) == Some(job)
    {
      var created := clock.Now();
      job := new BatchJob(jobId, targetFormat, created);
      batchJobs := batchJobs[job.id := job];
    }

    /** `getBatchJob`: the job registered under the id, `null` when there is none. */
    function GetBatchJob(batchJobId: string): (r: Option<BatchJob>)
      reads this
      ensures r.None? <==> batchJobId !in batchJobs
      ensures r.Some? ==> r.value == batchJobs[batchJobId]
    {
      if batchJobId in batchJobs then Some(batchJobs[batchJobId]) else None
    }

    /** `addFileToBatchJob`: an unknown job is an error and changes nothing.
        Otherwise the file is stored under a fresh id and the original
        extension; if that name is taken the copy fails and nothing is
        added, else one pending item is appended to the job. */
    method AddFileToBatchJob(batchJobId: string, originalFilename: string, content: string,
                             uploadId: string, itemId: string)
      returns (r: Result<BatchJobItem, string>)
      modifies this, if batchJobId in batchJobs then {batchJobs[batchJobId]} else {}
      ensures batchJobs == old(batchJobs)
      ensures batchJobId !in batchJobs ==> r == Failure(NotFoundPrefix + batchJobId) && uploads == old(uploads)
      ensures batchJobId in batchJobs ==>
                var job := batchJobs[batchJobId];
                var sourceFormat := Extension(originalFilename);
                var storedFilename := uploadId + "." + sourceFormat;
                && job.id == old(job.id) && job.creationTime == old(job.creationTime)
                && job.status == old(job.status) && job.targetFormat == old(job.targetFormat)
                && if storedFilename in old(uploads) then
                     && r == Failure(storedFilename)
                     && job.items == old(job.items) && uploads == old(uploads)
                   else
                     && r == Success(NewItem(itemId, originalFilename, storedFilename, sourceFormat))
                     && job.items == old(job.items) + [r.value]
                     && uploads == old(uploads)[storedFilename := content]
    {
      if batchJobId !in batchJobs {
        return Failure(NotFoundPrefix + batchJobId);
      }
      var job := batchJobs[batchJobId];
      var sourceFormat := Extension(originalFilename);
      var storedFilename := uploadId + "." + sourceFormat;
      if storedFilename in uploads {
        // Files.copy refuses to overwrite an existing file
        return Failure(storedFilename);
      }
      uploads := uploads[storedFilename := content];
      var item := NewItem(itemId, originalFilename, storedFilename, sourceFormat);
      job.AddItem(item);
      r := Success(item);
    }

    /** `processItem`: `processing` with a start time, then the converter,
        then `completed` with the output name or `failed` with the message,
        and in every case an end time. The clock is read twice. */
    method ProcessItem(job: BatchJob, item: BatchJobItem, convert: Converter, clock: Clock)
      returns (processed: BatchJobItem)
      modifies clock
      ensures ItemProcessed(item, processed, job.targetFormat, convert, old(clock.now), old(clock.now) + 1)
      ensures processed == ProcessedFields(item, job.targetFormat, convert, old(clock.now))
      ensures clock.now == old(clock.now) + 2
    {
      processed := item.(status := ItemStatus.Processing);
      var start := clock.Now();
      processed := processed.(startTime := Some(start));
      var outputFilename := BatchOutputName(processed.storedFilename, job.targetFormat);
      var result := convert(processed.storedFilename, processed.sourceFormat, job.targetFormat);
      match result {
        case Success(_) =>
          processed := processed.(outputFilename := Some(outputFilename));
          processed := processed.(status := ItemStatus.Completed);
        case Failure(message) =>
          processed := processed.(status := ItemStatus.Failed);
          processed := processed.(errorMessage := Some(message));
      }
      var end := clock.Now();
      processed := processed.(endTime := Some(end));
    }

    /** `processBatchJob`: an unknown id changes nothing. Otherwise the job
        becomes `processing`, and each item in list order is processed and
        followed by `updateStatus`. Afterwards every item is `completed` or
        `failed`; the job has the status the aggregation rule gives, except
        that a job with no items stays `processing`. */
    method ProcessBatchJob(batchJobId: string, convert: Converter, clock: Clock)
      modifies if batchJobId in batchJobs then {batchJobs[batchJobId]} else {}
      modifies clock
      ensures batchJobs == old(batchJobs) && uploads == old(uploads)
      ensures batchJobId !in batchJobs ==> clock.now == old(clock.now)
      ensures batchJobId in batchJobs ==>
                var job := batchJobs[batchJobId];
                && job.id == old(job.id) && job.creationTime == old(job.creationTime)
                && job.targetFormat == old(job.targetFormat)
                && job.items == ProcessedAll(old(job.items), Processor(job.targetFormat, convert), old(clock.now))
                && clock.now == old(clock.now) + 2 * |job.items|
                && (job.items == [] ==> job.status == JobStatus.Processing)
                && (job.items != [] ==> job.status == Aggregate(StatusesOf(job.items), JobStatus.Processing))
    {
      if batchJobId !in batchJobs {
        return;
      }
      var job := batchJobs[batchJobId];
      job.SetStatus(JobStatus.Processing);
      ProcessItems(job, convert, clock);
    }

    /** The loop of `processBatchJob`: each item in list order is processed
        and followed by `updateStatus`. */
    method ProcessItems(job: BatchJob, convert: Converter, clock: Clock)
      requires job.status == JobStatus.Processing
      modifies job, clock
      ensures job.id == old(job.id) && job.creationTime == old(job.creationTime)
      ensures job.targetFormat == old(job.targetFormat)
      ensures job.items == ProcessedAll(old(job.items), Processor(job.targetFormat, convert), old(clock.now))
      ensures clock.now == old(clock.now) + 2 * |job.items|
      ensures job.items == [] ==> job.status == JobStatus.Processing
      ensures job.items != [] ==> job.status == Aggregate(StatusesOf(job.items), JobStatus.Processing)
    {
      ghost var before := job.items;
      ghost var target := job.targetFormat;
      ghost var id, created := job.id, job.creationTime;
      ghost var t0 := clock.now;
      ghost var step := Processor(target, convert);
      ghost var prev := job.status;
      for i := 0 to |job.items|
        invariant job.id == id && job.creationTime == created
        invariant job.targetFormat == target && clock.now == t0 + 2 * i
        invariant job.items == Progressed(before, step, t0, i)
        invariant job.status == if i == 0 then JobStatus.Processing else Aggregate(StatusesOf(job.items), prev)
      {
        prev := job.status;
        ProcessTurn(job, i, before, t0, convert, clock);
      }
      ProgressedDone(before, step, t0);
      if before != [] {
        ProcessedAllAggregate(before, target, convert, t0, prev, JobStatus.Processing);
      }
    }

    /** One turn of that loop: item `i` is processed, then `updateStatus`. */
    method ProcessTurn(job: BatchJob, i: nat, ghost before: seq<BatchJobItem>, ghost t0: int,
                       convert: Converter, clock: Clock)
      requires i < |before| && clock.now == t0 + 2 * i
      requires job.items == Progressed(before, Processor(job.targetFormat, convert), t0, i)
      modifies job, clock
      ensures job.id == old(job.id) && job.creationTime == old(job.creationTime)
      ensures job.targetFormat == old(job.targetFormat) && clock.now == t0 + 2 * (i + 1)
      ensures job.items == Progressed(before, Processor(job.targetFormat, convert), t0, i + 1)
      ensures job.status == Aggregate(StatusesOf(job.items), old(job.status))
    {
      ghost var step := Processor(job.targetFormat, convert);
      var processed := ProcessItem(job, job.items[i], convert, clock);
      assert processed == step(job.items[i], t0 + 2 * i);
      ProgressedNext(before, step, t0, i);
      job.items := job.items[i := processed];
      job.UpdateStatus();
    }

    /** `clearCompletedJobs`: removes exactly the jobs that are `completed` or
        `failed`; `completed_with_errors`, `pending` and `processing` jobs stay. */
    method ClearCompletedJobs()
      modifies this
      ensures forall k :: k in batchJobs <==> k in old(batchJobs) && !IsCleared(old(batchJobs)[k].status)
      ensures forall k :: k in batchJobs ==> batchJobs[k] == old(batchJobs)[k]
      ensures uploads == old(uploads)
    {
      var keys := batchJobs.Keys;
      while keys != {}
        invariant keys <= old(batchJobs).Keys
        invariant forall k :: k in batchJobs <==>
                    k in old(batchJobs) && (k in keys || !IsCleared(old(batchJobs)[k].status))
        invariant forall k :: k in batchJobs ==> batchJobs[k] == old(batchJobs)[k]
        invariant uploads == old(uploads)
        decreases keys
      {
        var k :| k in keys;
        if IsCleared(batchJobs[k].status) {
          batchJobs := batchJobs - {k};
        }
        keys := keys - {k};
      }
    }
  }
}
