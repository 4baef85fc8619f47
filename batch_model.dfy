/** The batch job and its items: the item and job statuses, the counting and
    aggregation rule of `BatchJob.updateStatus`, the item record and the job object. */
module BatchModel {
  import opened Common

  /** The statuses an item is given: `pending`, `processing`, `completed`, `failed`. */
  datatype ItemStatus = Pending | Processing | Completed | Failed
  {
    predicate IsTerminal()
    {
      this == ItemStatus.Completed || this == ItemStatus.Failed
    }
  }

  /** The statuses a job is given: `pending`, `processing`, `completed`,
      `completed_with_errors`, `failed`. */
  datatype JobStatus = Pending | Processing | Completed | CompletedWithErrors | Failed

  /** The number of items with status `x` (a stream filter and count). */
  function CountOf(statuses: seq<ItemStatus>, x: ItemStatus): nat
  {
    if statuses == [] then 0
    else (if statuses[0] == x then 1 else 0) + CountOf(statuses[1..], x)
  }

  /** `updateStatus`: the new job status from the item statuses and the
      current job status. When all items are `completed` or `failed` (which
      an empty list is), the job is `failed` if every item failed,
      `completed_with_errors` if some did, `completed` otherwise; when only
      some are, it is `processing`; when none is, it keeps its status. */
  function Aggregate(statuses: seq<ItemStatus>, current: JobStatus): (r: JobStatus)
    ensures r != current ==> r != JobStatus.Pending
    ensures statuses == [] ==> r == JobStatus.Failed
  {
    var total := |statuses|;
    var completed := CountOf(statuses, ItemStatus.Completed);
    var failed := CountOf(statuses, ItemStatus.Failed);
    if completed + failed == total then
      if failed == total then JobStatus.Failed
      else if failed > 0 then JobStatus.CompletedWithErrors
      else JobStatus.Completed
    else if completed > 0 || failed > 0 then JobStatus.Processing
    else current
  }

  /** The same rule stated over the items themselves rather than over counts. */
  function AggregateByItems(statuses: seq<ItemStatus>, current: JobStatus): JobStatus
  {
    if forall i :: 0 <= i < |statuses| ==> statuses[i].IsTerminal() then
      if forall i :: 0 <= i < |statuses| ==> statuses[i] == ItemStatus.Failed then JobStatus.Failed
      else if exists i :: 0 <= i < |statuses| && statuses[i] == ItemStatus.Failed then JobStatus.CompletedWithErrors
      else JobStatus.Completed
    else if exists i :: 0 <= i < |statuses| && statuses[i].IsTerminal() then JobStatus.Processing
    else current
  }

  /** No item is counted twice: completed and failed together never exceed the total. */
  lemma {:induction false} CountBound(statuses: seq<ItemStatus>)
    ensures CountOf(statuses, ItemStatus.Completed) + CountOf(statuses, ItemStatus.Failed) <= |statuses|
    decreases |statuses|
  {
    if statuses != [] {
      CountBound(statuses[1..]);
    }
  }

  /** A count is zero exactly when no item has that status. */
  lemma {:induction false} CountZero(statuses: seq<ItemStatus>, x: ItemStatus)
    ensures CountOf(statuses, x) == 0 <==> forall i :: 0 <= i < |statuses| ==> statuses[i] != x
    decreases |statuses|
  {
    if statuses != [] {
      CountZero(statuses[1..], x);
      assert forall i :: 1 <= i < |statuses| ==> statuses[i] == statuses[1..][i - 1];
    }
  }

  /** A count equals the total exactly when every item has that status. */
  lemma {:induction false} CountAll(statuses: seq<ItemStatus>, x: ItemStatus)
    ensures CountOf(statuses, x) == |statuses| <==> forall i :: 0 <= i < |statuses| ==> statuses[i] == x
    decreases |statuses|
  {
    if statuses != [] {
      CountAll(statuses[1..], x);
      CountLe(statuses[1..], x);
      assert forall i :: 1 <= i < |statuses| ==> statuses[i] == statuses[1..][i - 1];
    }
  }

  lemma {:induction false} CountLe(statuses: seq<ItemStatus>, x: ItemStatus)
    ensures CountOf(statuses, x) <= |statuses|
    decreases |statuses|
  {
    if statuses != [] {
      CountLe(statuses[1..], x);
    }
  }

  /** `isCompleted`: the completed and failed counts add up to the total
      exactly when every item is `completed` or `failed`. */
  lemma {:induction false} AllTerminal(statuses: seq<ItemStatus>)
    ensures CountOf(statuses, ItemStatus.Completed) + CountOf(statuses, ItemStatus.Failed) == |statuses|
            <==> forall i :: 0 <= i < |statuses| ==> statuses[i].IsTerminal()
    decreases |statuses|
  {
    if statuses != [] {
      AllTerminal(statuses[1..]);
      CountBound(statuses[1..]);
      assert forall i :: 1 <= i < |statuses| ==> statuses[i] == statuses[1..][i - 1];
    }
  }

  /** Some item is `completed` or `failed` exactly when one of the two counts is positive. */
  lemma SomeTerminal(statuses: seq<ItemStatus>)
    ensures (CountOf(statuses, ItemStatus.Completed) > 0 || CountOf(statuses, ItemStatus.Failed) > 0)
            <==> exists i :: 0 <= i < |statuses| && statuses[i].IsTerminal()
  {
    CountZero(statuses, ItemStatus.Completed);
    CountZero(statuses, ItemStatus.Failed);
  }

  /** The count-based rule of `updateStatus` and its meaning over the items agree. */
  lemma AggregateMeaning(statuses: seq<ItemStatus>, current: JobStatus)
    ensures Aggregate(statuses, current) == AggregateByItems(statuses, current)
  {
    AllTerminal(statuses);
    SomeTerminal(statuses);
    CountAll(statuses, ItemStatus.Failed);
    CountZero(statuses, ItemStatus.Failed);
  }

  /** An empty job aggregates to `failed`. */
  lemma AggregateEmpty(current: JobStatus)
    ensures Aggregate([], current) == JobStatus.Failed
  {
  }

  /** Once every item is terminal the current status no longer matters. */
  lemma AggregateSettled(statuses: seq<ItemStatus>, a: JobStatus, b: JobStatus)
    requires forall i :: 0 <= i < |statuses| ==> statuses[i].IsTerminal()
    ensures Aggregate(statuses, a) == Aggregate(statuses, b)
    ensures Aggregate(statuses, a) in {JobStatus.Completed, JobStatus.CompletedWithErrors, JobStatus.Failed}
  {
    AllTerminal(statuses);
  }

  /** Applying the rule twice to the same items changes nothing. */
  lemma AggregateIdempotent(statuses: seq<ItemStatus>, current: JobStatus)
    ensures Aggregate(statuses, Aggregate(statuses, current)) == Aggregate(statuses, current)
  {
  }

  // ---------------------------------------------------------------------
  // Timestamps: `Date.getTime()` is a 64-bit millisecond count.

  const LongMin: int := -0x8000_0000_0000_0000
  const LongMax: int := 0x7FFF_FFFF_FFFF_FFFF

  /** Java `long` arithmetic: the value reduced into the 64-bit range. */
  function WrapLong(x: int): (r: int)
    ensures LongMin <= r <= LongMax
    ensures LongMin <= x <= LongMax ==> r == x
  {
    (x - LongMin) % 0x1_0000_0000_0000_0000 + LongMin
  }

  // ---------------------------------------------------------------------
  // The item and the job.

  /** One uploaded file of a batch. Unset (`null`) fields are `None`; each
      setter is a record update such as `item.(status := s)`. */
  datatype BatchJobItem = BatchJobItem(
    id: string, originalFilename: string, storedFilename: string, sourceFormat: string,
    outputFilename: Option<string>, status: ItemStatus, errorMessage: Option<string>,
    startTime: Option<int>, endTime: Option<int>)
  {
    /** `getProcessingTimeMs`: zero unless both timestamps are set, otherwise
        the 64-bit difference of end and start, which is not clamped. */
    function ProcessingTimeMs(): (r: int)
      ensures LongMin <= r <= LongMax
      ensures startTime.None? || endTime.None? ==> r == 0
    {
      if startTime.Some? && endTime.Some? then WrapLong(endTime.value - startTime.value) else 0
    }
  }

  /** A new item: `pending`, with no output, error or timestamps yet. */
  function NewItem(id: string, originalFilename: string, storedFilename: string, sourceFormat: string): (r: BatchJobItem)
    ensures r.status == ItemStatus.Pending && !r.status.IsTerminal()
    ensures r.id == id && r.originalFilename == originalFilename
    ensures r.storedFilename == storedFilename && r.sourceFormat == sourceFormat
    ensures r.outputFilename.None? && r.errorMessage.None? && r.ProcessingTimeMs() == 0
  {
    BatchJobItem(id, originalFilename, storedFilename, sourceFormat, None, ItemStatus.Pending, None, None, None)
  }

  /** With both timestamps set and no overflow, the processing time is
      exactly their difference, so it is negative when the end is before
      the start. */
  lemma ProcessingTimeExact(item: BatchJobItem)
    requires item.startTime.Some? && item.endTime.Some?
    requires LongMin <= item.endTime.value - item.startTime.value <= LongMax
    ensures item.ProcessingTimeMs() == item.endTime.value - item.startTime.value
    ensures item.endTime.value < item.startTime.value ==> item.ProcessingTimeMs() < 0
  {
  }

  /** The statuses of a list of items, in list order. */
  function StatusesOf(items: seq<BatchJobItem>): (r: seq<ItemStatus>)
    ensures |r| == |items|
    ensures forall i :: 0 <= i < |items| ==> r[i] == items[i].status
  {
    if items == [] then [] else [items[0].status] + StatusesOf(items[1..])
  }

  /** A batch: a target format, a status and the items in upload order. */
  class BatchJob {
    var id: string
    var targetFormat: string
    var creationTime: int
    var status: JobStatus
    var items: seq<BatchJobItem>

    /** A pending job with no items. */
    constructor (id: string, targetFormat: string, creationTime: int)
      ensures this.id == id && this.targetFormat == targetFormat && this.creationTime == creationTime
      ensures status == JobStatus.Pending && items == []
    {
      this.id := id;
      this.targetFormat := targetFormat;
      this.creationTime := creationTime;
      status := JobStatus.Pending;
      items := [];
    }

    method SetStatus(status: JobStatus)
      modifies this
      ensures this.status == status
      ensures id == old(id) && targetFormat == old(targetFormat) && creationTime == old(creationTime)
      ensures items == old(items)
    {
      this.status := status;
    }

    /** `addItem`: appends at the end, the earlier items staying where they are. */
    method AddItem(item: BatchJobItem)
      modifies this
      ensures items == old(items) + [item]
      ensures TotalItems() == old(TotalItems()) + 1
      ensures id == old(id) && targetFormat == old(targetFormat) && creationTime == old(creationTime)
      ensures status == old(status)
    {
      items := items + [item];
    }

    function TotalItems(): nat
      reads this
    {
      |items|
    }

    function CompletedItems(): nat
      reads this
    {
      CountOf(StatusesOf(items), ItemStatus.Completed)
    }

    /** The failed items; together with the completed ones never more than the total. */
    function FailedItems(): (r: nat)
      reads this
      ensures CompletedItems() + r <= TotalItems()
    {
      CountBound(StatusesOf(items));
      CountOf(StatusesOf(items), ItemStatus.Failed)
    }

    /** `isCompleted`: every item is `completed` or `failed`. */
    function IsCompleted(): (b: bool)
      reads this
      ensures b <==> forall i :: 0 <= i < |items| ==> items[i].status.IsTerminal()
    {
      AllTerminal(StatusesOf(items));
      CompletedItems() + FailedItems() == TotalItems()
    }

    /** `updateStatus`: sets the status by the aggregation rule and changes
        nothing else. */
    method UpdateStatus()
      modifies this
      ensures status == Aggregate(StatusesOf(items), old(status))
      ensures id == old(id) && targetFormat == old(targetFormat) && creationTime == old(creationTime)
      ensures items == old(items)
    {
      if IsCompleted() {
        if FailedItems() == TotalItems() {
          status := JobStatus.Failed;
        } else if FailedItems() > 0 {
          status := JobStatus.CompletedWithErrors;
        } else {
          status := JobStatus.Completed;
        }
      } else if CompletedItems() > 0 || FailedItems() > 0 {
        status := JobStatus.Processing;
      }
    }
  }
}
