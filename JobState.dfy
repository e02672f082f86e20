/** The invariant of a run of the translation job: the state a run has
    reached follows from its job and the steps executed so far. */
module JobState {
  import opened Wrappers
  import opened TranslateJob

  /** The executed steps are the start of the schedule, and the memo
      holds a result for exactly those. */
  ghost predicate ScheduleOk(job: Job, executed: seq<StepId>, memo: map<StepId, StepValue>) {
    && executed <= job.Steps()
    && (forall id :: id in memo <==> id in executed)
  }

  /** The first two steps recorded what the store held when the event arrived. */
  ghost predicate SetupOk(job: Job, k: nat, memo: map<StepId, StepValue>) {
    && (k >= 1 ==> job.orderId in job.initOrders && GetOrder in memo && memo[GetOrder] == OrderValue(job.Snapshot()))
    && (k >= 2 ==> OriginalContent(job.initFiles, job.orderId).Some?
                   && GetFileContent in memo && memo[GetFileContent] == TextValue(job.Source()))
  }

  /** Each recorded first pass and review was asked for with the recorded
      inputs and produced the recorded text. */
  ghost predicate CallsOk(job: Job, memo: map<StepId, StepValue>, calls: map<StepId, Call>) {
    DraftsOk(job, memo, calls) && EditsOk(job, memo, calls)
  }

  ghost predicate DraftsOk(job: Job, memo: map<StepId, StepValue>, calls: map<StepId, Call>) {
    var langs := job.Langs();
    forall i :: 0 <= i < |langs| && TranslateLanguage(i, langs[i]) in memo ==> DraftOk(job, memo, calls, i)
  }

  ghost predicate EditsOk(job: Job, memo: map<StepId, StepValue>, calls: map<StepId, Call>) {
    var langs := job.Langs();
    forall i :: 0 <= i < |langs| && EditorialReview(i, langs[i]) in memo ==> EditOk(job, memo, calls, i)
  }

  ghost predicate DraftOk(job: Job, memo: map<StepId, StepValue>, calls: map<StepId, Call>, i: nat)
    requires i < |job.Langs()|
  {
    var id := TranslateLanguage(i, job.Langs()[i]);
    && id in memo && id in calls
    && calls[id].request == TranslationPrompt(job.Snapshot(), job.Langs()[i], job.Source())
    && DraftText(calls[id].reply).Some?
    && memo[id] == TextValue(DraftText(calls[id].reply).value)
  }

  ghost predicate EditOk(job: Job, memo: map<StepId, StepValue>, calls: map<StepId, Call>, i: nat)
    requires i < |job.Langs()|
  {
    var id := EditorialReview(i, job.Langs()[i]);
    var draft := TextOf(memo, TranslateLanguage(i, job.Langs()[i]));
    && id in memo && id in calls
    && calls[id].request == EditorialPrompt(job.Snapshot(), job.Langs()[i], job.Source(), draft)
    && EditedText(calls[id].reply, draft).Some?
    && memo[id] == TextValue(EditedText(calls[id].reply, draft).value)
  }

  /** The store is the store when the event arrived changed by the
      executed steps. */
  ghost predicate StoreOk(job: Job, s: RunState) {
    && OrdersOk(job, s.orders, |s.executed|, s.stamp)
    && FilesOk(job, s.files, s.memo, |s.executed|)
    && OutboxOk(job, s.outbox, |s.executed|)
  }

  ghost predicate OrdersOk(job: Job, orders: map<string, Order>, k: nat, stamp: string) {
    orders == OrdersAfter(job.initOrders, job.orderId, |job.Langs()|, k, stamp)
  }

  ghost predicate FilesOk(job: Job, files: seq<FileRow>, memo: map<StepId, StepValue>, k: nat) {
    files == job.initFiles + Rows(job.orderId, job.Langs(), memo, SavedCount(|job.Langs()|, k))
  }

  ghost predicate OutboxOk(job: Job, outbox: seq<Email>, k: nat) {
    outbox == job.initOutbox + EmailsAfter(|job.Langs()|, k, job.Customer(), job.Admin())
  }

  ghost predicate Consistent(job: Job, s: RunState) {
    && ScheduleOk(job, s.executed, s.memo)
    && SetupOk(job, |s.executed|, s.memo)
    && CallsOk(job, s.memo, s.calls)
    && StoreOk(job, s)
  }

  /** When the step `id`, reached with the recorded results `memo`, throws:
      the order or its single original row is missing, or the model's
      reply has no first block. The other steps never throw. */
  ghost predicate Throws(job: Job, memo: map<StepId, StepValue>, id: StepId, llm: Request -> Reply)
    ensures Throws(job, memo, id, llm) ==>
              id.GetOrder? || id.GetFileContent? || id.TranslateLanguage? || id.EditorialReview?
  {
    match id
    case GetOrder => job.orderId !in job.initOrders
    case GetFileContent => OriginalContent(job.initFiles, job.orderId).None?
    case TranslateLanguage(_, lang) =>
      DraftText(llm(TranslationPrompt(job.Snapshot(), lang, job.Source()))).None?
    case EditorialReview(i, lang) =>
      var draft := TextOf(memo, TranslateLanguage(i, lang));
      EditedText(llm(EditorialPrompt(job.Snapshot(), lang, job.Source(), draft)), draft).None?
    case _ => false
  }

  /** A run in state `s` stopped at `step`: it is the first step of the
      schedule without a recorded result, and it throws. */
  ghost predicate StoppedAt(job: Job, s: RunState, step: StepId, llm: Request -> Reply) {
    && |s.executed| < |job.Steps()| && step == job.Steps()[|s.executed|]
    && Throws(job, s.memo, step, llm)
  }
}
