/** The handler of the translation job: one object per run, whose methods
    are the steps of the run and whose state is the store, the outbox and
    the memo of recorded step results.

    Every attempt of the handler replays the steps that already have a
    recorded value and executes the first one that has none; a step that
    fails ends the attempt, and a later attempt (a retry) carries on from
    there. The language model is a function parameter of each attempt,
    the clock a string parameter. */
module JobWorkflow {
  import opened Wrappers
  import opened TranslateJob
  import opened JobState
  import opened JobSteps

  // ---------------------------------------------------------------------
  // The workflow

  /** Why an attempt stopped. */
  datatype Failure = OrderNotFound | OriginalFileNotFound | ModelFailed

  /** The result of an attempt: the handler's return value, or the step
      that threw. */
  datatype Outcome = Finished(orderId: string, languages: seq<string>) | Failed(step: StepId, reason: Failure)

  /** The error a step throws. */
  function ReasonOf(id: StepId): (f: Failure)
    ensures f == OrderNotFound <==> id == GetOrder
    ensures f == OriginalFileNotFound <==> id == GetFileContent
  {
    match id
    case GetOrder => OrderNotFound
    case GetFileContent => OriginalFileNotFound
    case _ => ModelFailed
  }

  /** One run of the workflow for an order: the event's order and
      addresses, and the state the run changes. */
  class Workflow {
    const orderId: string
    const appUrl: string
    const adminEmail: string
    /** The event's order and addresses, and the store as the event found it. */
    ghost const job: Job
    /** The `orders` and `files` tables, the emails sent, the runtime's
        memo of step results, and the log of executed steps, model calls
        and the completion time written. */
    var st: RunState

    ghost predicate Valid()
      reads this
    {
      && job.orderId == orderId && job.appUrl == appUrl && job.adminEmail == adminEmail
      && Consistent(job, st)
    }

    /** The workflow of an event for `orderId`, over the store as it is. */
    constructor (orderId: string, appUrl: string, adminEmail: string,
                 orders: map<string, Order>, files: seq<FileRow>, outbox: seq<Email>)
      ensures Valid() && st == RunState(orders, files, outbox, map[], [], map[], "")
      ensures job == Job(orderId, appUrl, adminEmail, orders, files, outbox)
    {
      this.orderId, this.appUrl, this.adminEmail := orderId, appUrl, adminEmail;
      job := Job(orderId, appUrl, adminEmail, orders, files, outbox);
      st := RunState(orders, files, outbox, map[], [], map[], "");
      new;
      assert Rows(orderId, job.Langs(), map[], 0) == [];
    }

    /** Step 'get-order': the order row, or `None` when there is none. */
    method FetchOrder() returns (order: Option<Order>)
      requires Valid()
      modifies this
      ensures Valid()
      ensures order.Some? ==> order.value == job.Snapshot()
      ensures order.None? <==> old(|st.executed|) == 0 && orderId !in job.initOrders
      ensures old(|st.executed|) > 0 || order.None? ==> st == old(st)
      ensures old(|st.executed|) == 0 && order.Some? ==>
                st == old(st).(memo := old(st.memo)[GetOrder := OrderValue(order.value)],
                               executed := [GetOrder])
    {
      RecordedIff(job, st.executed, st.memo, 0);
      if GetOrder in st.memo {
        return Some(st.memo[GetOrder].order);
      }
      StoreAtStart(job, st);
      if orderId !in st.orders {
        return None;
      }
      order := Some(st.orders[orderId]);
      StepGetOrder(job, st);
      st := st.(memo := st.memo[GetOrder := OrderValue(st.orders[orderId])], executed := st.executed + [GetOrder]);
    }

    /** Step 'get-file-content': the content of the order's single
        original file, or `None` when there is not exactly one. */
    method FetchOriginal() returns (content: Option<string>)
      requires Valid() && |st.executed| >= 1
      modifies this
      ensures Valid()
      ensures content.Some? ==> content.value == job.Source()
      ensures content.None? <==> old(|st.executed|) == 1 && OriginalContent(job.initFiles, orderId).None?
      ensures old(|st.executed|) > 1 || content.None? ==> st == old(st)
      ensures old(|st.executed|) == 1 && content.Some? ==>
                st == old(st).(memo := old(st.memo)[GetFileContent := TextValue(content.value)],
                               executed := old(st.executed) + [GetFileContent])
    {
      RecordedIff(job, st.executed, st.memo, 1);
      if GetFileContent in st.memo {
        return Some(st.memo[GetFileContent].text);
      }
      StoreAtStart(job, st);
      var found := OriginalContent(st.files, orderId);
      if found.None? {
        return None;
      }
      content := found;
      StepGetFileContent(job, st);
      st := st.(memo := st.memo[GetFileContent := TextValue(found.value)], executed := st.executed + [GetFileContent]);
    }

    /** Step 'update-status-processing'. */
    method MarkProcessing()
      requires Valid() && |st.executed| >= 2
      modifies this
      ensures Valid()
      ensures old(|st.executed|) > 2 ==> st == old(st)
      ensures old(|st.executed|) == 2 ==>
                orderId in old(st.orders)
                && st == old(st).(orders := old(st.orders)[orderId := old(st.orders)[orderId].(status := Processing)],
                                  memo := old(st.memo)[UpdateStatusProcessing := Done],
                                  executed := old(st.executed) + [UpdateStatusProcessing])
    {
      RecordedIff(job, st.executed, st.memo, 2);
      if UpdateStatusProcessing in st.memo {
        return;
      }
      StepProcessing(job, st);
      st := st.(orders := st.orders[orderId := st.orders[orderId].(status := Processing)],
                memo := st.memo[UpdateStatusProcessing := Done],
                executed := st.executed + [UpdateStatusProcessing]);
    }

    /** Step `translate-<lang>` for the `i`-th language: the first pass's
        text, or `None` when the model's reply has no first block. */
    method TranslatePass(i: nat, order: Order, source: string, llm: Request -> Reply) returns (draft: Option<string>)
      requires Valid() && order == job.Snapshot() && source == job.Source()
      requires i < |order.languages| && |st.executed| >= 3 + 3 * i
      modifies this
      ensures Valid()
      ensures (draft, st) == TranslateOutcome(job, old(st), i, llm)
    {
      var id := TranslateLanguage(i, order.languages[i]);
      TranslateOutcomeKeeps(job, st, i, llm);
      if id in st.memo {
        return Some(TextOf(st.memo, id));
      }
      var request := TranslationPrompt(order, order.languages[i], source);
      var reply := llm(request);
      draft := DraftText(reply);
      if draft.None? {
        return;
      }
      st := st.(memo := st.memo[id := TextValue(draft.value)], calls := st.calls[id := Call(request, reply)],
                executed := st.executed + [id]);
    }

    /** Step `editorial-<lang>` for the `i`-th language, given the first
        pass's text: the reviewed text, or `None` when the model's reply
        has no first block. */
    method EditorialPass(i: nat, order: Order, source: string, draft: string, llm: Request -> Reply)
      returns (edited: Option<string>)
      requires Valid() && order == job.Snapshot() && source == job.Source()
      requires i < |order.languages| && |st.executed| >= 4 + 3 * i
      requires draft == TextOf(st.memo, TranslateLanguage(i, order.languages[i]))
      modifies this
      ensures Valid()
      ensures (edited, st) == EditorialOutcome(job, old(st), i, llm)
    {
      var id := EditorialReview(i, order.languages[i]);
      EditorialOutcomeKeeps(job, st, i, llm);
      if id in st.memo {
        return Some(TextOf(st.memo, id));
      }
      var request := EditorialPrompt(order, order.languages[i], source, draft);
      var reply := llm(request);
      edited := EditedText(reply, draft);
      if edited.None? {
        return;
      }
      st := st.(memo := st.memo[id := TextValue(edited.value)], calls := st.calls[id := Call(request, reply)],
                executed := st.executed + [id]);
    }

    /** Step `save-<lang>`: a translated row with the reviewed text as its
        content and the first pass's text as its original content. */
    method SaveRow(i: nat, order: Order, draft: string, edited: string)
      requires Valid() && order == job.Snapshot()
      requires i < |order.languages| && |st.executed| >= 5 + 3 * i
      requires draft == TextOf(st.memo, TranslateLanguage(i, order.languages[i]))
      requires edited == TextOf(st.memo, EditorialReview(i, order.languages[i]))
      modifies this
      ensures Valid()
      ensures st == SaveOutcome(job, old(st), i)
    {
      var id := SaveTranslation(i, order.languages[i]);
      SaveOutcomeKeeps(job, st, i);
      if id in st.memo {
        return;
      }
      st := st.(files := st.files + [FileRow(orderId, Translated, Some(order.languages[i]), edited, Some(draft))],
                memo := st.memo[id := Done], executed := st.executed + [id]);
    }

    /** Step 'update-status-completed', stamping the order with `now`. */
    method MarkCompleted(now: string)
      requires Valid() && |st.executed| >= 3 + 3 * |job.Langs()|
      modifies this
      ensures Valid()
      ensures old(|st.executed|) > 3 + 3 * |job.Langs()| ==> st == old(st)
      ensures old(|st.executed|) == 3 + 3 * |job.Langs()| ==>
                orderId in old(st.orders)
                && st == old(st).(orders := old(st.orders)[orderId := old(st.orders)[orderId].(status := Completed, completedAt := Some(now))],
                                  stamp := now,
                                  memo := old(st.memo)[UpdateStatusCompleted := Done],
                                  executed := old(st.executed) + [UpdateStatusCompleted])
    {
      RecordedIff(job, st.executed, st.memo, 3 + 3 * |job.Langs()|);
      if UpdateStatusCompleted in st.memo {
        return;
      }
      StepCompleted(job, st, now);
      st := st.(orders := st.orders[orderId := st.orders[orderId].(status := Completed, completedAt := Some(now))],
                stamp := now, memo := st.memo[UpdateStatusCompleted := Done],
                executed := st.executed + [UpdateStatusCompleted]);
    }

    /** Step 'send-completion-email': the customer's email with a download
        link per language. */
    method SendCompletion(order: Order)
      requires Valid() && order == job.Snapshot() && |st.executed| >= 4 + 3 * |order.languages|
      modifies this
      ensures Valid()
      ensures old(|st.executed|) > 4 + 3 * |order.languages| ==> st == old(st)
      ensures old(|st.executed|) == 4 + 3 * |order.languages| ==>
                st == old(st).(outbox := old(st.outbox) + [CompletionEmail(order, orderId, appUrl)],
                               memo := old(st.memo)[SendCompletionEmail := Done],
                               executed := old(st.executed) + [SendCompletionEmail])
    {
      RecordedIff(job, st.executed, st.memo, 4 + 3 * |order.languages|);
      if SendCompletionEmail in st.memo {
        return;
      }
      StepCustomerEmail(job, st);
      st := st.(outbox := st.outbox + [CompletionEmail(order, orderId, appUrl)],
                memo := st.memo[SendCompletionEmail := Done], executed := st.executed + [SendCompletionEmail]);
    }

    /** Step 'notify-admin'. */
    method SendAdminNotice(order: Order)
      requires Valid() && order == job.Snapshot() && |st.executed| >= 5 + 3 * |order.languages|
      modifies this
      ensures Valid()
      ensures old(|st.executed|) > 5 + 3 * |order.languages| ==> st == old(st)
      ensures old(|st.executed|) == 5 + 3 * |order.languages| ==>
                st == old(st).(outbox := old(st.outbox) + [AdminEmail(order, orderId, adminEmail)],
                               memo := old(st.memo)[NotifyAdmin := Done],
                               executed := old(st.executed) + [NotifyAdmin])
    {
      RecordedIff(job, st.executed, st.memo, 5 + 3 * |order.languages|);
      if NotifyAdmin in st.memo {
        return;
      }
      StepAdminEmail(job, st);
      st := st.(outbox := st.outbox + [AdminEmail(order, orderId, adminEmail)],
                memo := st.memo[NotifyAdmin := Done], executed := st.executed + [NotifyAdmin]);
    }

    /** The three steps of the `i`-th language: nothing when all of them
        have run, or the step that threw. */
    method TranslateOne(i: nat, order: Order, source: string, llm: Request -> Reply)
      returns (failed: Option<StepId>)
      requires Valid() && order == job.Snapshot() && source == job.Source()
      requires i < |order.languages| && |st.executed| >= 3 + 3 * i
      modifies this
      ensures Valid() && old(st.executed) <= st.executed
      ensures old(|st.executed|) >= 6 + 3 * i ==> st == old(st)
      ensures old(|st.executed|) <= 6 + 3 * i ==> |st.executed| <= 6 + 3 * i
      ensures failed.None? <==> |st.executed| >= 6 + 3 * i
      ensures failed.Some? ==> StoppedAt(job, st, failed.value, llm) && !failed.value.SaveTranslation?
                               && failed.value.index == i && failed.value.lang == order.languages[i]
    {
      ghost var s0 := st;
      TranslateOutcomeLog(job, st, i, llm);
      TranslateOutcomeText(job, st, i, llm);
      var draft := TranslatePass(i, order, source, llm);
      if draft.None? {
        TranslateOutcomeStops(job, s0, i, llm);
        return Some(TranslateLanguage(i, order.languages[i]));
      }
      failed := ReviewAndSave(i, order, source, draft.value, llm);
    }

    /** The last two steps of the `i`-th language, after its first pass. */
    method ReviewAndSave(i: nat, order: Order, source: string, draft: string, llm: Request -> Reply)
      returns (failed: Option<StepId>)
      requires Valid() && order == job.Snapshot() && source == job.Source()
      requires i < |order.languages| && |st.executed| >= 4 + 3 * i
      requires draft == TextOf(st.memo, TranslateLanguage(i, order.languages[i]))
      modifies this
      ensures Valid() && old(st.executed) <= st.executed
      ensures old(|st.executed|) >= 6 + 3 * i ==> st == old(st)
      ensures old(|st.executed|) <= 6 + 3 * i ==> |st.executed| <= 6 + 3 * i
      ensures failed.None? <==> |st.executed| >= 6 + 3 * i
      ensures failed.Some? ==> StoppedAt(job, st, failed.value, llm) && failed == Some(EditorialReview(i, order.languages[i]))
    {
      ghost var s0 := st;
      EditorialOutcomeLog(job, st, i, llm);
      EditorialOutcomeText(job, st, i, llm);
      var edited := EditorialPass(i, order, source, draft, llm);
      if edited.None? {
        EditorialOutcomeStops(job, s0, i, llm);
        return Some(EditorialReview(i, order.languages[i]));
      }
      SaveOutcomeLog(job, st, i);
      SaveRow(i, order, draft, edited.value);
      return None;
    }

    /** The steps of every language in order, up to the first that throws. */
    method TranslateAll(order: Order, source: string, llm: Request -> Reply) returns (failed: Option<StepId>)
      requires Valid() && order == job.Snapshot() && source == job.Source() && |st.executed| >= 3
      modifies this
      ensures Valid() && old(st.executed) <= st.executed
      ensures old(|st.executed|) >= 3 + 3 * |order.languages| ==> st == old(st)
      ensures old(|st.executed|) <= 3 + 3 * |order.languages| ==> |st.executed| <= 3 + 3 * |order.languages|
      ensures failed.None? <==> |st.executed| >= 3 + 3 * |order.languages|
      ensures failed.Some? ==> StoppedAt(job, st, failed.value, llm) && ReasonOf(failed.value) == ModelFailed
    {
      for i := 0 to |order.languages|
        invariant Valid() && old(st.executed) <= st.executed && |st.executed| >= 3 + 3 * i
        invariant old(|st.executed|) >= 3 + 3 * |order.languages| ==> st == old(st)
        invariant old(|st.executed|) <= 3 + 3 * |order.languages| ==> |st.executed| <= 3 + 3 * |order.languages|
      {
        failed := TranslateOne(i, order, source, llm);
        if failed.Some? {
          return;
        }
      }
      return None;
    }

    /** The closing steps: the order marked completed at `now` (unless an
        earlier attempt already did, at its own time), then the customer's
        email and the administrator's. None of them throws. */
    method Finish(order: Order, now: string)
      requires Valid() && order == job.Snapshot() && |st.executed| >= 3 + 3 * |order.languages|
      modifies this
      ensures Valid() && old(st.executed) <= st.executed && |st.executed| == |job.Steps()|
      ensures old(|st.executed|) == |job.Steps()| ==> st == old(st)
      ensures old(|st.executed|) <= 3 + 3 * |job.Langs()| ==> st.stamp == now
      ensures orderId in st.orders && st.orders[orderId] == order.(status := Completed, completedAt := Some(st.stamp))
    {
      MarkCompleted(now);
      SendCompletion(order);
      SendAdminNotice(order);
      FinishedStore(job, st);
    }

    /** One attempt of the handler: the steps in schedule order, each
        replayed from the memo when it has a recorded result and executed
        otherwise, until every step has run or one throws. A finished
        attempt returns the order and its languages; a failed one names
        the first step without a result, which threw. */
    method Run(llm: Request -> Reply, now: string) returns (outcome: Outcome)
      requires Valid()
      modifies this
      ensures Valid() && old(st.executed) <= st.executed
      ensures outcome.Finished? <==> |st.executed| == |job.Steps()|
      ensures outcome.Finished? ==> outcome == Finished(orderId, job.Langs())
      ensures outcome.Finished? ==>
                orderId in st.orders && st.orders[orderId] == job.Snapshot().(status := Completed, completedAt := Some(st.stamp))
      ensures outcome.Finished? && old(|st.executed|) <= 3 + 3 * |job.Langs()| ==> st.stamp == now
      ensures outcome.Failed? ==> StoppedAt(job, st, outcome.step, llm) && outcome.reason == ReasonOf(outcome.step)
      ensures old(|st.executed|) == |job.Steps()| ==> st == old(st)
    {
      var order := FetchOrder();
      if order.None? {
        return Failed(GetOrder, OrderNotFound);
      }
      var source := FetchOriginal();
      if source.None? {
        return Failed(GetFileContent, OriginalFileNotFound);
      }
      MarkProcessing();
      var failed := TranslateAll(order.value, source.value, llm);
      if failed.Some? {
        return Failed(failed.value, ModelFailed);
      }
      Finish(order.value, now);
      return Finished(orderId, order.value.languages);
    }
  }
}
