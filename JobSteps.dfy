/** Each step of the translation job keeps the invariant of its run, and
    what a state that keeps it tells about the store. */
module JobSteps {
  import opened Wrappers
  import opened TranslateJob
  import opened JobState

  /** The step at position `p` has a recorded result exactly when more
      than `p` steps have run. */
  lemma RecordedIff(job: Job, executed: seq<StepId>, memo: map<StepId, StepValue>, p: nat)
    requires ScheduleOk(job, executed, memo) && p < |job.Steps()|
    ensures job.Steps()[p] in memo <==> p < |executed|
  {
    SchedulePositions(job.Langs());
    if p >= |executed| {
      forall j | 0 <= j < |executed| ensures executed[j] != job.Steps()[p] {
        assert executed[j] == job.Steps()[j];
      }
    } else {
      assert executed[p] == job.Steps()[p];
    }
  }

  /** Running the next step keeps the executed steps the start of the
      schedule; its id had no recorded result. */
  lemma Advance(job: Job, executed: seq<StepId>, memo: map<StepId, StepValue>, v: StepValue)
    requires ScheduleOk(job, executed, memo) && |executed| < |job.Steps()|
    ensures job.Steps()[|executed|] !in memo
    ensures ScheduleOk(job, executed + [job.Steps()[|executed|]], memo[job.Steps()[|executed|] := v])
  {
    RecordedIff(job, executed, memo, |executed|);
    var id := job.Steps()[|executed|];
    assert executed + [id] == job.Steps()[..|executed| + 1];
  }

  /** Recording a step that is not a model step keeps the model records. */
  lemma CallsFrame(job: Job, memo: map<StepId, StepValue>, calls: map<StepId, Call>, id: StepId, v: StepValue)
    requires CallsOk(job, memo, calls)
    requires !id.TranslateLanguage? && !id.EditorialReview?
    ensures CallsOk(job, memo[id := v], calls)
  {
    var langs := job.Langs();
    forall i | 0 <= i < |langs| && TranslateLanguage(i, langs[i]) in memo[id := v]
      ensures DraftOk(job, memo[id := v], calls, i)
    {
      assert DraftOk(job, memo, calls, i);
    }
    forall i | 0 <= i < |langs| && EditorialReview(i, langs[i]) in memo[id := v]
      ensures EditOk(job, memo[id := v], calls, i)
    {
      TextOfFrame(memo, id, v, TranslateLanguage(i, langs[i]));
      assert EditOk(job, memo, calls, i);
    }
  }

  /** Before its first pass has run, a language has no recorded review. */
  lemma ReviewNotRecorded(job: Job, executed: seq<StepId>, memo: map<StepId, StepValue>, i: nat)
    requires ScheduleOk(job, executed, memo) && i < |job.Langs()| && |executed| == 3 + 3 * i
    ensures EditorialReview(i, job.Langs()[i]) !in memo
  {
    RecordedIff(job, executed, memo, 4 + 3 * i);
  }

  /** Recording a first pass for a language that has none keeps the model records. */
  lemma CallsAfterDraft(job: Job, memo: map<StepId, StepValue>, calls: map<StepId, Call>, i: nat, reply: Reply)
    requires CallsOk(job, memo, calls) && i < |job.Langs()|
    requires EditorialReview(i, job.Langs()[i]) !in memo && DraftText(reply).Some?
    ensures var id := TranslateLanguage(i, job.Langs()[i]);
            var request := TranslationPrompt(job.Snapshot(), job.Langs()[i], job.Source());
            CallsOk(job, memo[id := TextValue(DraftText(reply).value)], calls[id := Call(request, reply)])
  {
    DraftsAfterDraft(job, memo, calls, i, reply);
    EditsAfterDraft(job, memo, calls, i, reply);
  }

  lemma DraftsAfterDraft(job: Job, memo: map<StepId, StepValue>, calls: map<StepId, Call>, i: nat, reply: Reply)
    requires DraftsOk(job, memo, calls) && i < |job.Langs()| && DraftText(reply).Some?
    ensures var id := TranslateLanguage(i, job.Langs()[i]);
            var request := TranslationPrompt(job.Snapshot(), job.Langs()[i], job.Source());
            DraftsOk(job, memo[id := TextValue(DraftText(reply).value)], calls[id := Call(request, reply)])
  {
    var langs := job.Langs();
    var id := TranslateLanguage(i, langs[i]);
    var request := TranslationPrompt(job.Snapshot(), langs[i], job.Source());
    var memo', calls' := memo[id := TextValue(DraftText(reply).value)], calls[id := Call(request, reply)];
    forall j | 0 <= j < |langs| && TranslateLanguage(j, langs[j]) in memo'
      ensures DraftOk(job, memo', calls', j)
    {
      if j != i {
        assert DraftOk(job, memo, calls, j);
      }
    }
  }

  lemma EditsAfterDraft(job: Job, memo: map<StepId, StepValue>, calls: map<StepId, Call>, i: nat, reply: Reply)
    requires EditsOk(job, memo, calls) && i < |job.Langs()| && DraftText(reply).Some?
    requires EditorialReview(i, job.Langs()[i]) !in memo
    ensures var id := TranslateLanguage(i, job.Langs()[i]);
            var request := TranslationPrompt(job.Snapshot(), job.Langs()[i], job.Source());
            EditsOk(job, memo[id := TextValue(DraftText(reply).value)], calls[id := Call(request, reply)])
  {
    var langs := job.Langs();
    var id := TranslateLanguage(i, langs[i]);
    var request := TranslationPrompt(job.Snapshot(), langs[i], job.Source());
    var memo', calls' := memo[id := TextValue(DraftText(reply).value)], calls[id := Call(request, reply)];
    forall j | 0 <= j < |langs| && EditorialReview(j, langs[j]) in memo'
      ensures EditOk(job, memo', calls', j)
    {
      TextOfFrame(memo, id, TextValue(DraftText(reply).value), TranslateLanguage(j, langs[j]));
      assert EditOk(job, memo, calls, j);
    }
  }

  /** Recording a review for a language that has none keeps the model records. */
  lemma CallsAfterEdit(job: Job, executed: seq<StepId>, memo: map<StepId, StepValue>, calls: map<StepId, Call>,
                       i: nat, reply: Reply)
    requires ScheduleOk(job, executed, memo) && CallsOk(job, memo, calls)
    requires i < |job.Langs()| && |executed| == 4 + 3 * i
    requires EditedText(reply, TextOf(memo, TranslateLanguage(i, job.Langs()[i]))).Some?
    ensures var id := EditorialReview(i, job.Langs()[i]);
            var draft := TextOf(memo, TranslateLanguage(i, job.Langs()[i]));
            var request := EditorialPrompt(job.Snapshot(), job.Langs()[i], job.Source(), draft);
            CallsOk(job, memo[id := TextValue(EditedText(reply, draft).value)], calls[id := Call(request, reply)])
  {
    DraftsAfterEdit(job, memo, calls, i, reply);
    EditsAfterEdit(job, memo, calls, i, reply);
  }

  lemma DraftsAfterEdit(job: Job, memo: map<StepId, StepValue>, calls: map<StepId, Call>, i: nat, reply: Reply)
    requires DraftsOk(job, memo, calls) && i < |job.Langs()|
    requires EditedText(reply, TextOf(memo, TranslateLanguage(i, job.Langs()[i]))).Some?
    ensures var id := EditorialReview(i, job.Langs()[i]);
            var draft := TextOf(memo, TranslateLanguage(i, job.Langs()[i]));
            var request := EditorialPrompt(job.Snapshot(), job.Langs()[i], job.Source(), draft);
            DraftsOk(job, memo[id := TextValue(EditedText(reply, draft).value)], calls[id := Call(request, reply)])
  {
    var langs := job.Langs();
    var id := EditorialReview(i, langs[i]);
    var draft := TextOf(memo, TranslateLanguage(i, langs[i]));
    var request := EditorialPrompt(job.Snapshot(), langs[i], job.Source(), draft);
    var memo', calls' := memo[id := TextValue(EditedText(reply, draft).value)], calls[id := Call(request, reply)];
    forall j | 0 <= j < |langs| && TranslateLanguage(j, langs[j]) in memo'
      ensures DraftOk(job, memo', calls', j)
    {
      assert DraftOk(job, memo, calls, j);
    }
  }

  lemma EditsAfterEdit(job: Job, memo: map<StepId, StepValue>, calls: map<StepId, Call>, i: nat, reply: Reply)
    requires EditsOk(job, memo, calls) && i < |job.Langs()|
    requires EditedText(reply, TextOf(memo, TranslateLanguage(i, job.Langs()[i]))).Some?
    ensures var id := EditorialReview(i, job.Langs()[i]);
            var draft := TextOf(memo, TranslateLanguage(i, job.Langs()[i]));
            var request := EditorialPrompt(job.Snapshot(), job.Langs()[i], job.Source(), draft);
            EditsOk(job, memo[id := TextValue(EditedText(reply, draft).value)], calls[id := Call(request, reply)])
  {
    var langs := job.Langs();
    var id := EditorialReview(i, langs[i]);
    var draft := TextOf(memo, TranslateLanguage(i, langs[i]));
    var request := EditorialPrompt(job.Snapshot(), langs[i], job.Source(), draft);
    var memo', calls' := memo[id := TextValue(EditedText(reply, draft).value)], calls[id := Call(request, reply)];
    forall j | 0 <= j < |langs| && EditorialReview(j, langs[j]) in memo'
      ensures EditOk(job, memo', calls', j)
    {
      TextOfFrame(memo, id, TextValue(EditedText(reply, draft).value), TranslateLanguage(j, langs[j]));
      if j != i {
        assert EditOk(job, memo, calls, j);
      }
    }
  }

  /** Until the third step the store is as the event found it. */
  lemma StoreAtStart(job: Job, s: RunState)
    requires StoreOk(job, s) && |s.executed| <= 2
    ensures s.orders == job.initOrders && s.files == job.initFiles && s.outbox == job.initOutbox
  {
    assert Rows(job.orderId, job.Langs(), s.memo, 0) == [];
  }

  /** Recording a step that writes nothing, at a position where the store
      does not move, keeps the store consistent. */
  lemma QuietStep(job: Job, files: seq<FileRow>, memo: map<StepId, StepValue>, k: nat, id: StepId, v: StepValue)
    requires FilesOk(job, files, memo, k)
    requires SavedCount(|job.Langs()|, k + 1) == SavedCount(|job.Langs()|, k)
    requires !(id.TranslateLanguage? || id.EditorialReview?) || id.index >= SavedCount(|job.Langs()|, k)
    ensures FilesOk(job, files, memo[id := v], k + 1)
  {
    RowsFrame(job.orderId, job.Langs(), memo, id, v, SavedCount(|job.Langs()|, k));
  }

  /** Recording a step that writes nothing to the store, at a position
      where the store does not move, keeps the store consistent. */
  lemma StoreQuiet(job: Job, s: RunState, s': RunState, id: StepId, v: StepValue)
    requires StoreOk(job, s)
    requires s'.orders == s.orders && s'.files == s.files && s'.outbox == s.outbox && s'.stamp == s.stamp
    requires s'.memo == s.memo[id := v] && |s'.executed| == |s.executed| + 1
    requires var k, n := |s.executed|, |job.Langs()|;
             && k != 2 && k != 3 + 3 * n && k != 4 + 3 * n && k != 5 + 3 * n
             && SavedCount(n, k + 1) == SavedCount(n, k)
             && (!(id.TranslateLanguage? || id.EditorialReview?) || id.index >= SavedCount(n, k))
    ensures StoreOk(job, s')
  {
    var k, n := |s.executed|, |job.Langs()|;
    OrdersSteps(job.initOrders, job.orderId, n, k, s.stamp);
    EmailsSteps(n, k, job.Customer(), job.Admin());
    QuietStep(job, s.files, s.memo, k, id, v);
  }

  /** Past the first two steps, recording another step keeps the records
      of the first two. */
  lemma SetupKept(job: Job, k: nat, memo: map<StepId, StepValue>, id: StepId, v: StepValue)
    requires SetupOk(job, k, memo) && k >= 2 && id != GetOrder && id != GetFileContent
    ensures SetupOk(job, k + 1, memo[id := v])
  {
  }

  lemma Assemble(job: Job, s: RunState)
    requires ScheduleOk(job, s.executed, s.memo) && SetupOk(job, |s.executed|, s.memo)
    requires CallsOk(job, s.memo, s.calls) && StoreOk(job, s)
    ensures Consistent(job, s)
  {
  }

  // The step lemmas: from a consistent state, running the next step gives
  // a consistent state.

  lemma StepGetOrder(job: Job, s: RunState)
    requires Consistent(job, s) && |s.executed| == 0 && job.orderId in s.orders
    ensures Consistent(job, s.(memo := s.memo[GetOrder := OrderValue(s.orders[job.orderId])],
                               executed := s.executed + [GetOrder]))
  {
    var v := OrderValue(s.orders[job.orderId]);
    var s' := s.(memo := s.memo[GetOrder := v], executed := s.executed + [GetOrder]);
    StoreAtStart(job, s);
    assert ScheduleOk(job, s'.executed, s'.memo) by {
      Advance(job, s.executed, s.memo, v);
    }
    assert CallsOk(job, s'.memo, s'.calls) by {
      CallsFrame(job, s.memo, s.calls, GetOrder, v);
    }
    assert StoreOk(job, s') by {
      QuietStep(job, s.files, s.memo, 0, GetOrder, v);
    }
  }

  lemma StepGetFileContent(job: Job, s: RunState)
    requires Consistent(job, s) && |s.executed| == 1 && OriginalContent(s.files, job.orderId).Some?
    ensures s.files == job.initFiles
    ensures var v := TextValue(OriginalContent(s.files, job.orderId).value);
            Consistent(job, s.(memo := s.memo[GetFileContent := v], executed := s.executed + [GetFileContent]))
  {
    StoreAtStart(job, s);
    var v := TextValue(OriginalContent(s.files, job.orderId).value);
    var s' := s.(memo := s.memo[GetFileContent := v], executed := s.executed + [GetFileContent]);
    assert ScheduleOk(job, s'.executed, s'.memo) by {
      Advance(job, s.executed, s.memo, v);
    }
    assert CallsOk(job, s'.memo, s'.calls) by {
      CallsFrame(job, s.memo, s.calls, GetFileContent, v);
    }
    assert StoreOk(job, s') by {
      QuietStep(job, s.files, s.memo, 1, GetFileContent, v);
    }
  }

  lemma StepProcessing(job: Job, s: RunState)
    requires Consistent(job, s) && |s.executed| == 2
    ensures job.orderId in s.orders
    ensures Consistent(job, s.(orders := s.orders[job.orderId := s.orders[job.orderId].(status := Processing)],
                               memo := s.memo[UpdateStatusProcessing := Done],
                               executed := s.executed + [UpdateStatusProcessing]))
  {
    StoreAtStart(job, s);
    var s' := s.(orders := s.orders[job.orderId := s.orders[job.orderId].(status := Processing)],
                 memo := s.memo[UpdateStatusProcessing := Done],
                 executed := s.executed + [UpdateStatusProcessing]);
    assert ScheduleOk(job, s'.executed, s'.memo) by {
      Advance(job, s.executed, s.memo, Done);
    }
    assert CallsOk(job, s'.memo, s'.calls) by {
      CallsFrame(job, s.memo, s.calls, UpdateStatusProcessing, Done);
    }
    assert StoreOk(job, s') by {
      QuietStep(job, s.files, s.memo, 2, UpdateStatusProcessing, Done);
    }
  }

  lemma StepTranslate(job: Job, s: RunState, i: nat, reply: Reply)
    requires Consistent(job, s) && i < |job.Langs()| && |s.executed| == 3 + 3 * i
    requires DraftText(reply).Some?
    ensures var id := TranslateLanguage(i, job.Langs()[i]);
            var request := TranslationPrompt(job.Snapshot(), job.Langs()[i], job.Source());
            Consistent(job, s.(memo := s.memo[id := TextValue(DraftText(reply).value)],
                               calls := s.calls[id := Call(request, reply)],
                               executed := s.executed + [id]))
  {
    var langs := job.Langs();
    var id := TranslateLanguage(i, langs[i]);
    var v := TextValue(DraftText(reply).value);
    var request := TranslationPrompt(job.Snapshot(), langs[i], job.Source());
    var s' := s.(memo := s.memo[id := v], calls := s.calls[id := Call(request, reply)], executed := s.executed + [id]);
    Advance(job, s.executed, s.memo, v);
    SetupKept(job, |s.executed|, s.memo, id, v);
    ReviewNotRecorded(job, s.executed, s.memo, i);
    CallsAfterDraft(job, s.memo, s.calls, i, reply);
    SavedCountAt(|langs|, i);
    StoreQuiet(job, s, s', id, v);
    Assemble(job, s');
  }

  /** Reaching step `translate-<lang>`, the run throws exactly when the
      model's reply to the translation prompt has no first block, and then
      it stops there. */
  lemma TranslateReached(job: Job, s: RunState, i: nat, llm: Request -> Reply)
    requires i < |job.Langs()| && |s.executed| == 3 + 3 * i
    ensures var id := TranslateLanguage(i, job.Langs()[i]);
            var reply := llm(TranslationPrompt(job.Snapshot(), job.Langs()[i], job.Source()));
            && (Throws(job, s.memo, id, llm) <==> DraftText(reply).None?)
            && (DraftText(reply).None? ==> StoppedAt(job, s, id, llm))
  {
    assert job.Steps()[3 + 3 * i] == TranslateLanguage(i, job.Langs()[i]);
  }

  /** Reaching step `editorial-<lang>`, the run throws exactly when the
      model's reply to the review prompt for the recorded first pass has no
      first block, and then it stops there. */
  lemma EditorialReached(job: Job, s: RunState, i: nat, llm: Request -> Reply)
    requires i < |job.Langs()| && |s.executed| == 4 + 3 * i
    ensures var id := EditorialReview(i, job.Langs()[i]);
            var draft := TextOf(s.memo, TranslateLanguage(i, job.Langs()[i]));
            var reply := llm(EditorialPrompt(job.Snapshot(), job.Langs()[i], job.Source(), draft));
            && (Throws(job, s.memo, id, llm) <==> EditedText(reply, draft).None?)
            && (EditedText(reply, draft).None? ==> StoppedAt(job, s, id, llm))
  {
    assert job.Steps()[4 + 3 * i] == EditorialReview(i, job.Langs()[i]);
  }

  lemma StepEditorial(job: Job, s: RunState, i: nat, reply: Reply)
    requires Consistent(job, s) && i < |job.Langs()| && |s.executed| == 4 + 3 * i
    requires EditedText(reply, TextOf(s.memo, TranslateLanguage(i, job.Langs()[i]))).Some?
    ensures var id := EditorialReview(i, job.Langs()[i]);
            var draft := TextOf(s.memo, TranslateLanguage(i, job.Langs()[i]));
            var request := EditorialPrompt(job.Snapshot(), job.Langs()[i], job.Source(), draft);
            Consistent(job, s.(memo := s.memo[id := TextValue(EditedText(reply, draft).value)],
                               calls := s.calls[id := Call(request, reply)],
                               executed := s.executed + [id]))
  {
    var langs := job.Langs();
    var id := EditorialReview(i, langs[i]);
    var draft := TextOf(s.memo, TranslateLanguage(i, langs[i]));
    var v := TextValue(EditedText(reply, draft).value);
    var request := EditorialPrompt(job.Snapshot(), langs[i], job.Source(), draft);
    var s' := s.(memo := s.memo[id := v], calls := s.calls[id := Call(request, reply)], executed := s.executed + [id]);
    Advance(job, s.executed, s.memo, v);
    SetupKept(job, |s.executed|, s.memo, id, v);
    CallsAfterEdit(job, s.executed, s.memo, s.calls, i, reply);
    SavedCountAt(|langs|, i);
    StoreQuiet(job, s, s', id, v);
    Assemble(job, s');
  }

  lemma StepSave(job: Job, s: RunState, i: nat)
    requires Consistent(job, s) && i < |job.Langs()| && |s.executed| == 5 + 3 * i
    ensures var id := SaveTranslation(i, job.Langs()[i]);
            Consistent(job, s.(files := s.files + [Row(job.orderId, job.Langs(), s.memo, i)],
                               memo := s.memo[id := Done],
                               executed := s.executed + [id]))
  {
    var langs, n := job.Langs(), |job.Langs()|;
    var id := SaveTranslation(i, langs[i]);
    var s' := s.(files := s.files + [Row(job.orderId, langs, s.memo, i)], memo := s.memo[id := Done],
                 executed := s.executed + [id]);
    assert ScheduleOk(job, s'.executed, s'.memo) by { Advance(job, s.executed, s.memo, Done); }
    assert SetupOk(job, |s'.executed|, s'.memo) by { SetupKept(job, |s.executed|, s.memo, id, Done); }
    assert CallsOk(job, s'.memo, s'.calls) by { CallsFrame(job, s.memo, s.calls, id, Done); }
    StoreSave(job, s, s', i);
    Assemble(job, s');
  }

  /** Saving the `i`-th language appends its row and moves nothing else in the store. */
  lemma StoreSave(job: Job, s: RunState, s': RunState, i: nat)
    requires StoreOk(job, s) && i < |job.Langs()| && |s.executed| == 5 + 3 * i
    requires s'.orders == s.orders && s'.outbox == s.outbox && s'.stamp == s.stamp
    requires s'.files == s.files + [Row(job.orderId, job.Langs(), s.memo, i)]
    requires s'.memo == s.memo[SaveTranslation(i, job.Langs()[i]) := Done] && |s'.executed| == 6 + 3 * i
    ensures StoreOk(job, s')
  {
    var n := |job.Langs()|;
    SavedCountAt(n, i);
    RowsAfterSave(job.orderId, job.Langs(), job.initFiles, s.memo, SaveTranslation(i, job.Langs()[i]), i);
    OrdersSteps(job.initOrders, job.orderId, n, 5 + 3 * i, s.stamp);
    EmailsSteps(n, 5 + 3 * i, job.Customer(), job.Admin());
  }

  lemma StepCompleted(job: Job, s: RunState, now: string)
    requires Consistent(job, s) && |s.executed| == 3 + 3 * |job.Langs()|
    ensures job.orderId in s.orders
    ensures Consistent(job, s.(orders := s.orders[job.orderId := s.orders[job.orderId].(status := Completed, completedAt := Some(now))],
                               stamp := now,
                               memo := s.memo[UpdateStatusCompleted := Done],
                               executed := s.executed + [UpdateStatusCompleted]))
  {
    var n := |job.Langs()|;
    var s' := s.(orders := s.orders[job.orderId := s.orders[job.orderId].(status := Completed, completedAt := Some(now))],
                 stamp := now, memo := s.memo[UpdateStatusCompleted := Done],
                 executed := s.executed + [UpdateStatusCompleted]);
    assert ScheduleOk(job, s'.executed, s'.memo) by {
      Advance(job, s.executed, s.memo, Done);
    }
    assert CallsOk(job, s'.memo, s'.calls) by {
      CallsFrame(job, s.memo, s.calls, UpdateStatusCompleted, Done);
    }
    assert OrdersOk(job, s'.orders, 4 + 3 * n, now) by {
      OrdersCompletion(job.initOrders, job.orderId, n, s.stamp, now);
    }
    assert FilesOk(job, s'.files, s'.memo, 4 + 3 * n) by {
      SavedCountAt(n, n);
      QuietStep(job, s.files, s.memo, 3 + 3 * n, UpdateStatusCompleted, Done);
    }
    assert OutboxOk(job, s'.outbox, 4 + 3 * n) by {
      EmailsSteps(n, 3 + 3 * n, job.Customer(), job.Admin());
    }
    assert SetupOk(job, |s'.executed|, s'.memo) by {
      SetupKept(job, |s.executed|, s.memo, UpdateStatusCompleted, Done);
    }
    Assemble(job, s');
  }

  lemma StepCustomerEmail(job: Job, s: RunState)
    requires Consistent(job, s) && |s.executed| == 4 + 3 * |job.Langs()|
    ensures Consistent(job, s.(outbox := s.outbox + [job.Customer()],
                               memo := s.memo[SendCompletionEmail := Done],
                               executed := s.executed + [SendCompletionEmail]))
  {
    var n := |job.Langs()|;
    var s' := s.(outbox := s.outbox + [job.Customer()], memo := s.memo[SendCompletionEmail := Done],
                 executed := s.executed + [SendCompletionEmail]);
    assert ScheduleOk(job, s'.executed, s'.memo) by {
      Advance(job, s.executed, s.memo, Done);
    }
    assert CallsOk(job, s'.memo, s'.calls) by {
      CallsFrame(job, s.memo, s.calls, SendCompletionEmail, Done);
    }
    assert OrdersOk(job, s'.orders, 5 + 3 * n, s'.stamp) by {
      OrdersSteps(job.initOrders, job.orderId, n, 4 + 3 * n, s.stamp);
    }
    assert FilesOk(job, s'.files, s'.memo, 5 + 3 * n) by {
      SavedCountAt(n, n);
      QuietStep(job, s.files, s.memo, 4 + 3 * n, SendCompletionEmail, Done);
    }
    assert OutboxOk(job, s'.outbox, 5 + 3 * n) by {
      OutboxSend(job.initOutbox, n, 4 + 3 * n, job.Customer(), job.Admin());
    }
  }

  lemma StepAdminEmail(job: Job, s: RunState)
    requires Consistent(job, s) && |s.executed| == 5 + 3 * |job.Langs()|
    ensures Consistent(job, s.(outbox := s.outbox + [job.Admin()],
                               memo := s.memo[NotifyAdmin := Done],
                               executed := s.executed + [NotifyAdmin]))
  {
    var n := |job.Langs()|;
    var s' := s.(outbox := s.outbox + [job.Admin()], memo := s.memo[NotifyAdmin := Done],
                 executed := s.executed + [NotifyAdmin]);
    assert ScheduleOk(job, s'.executed, s'.memo) by {
      Advance(job, s.executed, s.memo, Done);
    }
    assert CallsOk(job, s'.memo, s'.calls) by {
      CallsFrame(job, s.memo, s.calls, NotifyAdmin, Done);
    }
    assert OrdersOk(job, s'.orders, 6 + 3 * n, s'.stamp) by {
      OrdersSteps(job.initOrders, job.orderId, n, 5 + 3 * n, s.stamp);
    }
    assert FilesOk(job, s'.files, s'.memo, 6 + 3 * n) by {
      SavedCountAt(n, n);
      QuietStep(job, s.files, s.memo, 5 + 3 * n, NotifyAdmin, Done);
    }
    assert OutboxOk(job, s'.outbox, 6 + 3 * n) by {
      OutboxSend(job.initOutbox, n, 5 + 3 * n, job.Customer(), job.Admin());
    }
  }

  // ---------------------------------------------------------------------
  // What a consistent state tells

  /** No step is executed twice: the executed ids are pairwise distinct. */
  lemma NoStepRunsTwice(job: Job, s: RunState)
    requires Consistent(job, s)
    ensures forall a, b :: 0 <= a < b < |s.executed| ==> s.executed[a] != s.executed[b]
  {
    SchedulePositions(job.Langs());
    forall a, b | 0 <= a < b < |s.executed| ensures s.executed[a] != s.executed[b] {
      assert s.executed[a] == job.Steps()[a] && s.executed[b] == job.Steps()[b];
    }
  }

  /** A consistent state only adds to the store: its executed steps are
      part of the schedule, no order row appears or disappears, and the
      files and emails the event found stay in front. */
  lemma StoreOnlyGrows(job: Job, s: RunState)
    requires Consistent(job, s)
    ensures |s.executed| <= |job.Steps()| && s.orders.Keys == job.initOrders.Keys
    ensures job.initFiles <= s.files && job.initOutbox <= s.outbox
  {
  }

  /** While the languages are worked on, the order is processing and no
      email has been sent. */
  lemma InterruptedDuringLanguages(job: Job, s: RunState)
    requires Consistent(job, s) && 3 <= |s.executed| <= 3 + 3 * |job.Langs()|
    ensures job.orderId in s.orders && s.orders[job.orderId].status == Processing
    ensures s.outbox == job.initOutbox
  {
    ProcessingDuringLanguages(job.initOrders, job.orderId, |job.Langs()|, |s.executed|, s.stamp);
    assert s.outbox == job.initOutbox + [];
  }

  /** A run that stopped at the order lookup or at the original-file
      lookup has changed nothing in the store: no status, no file, no email. */
  lemma SetupFailureChangesNothing(job: Job, s: RunState, step: StepId, llm: Request -> Reply)
    requires Consistent(job, s) && StoppedAt(job, s, step, llm)
    requires step == GetOrder || step == GetFileContent
    ensures s.orders == job.initOrders && s.files == job.initFiles && s.outbox == job.initOutbox
  {
    SchedulePositions(job.Langs());
    assert Position(job.Steps()[|s.executed|], |job.Langs()|) == |s.executed|;
    StoreAtStart(job, s);
  }

  /** When the first pass of the `i`-th language is next, the languages
      before it, and only those, have their rows saved, in list order,
      after the files the event found. */
  lemma EarlierLanguagesSaved(job: Job, s: RunState, i: nat)
    requires Consistent(job, s) && i <= |job.Langs()| && |s.executed| == 3 + 3 * i
    ensures |s.files| == |job.initFiles| + i && s.files[..|job.initFiles|] == job.initFiles
    ensures forall j :: 0 <= j < i ==>
              s.files[|job.initFiles| + j].kind == Translated && s.files[|job.initFiles| + j].language == Some(job.Langs()[j])
  {
    SavedCountAt(|job.Langs()|, i);
  }

  /** The saved rows of a state are rows of translated files, so the
      order's original file is the one the event found. */
  lemma OriginalUnchanged(job: Job, s: RunState)
    requires Consistent(job, s)
    ensures OriginalContent(s.files, job.orderId) == OriginalContent(job.initFiles, job.orderId)
  {
    var rows := Rows(job.orderId, job.Langs(), s.memo, SavedCount(|job.Langs()|, |s.executed|));
    OriginalRowsIgnoreTranslated(job.initFiles, rows, job.orderId);
  }

  /** The `j`-th saved row is the j-th language's: its content is the
      reviewed text, its original content the first pass's text, and both
      texts came from model calls made with the order's details, the
      original, and for the review the first pass's text. */
  lemma SavedRow(job: Job, s: RunState, j: nat)
    requires Consistent(job, s) && j < SavedCount(|job.Langs()|, |s.executed|)
    ensures var langs := job.Langs();
            var t, e := TranslateLanguage(j, langs[j]), EditorialReview(j, langs[j]);
            var row := s.files[|job.initFiles| + j];
            && t in s.calls && e in s.calls
            && s.calls[t].request == TranslationPrompt(job.Snapshot(), langs[j], job.Source())
            && DraftText(s.calls[t].reply).Some?
            && var draft := DraftText(s.calls[t].reply).value;
            && s.calls[e].request == EditorialPrompt(job.Snapshot(), langs[j], job.Source(), draft)
            && EditedText(s.calls[e].reply, draft).Some?
            && row == FileRow(job.orderId, Translated, Some(langs[j]), EditedText(s.calls[e].reply, draft).value, Some(draft))
  {
    var langs, n := job.Langs(), |job.Langs()|;
    var t, e := TranslateLanguage(j, langs[j]), EditorialReview(j, langs[j]);
    assert 4 + 3 * j < |s.executed|;
    RecordedIff(job, s.executed, s.memo, 3 + 3 * j);
    RecordedIff(job, s.executed, s.memo, 4 + 3 * j);
    assert DraftOk(job, s.memo, s.calls, j);
    assert EditOk(job, s.memo, s.calls, j);
  }

  /** A finished run leaves the order completed at the recorded time, one
      row per language after the files the event found, and the two
      emails after the emails already sent. */
  lemma FinishedStore(job: Job, s: RunState)
    requires Consistent(job, s) && |s.executed| == |job.Steps()|
    ensures job.orderId in s.orders
    ensures s.orders[job.orderId] == job.Snapshot().(status := Completed, completedAt := Some(s.stamp))
    ensures forall id :: id in s.orders && id != job.orderId ==> s.orders[id] == job.initOrders[id]
    ensures |s.files| == |job.initFiles| + |job.Langs()| && s.files[..|job.initFiles|] == job.initFiles
    ensures s.outbox == job.initOutbox + [job.Customer(), job.Admin()]
  {
    var n := |job.Langs()|;
    SavedCountAt(n, n);
    EmailsSteps(n, 5 + 3 * n, job.Customer(), job.Admin());
  }

  // ---------------------------------------------------------------------
  // The model-calling steps, as functions of the state they start from

  /** Step `translate-<lang>` for the `i`-th language, started in state
      `s`: the recorded text when the step has run, and otherwise the
      first block of the fast model's reply, recorded, or `None` (the step
      throws) when there is none. */
  ghost function TranslateOutcome(job: Job, s: RunState, i: nat, llm: Request -> Reply): (r: (Option<string>, RunState))
    requires i < |job.Langs()|
    ensures r.1.orders == s.orders && r.1.files == s.files && r.1.outbox == s.outbox && r.1.stamp == s.stamp
    ensures r.0.None? ==> r.1 == s
    ensures s.executed <= r.1.executed && |r.1.executed| <= |s.executed| + 1
  {
    var id := TranslateLanguage(i, job.Langs()[i]);
    if id in s.memo then (Some(TextOf(s.memo, id)), s)
    else
      var request := TranslationPrompt(job.Snapshot(), job.Langs()[i], job.Source());
      match DraftText(llm(request))
      case None => (None, s)
      case Some(d) =>
        (Some(d), s.(memo := s.memo[id := TextValue(d)], calls := s.calls[id := Call(request, llm(request))],
                     executed := s.executed + [id]))
  }

  /** Step `editorial-<lang>`, started in state `s`: the recorded text when
      the step has run, and otherwise the reviewed text of the careful
      model's reply to the recorded first pass, recorded, or `None` (the
      step throws) when the reply has no first block. */
  ghost function EditorialOutcome(job: Job, s: RunState, i: nat, llm: Request -> Reply): (r: (Option<string>, RunState))
    requires i < |job.Langs()|
    ensures r.1.orders == s.orders && r.1.files == s.files && r.1.outbox == s.outbox && r.1.stamp == s.stamp
    ensures r.0.None? ==> r.1 == s
    ensures s.executed <= r.1.executed && |r.1.executed| <= |s.executed| + 1
  {
    var id := EditorialReview(i, job.Langs()[i]);
    if id in s.memo then (Some(TextOf(s.memo, id)), s)
    else
      var draft := TextOf(s.memo, TranslateLanguage(i, job.Langs()[i]));
      var request := EditorialPrompt(job.Snapshot(), job.Langs()[i], job.Source(), draft);
      match EditedText(llm(request), draft)
      case None => (None, s)
      case Some(e) =>
        (Some(e), s.(memo := s.memo[id := TextValue(e)], calls := s.calls[id := Call(request, llm(request))],
                     executed := s.executed + [id]))
  }

  /** Step `translate-<lang>` keeps the invariant. */
  lemma TranslateOutcomeKeeps(job: Job, s: RunState, i: nat, llm: Request -> Reply)
    requires Consistent(job, s) && i < |job.Langs()| && |s.executed| >= 3 + 3 * i
    ensures Consistent(job, TranslateOutcome(job, s, i, llm).1)
  {
    var id := TranslateLanguage(i, job.Langs()[i]);
    if id !in s.memo {
      RecordedIff(job, s.executed, s.memo, 3 + 3 * i);
      var reply := llm(TranslationPrompt(job.Snapshot(), job.Langs()[i], job.Source()));
      if DraftText(reply).Some? {
        StepTranslate(job, s, i, reply);
      }
    }
  }

  /** Step `translate-<lang>` only extends the log, by itself when it
      succeeds for the first time; on a replay it changes nothing. */
  lemma TranslateOutcomeLog(job: Job, s: RunState, i: nat, llm: Request -> Reply)
    requires ScheduleOk(job, s.executed, s.memo) && i < |job.Langs()| && |s.executed| >= 3 + 3 * i
    ensures s.executed <= TranslateOutcome(job, s, i, llm).1.executed
    ensures |s.executed| > 3 + 3 * i ==> TranslateOutcome(job, s, i, llm).1 == s
    ensures TranslateOutcome(job, s, i, llm).0.Some? ==> |TranslateOutcome(job, s, i, llm).1.executed| >= 4 + 3 * i
  {
    var id := TranslateLanguage(i, job.Langs()[i]);
    RecordedIff(job, s.executed, s.memo, 3 + 3 * i);
    var o := TranslateOutcome(job, s, i, llm);
    if id in s.memo {
      assert o.1 == s;
    } else {
      assert o.0.None? ==> o.1 == s;
      assert o.0.Some? ==> o.1.executed == s.executed + [id];
    }
  }

  /** Step `translate-<lang>` throws exactly when it is the next step and
      the reply has no first block. */
  lemma TranslateOutcomeThrows(job: Job, s: RunState, i: nat, llm: Request -> Reply)
    requires ScheduleOk(job, s.executed, s.memo) && i < |job.Langs()| && |s.executed| >= 3 + 3 * i
    ensures TranslateOutcome(job, s, i, llm).0.None? <==>
              |s.executed| == 3 + 3 * i && Throws(job, s.memo, TranslateLanguage(i, job.Langs()[i]), llm)
  {
    RecordedIff(job, s.executed, s.memo, 3 + 3 * i);
    if |s.executed| == 3 + 3 * i {
      TranslateReached(job, s, i, llm);
    }
  }

  /** When step `translate-<lang>` throws, the run stops there, changing nothing. */
  lemma TranslateOutcomeStops(job: Job, s: RunState, i: nat, llm: Request -> Reply)
    requires ScheduleOk(job, s.executed, s.memo) && i < |job.Langs()| && |s.executed| >= 3 + 3 * i
    requires TranslateOutcome(job, s, i, llm).0.None?
    ensures TranslateOutcome(job, s, i, llm).1 == s && StoppedAt(job, s, TranslateLanguage(i, job.Langs()[i]), llm)
  {
    RecordedIff(job, s.executed, s.memo, 3 + 3 * i);
    TranslateReached(job, s, i, llm);
  }

  /** The text step `translate-<lang>` returns is the one recorded for it. */
  lemma TranslateOutcomeText(job: Job, s: RunState, i: nat, llm: Request -> Reply)
    requires i < |job.Langs()|
    ensures var (draft, s') := TranslateOutcome(job, s, i, llm);
            draft.Some? ==> draft.value == TextOf(s'.memo, TranslateLanguage(i, job.Langs()[i]))
  {
    var id := TranslateLanguage(i, job.Langs()[i]);
    if id !in s.memo {
      var reply := llm(TranslationPrompt(job.Snapshot(), job.Langs()[i], job.Source()));
      if DraftText(reply).Some? {
        assert TranslateOutcome(job, s, i, llm).1.memo == s.memo[id := TextValue(DraftText(reply).value)];
      }
    }
  }

  /** Step `editorial-<lang>` keeps the invariant. */
  lemma EditorialOutcomeKeeps(job: Job, s: RunState, i: nat, llm: Request -> Reply)
    requires Consistent(job, s) && i < |job.Langs()| && |s.executed| >= 4 + 3 * i
    ensures Consistent(job, EditorialOutcome(job, s, i, llm).1)
  {
    var id := EditorialReview(i, job.Langs()[i]);
    if id !in s.memo {
      RecordedIff(job, s.executed, s.memo, 4 + 3 * i);
      var draft := TextOf(s.memo, TranslateLanguage(i, job.Langs()[i]));
      var reply := llm(EditorialPrompt(job.Snapshot(), job.Langs()[i], job.Source(), draft));
      if EditedText(reply, draft).Some? {
        StepEditorial(job, s, i, reply);
      }
    }
  }

  /** Step `editorial-<lang>` only extends the log, by itself when it
      succeeds for the first time; on a replay it changes nothing. */
  lemma EditorialOutcomeLog(job: Job, s: RunState, i: nat, llm: Request -> Reply)
    requires ScheduleOk(job, s.executed, s.memo) && i < |job.Langs()| && |s.executed| >= 4 + 3 * i
    ensures s.executed <= EditorialOutcome(job, s, i, llm).1.executed
    ensures |s.executed| > 4 + 3 * i ==> EditorialOutcome(job, s, i, llm).1 == s
    ensures EditorialOutcome(job, s, i, llm).0.Some? ==> |EditorialOutcome(job, s, i, llm).1.executed| >= 5 + 3 * i
  {
    var id := EditorialReview(i, job.Langs()[i]);
    RecordedIff(job, s.executed, s.memo, 4 + 3 * i);
    var o := EditorialOutcome(job, s, i, llm);
    if id in s.memo {
      assert o.1 == s;
    } else {
      assert o.0.None? ==> o.1 == s;
      assert o.0.Some? ==> o.1.executed == s.executed + [id];
    }
  }

  /** Step `editorial-<lang>` throws exactly when it is the next step and
      the reply has no first block. */
  lemma EditorialOutcomeThrows(job: Job, s: RunState, i: nat, llm: Request -> Reply)
    requires ScheduleOk(job, s.executed, s.memo) && i < |job.Langs()| && |s.executed| >= 4 + 3 * i
    ensures EditorialOutcome(job, s, i, llm).0.None? <==>
              |s.executed| == 4 + 3 * i && Throws(job, s.memo, EditorialReview(i, job.Langs()[i]), llm)
  {
    RecordedIff(job, s.executed, s.memo, 4 + 3 * i);
    if |s.executed| == 4 + 3 * i {
      EditorialReached(job, s, i, llm);
    }
  }

  /** When step `editorial-<lang>` throws, the run stops there, changing nothing. */
  lemma EditorialOutcomeStops(job: Job, s: RunState, i: nat, llm: Request -> Reply)
    requires ScheduleOk(job, s.executed, s.memo) && i < |job.Langs()| && |s.executed| >= 4 + 3 * i
    requires EditorialOutcome(job, s, i, llm).0.None?
    ensures EditorialOutcome(job, s, i, llm).1 == s && StoppedAt(job, s, EditorialReview(i, job.Langs()[i]), llm)
  {
    RecordedIff(job, s.executed, s.memo, 4 + 3 * i);
    EditorialReached(job, s, i, llm);
  }

  /** The text step `editorial-<lang>` returns is the one recorded for it,
      and the recorded first pass is untouched. */
  lemma EditorialOutcomeText(job: Job, s: RunState, i: nat, llm: Request -> Reply)
    requires i < |job.Langs()|
    ensures var (edited, s') := EditorialOutcome(job, s, i, llm);
            && (edited.Some? ==> edited.value == TextOf(s'.memo, EditorialReview(i, job.Langs()[i])))
            && TextOf(s'.memo, TranslateLanguage(i, job.Langs()[i])) == TextOf(s.memo, TranslateLanguage(i, job.Langs()[i]))
  {
    var id := EditorialReview(i, job.Langs()[i]);
    if id !in s.memo {
      var draft := TextOf(s.memo, TranslateLanguage(i, job.Langs()[i]));
      var reply := llm(EditorialPrompt(job.Snapshot(), job.Langs()[i], job.Source(), draft));
      if EditedText(reply, draft).Some? {
        var v := TextValue(EditedText(reply, draft).value);
        assert EditorialOutcome(job, s, i, llm).1.memo == s.memo[id := v];
        TextOfFrame(s.memo, id, v, TranslateLanguage(i, job.Langs()[i]));
      }
    }
  }

  /** Step `save-<lang>`, started in state `s`: nothing when the step has
      run, and otherwise the language's row appended to the `files` table. */
  ghost function SaveOutcome(job: Job, s: RunState, i: nat): (r: RunState)
    requires i < |job.Langs()|
    ensures r.orders == s.orders && r.outbox == s.outbox && r.stamp == s.stamp && r.calls == s.calls
    ensures s.files <= r.files && |r.files| <= |s.files| + 1
    ensures |r.files| > |s.files| ==> var row := r.files[|s.files|];
              row.orderId == job.orderId && row.kind == Translated && row.language == Some(job.Langs()[i])
    ensures s.executed <= r.executed && |r.executed| <= |s.executed| + 1
  {
    var id := SaveTranslation(i, job.Langs()[i]);
    if id in s.memo then s
    else s.(files := s.files + [Row(job.orderId, job.Langs(), s.memo, i)], memo := s.memo[id := Done],
            executed := s.executed + [id])
  }

  /** Step `save-<lang>` keeps the invariant. */
  lemma SaveOutcomeKeeps(job: Job, s: RunState, i: nat)
    requires Consistent(job, s) && i < |job.Langs()| && |s.executed| >= 5 + 3 * i
    ensures Consistent(job, SaveOutcome(job, s, i))
  {
    if SaveTranslation(i, job.Langs()[i]) !in s.memo {
      RecordedIff(job, s.executed, s.memo, 5 + 3 * i);
      StepSave(job, s, i);
    }
  }

  /** Step `save-<lang>` never throws and only extends the log, by itself
      the first time; on a replay it changes nothing. */
  lemma SaveOutcomeLog(job: Job, s: RunState, i: nat)
    requires ScheduleOk(job, s.executed, s.memo) && i < |job.Langs()| && |s.executed| >= 5 + 3 * i
    ensures s.executed <= SaveOutcome(job, s, i).executed && |SaveOutcome(job, s, i).executed| >= 6 + 3 * i
    ensures |s.executed| > 5 + 3 * i ==> SaveOutcome(job, s, i) == s
  {
    var id := SaveTranslation(i, job.Langs()[i]);
    RecordedIff(job, s.executed, s.memo, 5 + 3 * i);
    if id !in s.memo {
      assert SaveOutcome(job, s, i).executed == s.executed + [id];
    }
  }
}
