/** The translation job that runs after payment: a durable workflow of
    memoised steps over one order. It loads the order and its original
    file, marks the order processing, then for each requested language in
    order runs a translation pass, an editorial pass and saves the result,
    and finally marks the order completed and emails the customer and the
    administrator.

    This module holds the job's values: the language tables, the store's
    records, the prompts and replies of the language model, the emails,
    the schedule of steps and what the store holds after a number of
    them. The handler itself, an object whose fields are the database,
    the outbox of sent emails and the step memo of the workflow runtime,
    is `JobWorkflow.Workflow`; the invariant of a run is in `JobState`
    and `JobSteps`. */
module TranslateJob {

  import opened Wrappers
  import Pricing

  /** The two models the job calls. */
  datatype Model = ClaudeSonnet4 | ClaudeOpus4

  /** The model identifier sent with a request. */
  function ModelId(m: Model): string {
    match m
    case ClaudeSonnet4 => "claude-sonnet-4-20250514"
    case ClaudeOpus4 => "claude-opus-4-20250514"
  }

  const TranslationModel := ClaudeSonnet4
  const EditorialModel := ClaudeOpus4
  const MaxTokens: nat := 100000
  /** How much of the original the editorial pass sees. */
  const ReferenceLimit: nat := 30000

  /** `LANGUAGE_NAMES[code]`, which is undefined for a code not in the table. */
  function LanguageName(code: string): Option<string> {
    match code
    case "es" => Some("Spanish")
    case "fr" => Some("French")
    case "de" => Some("German")
    case "pt" => Some("Portuguese")
    case _ => None
  }

  /** `LANGUAGE_SETTINGS[code]`. */
  function LanguageSetting(code: string): Option<string> {
    match code
    case "es" => Some("Use Latin American Spanish as the default, but maintain universal readability. Use \"t\U{00FA}\" for informal address.")
    case "fr" => Some("Use standard French (France) with clear, modern phrasing.")
    case "de" => Some("Use standard German (Hochdeutsch) with clear sentence structure.")
    case "pt" => Some("Use Brazilian Portuguese as the default for wider readability.")
    case _ => None
  }

  /** The name table and the settings table hold the same codes. */
  lemma LanguageTablesAgree()
    ensures forall code :: LanguageName(code).Some? <==> LanguageSetting(code).Some?
  {
  }

  /** Every language the order page offers has a name, the same one the
      page shows, and translation settings. */
  lemma OfferedLanguagesAreKnown()
    ensures forall i :: 0 <= i < |Pricing.CoreLanguages| ==>
              LanguageName(Pricing.CoreLanguages[i].code) == Some(Pricing.CoreLanguages[i].name)
              && LanguageSetting(Pricing.CoreLanguages[i].code).Some?
  {
    forall i | 0 <= i < |Pricing.CoreLanguages|
      ensures LanguageName(Pricing.CoreLanguages[i].code) == Some(Pricing.CoreLanguages[i].name)
      ensures LanguageSetting(Pricing.CoreLanguages[i].code).Some?
    {
      assert i == 0 || i == 1 || i == 2 || i == 3;
    }
  }

  // ---------------------------------------------------------------------
  // The store

  datatype Status = Pending | Processing | Completed

  /** A row of the `orders` table; the map holding the rows is keyed by id. */
  datatype Order = Order(email: string, authorName: string, bookTitle: string, genre: Option<string>,
                         specialInstructions: Option<string>, languages: seq<string>,
                         status: Status, completedAt: Option<string>)

  datatype FileKind = Original | Translated

  /** A row of the `files` table. */
  datatype FileRow = FileRow(orderId: string, kind: FileKind, language: Option<string>,
                             content: string, originalContent: Option<string>)

  /** The original files of an order, in table order. */
  function OriginalRows(files: seq<FileRow>, orderId: string): (r: seq<FileRow>)
    ensures |r| <= |files|
    ensures forall j :: 0 <= j < |r| ==> r[j] in files && r[j].orderId == orderId && r[j].kind == Original
    ensures forall row :: row in files && row.orderId == orderId && row.kind == Original ==> row in r
  {
    if files == [] then []
    else
      var last := files[|files| - 1];
      assert files == files[..|files| - 1] + [last];
      OriginalRows(files[..|files| - 1], orderId) + (if last.orderId == orderId && last.kind == Original then [last] else [])
  }

  /** The `.single()` lookup of the original file's content: it fails
      unless exactly one original row belongs to the order. */
  function OriginalContent(files: seq<FileRow>, orderId: string): (r: Option<string>)
    ensures r.Some? <==> |OriginalRows(files, orderId)| == 1
    ensures r.Some? ==> exists row :: row in files && row.orderId == orderId && row.kind == Original && row.content == r.value
  {
    var rows := OriginalRows(files, orderId);
    if |rows| == 1 then assert rows[0] in files; Some(rows[0].content) else None
  }

  /** Translated rows never change which original file an order has. */
  lemma {:induction false} OriginalRowsIgnoreTranslated(files: seq<FileRow>, added: seq<FileRow>, orderId: string)
    requires forall j :: 0 <= j < |added| ==> added[j].kind == Translated
    ensures OriginalRows(files + added, orderId) == OriginalRows(files, orderId)
    decreases |added|
  {
    if added != [] {
      var init := added[..|added| - 1];
      assert files + added == (files + init) + [added[|added| - 1]];
      assert (files + added)[..|files + added| - 1] == files + init;
      OriginalRowsIgnoreTranslated(files, init, orderId);
    } else {
      assert files + added == files;
    }
  }

  // ---------------------------------------------------------------------
  // The language model

  datatype Block = TextBlock(text: string) | OtherBlock

  /** What a call returns: the response's content blocks, or an error. */
  datatype Reply = Replied(content: seq<Block>) | CallFailed

  /** The values a prompt is built from; its wording is not modelled.
      The prompt names the target language `LanguageName(language)` and
      adds its `LanguageSetting(language)`, so the request records the
      language's code, from which both follow. */
  datatype Request =
    | TranslationRequest(model: Model, maxTokens: nat, genre: Option<string>, language: string,
                         bookTitle: string, authorName: string, instructions: Option<string>,
                         text: string)
    | EditorialRequest(model: Model, maxTokens: nat, genre: Option<string>, language: string,
                       reference: string, draft: string)

  function Min(a: int, b: int): int { if a <= b then a else b }

  /** `fileContent.slice(0, 30000)`. */
  function Reference(source: string): (r: string)
    ensures |r| == Min(|source|, ReferenceLimit) && r <= source
  {
    source[..Min(|source|, ReferenceLimit)]
  }

  /** The first pass: the whole original, to the fast model. */
  function TranslationPrompt(order: Order, lang: string, source: string): (q: Request)
    ensures q.TranslationRequest? && q.model == TranslationModel && q.text == source
  {
    TranslationRequest(TranslationModel, MaxTokens, order.genre, lang,
                       order.bookTitle, order.authorName, order.specialInstructions, source)
  }

  /** The second pass: the first pass's text and the start of the
      original, to the premium model. */
  function EditorialPrompt(order: Order, lang: string, source: string, draft: string): (q: Request)
    ensures q.EditorialRequest? && q.model == EditorialModel && q.draft == draft
    ensures q.reference <= source && |q.reference| == Min(|source|, ReferenceLimit)
  {
    EditorialRequest(EditorialModel, MaxTokens, order.genre, lang,
                     Reference(source), draft)
  }

  /** `response.content[0]`, which is undefined (and reading its type
      throws) when the call failed or returned no block. */
  function FirstBlock(reply: Reply): (b: Option<Block>)
    ensures b.Some? <==> reply.Replied? && reply.content != []
  {
    if reply.Replied? && reply.content != [] then Some(reply.content[0]) else None
  }

  /** The value of a translation step: the first block's text, or the
      empty string when that block is not text. */
  function DraftText(reply: Reply): (r: Option<string>)
    ensures r.None? <==> FirstBlock(reply).None?
    ensures r.Some? && reply.content[0].TextBlock? ==> r.value == reply.content[0].text
    ensures r.Some? && !reply.content[0].TextBlock? ==> r.value == ""
  {
    match FirstBlock(reply)
    case None => None
    case Some(b) => Some(if b.TextBlock? then b.text else "")
  }

  /** The value of an editorial step: the first block's text, or the
      first pass's text unchanged when that block is not text. */
  function EditedText(reply: Reply, draft: string): (r: Option<string>)
    ensures r.None? <==> FirstBlock(reply).None?
    ensures r.Some? && reply.content[0].TextBlock? ==> r.value == reply.content[0].text
    ensures r.Some? && !reply.content[0].TextBlock? ==> r.value == draft
  {
    match FirstBlock(reply)
    case None => None
    case Some(b) => Some(if b.TextBlock? then b.text else draft)
  }

  // ---------------------------------------------------------------------
  // Emails

  datatype Link = Link(language: Option<string>, url: string)

  /** The emails the job sends; their HTML is not modelled. */
  datatype Email =
    | CompletionNotice(to: string, bookTitle: string, authorName: string, links: seq<Link>)
    | AdminNotice(to: string, orderId: string, authorName: string, customerEmail: string,
                  bookTitle: string, languageNames: seq<Option<string>>)

  function DownloadUrl(appUrl: string, orderId: string, lang: string): (url: string)
    ensures url == DownloadPrefix(appUrl, orderId) + lang
  {
    appUrl + "/download/" + orderId + "/" + lang
  }

  function DownloadPrefix(appUrl: string, orderId: string): string {
    appUrl + "/download/" + orderId + "/"
  }

  /** A download address names its language: two languages never share one. */
  lemma DownloadUrlInjective(appUrl: string, orderId: string, a: string, b: string)
    requires DownloadUrl(appUrl, orderId, a) == DownloadUrl(appUrl, orderId, b)
    ensures a == b
  {
    var p := DownloadPrefix(appUrl, orderId);
    assert (p + a)[|p|..] == a;
    assert (p + b)[|p|..] == b;
  }

  /** The links of the completion email: one per requested language, in order. */
  function DownloadLinks(appUrl: string, orderId: string, langs: seq<string>): (links: seq<Link>)
    ensures |links| == |langs|
    ensures forall i :: 0 <= i < |langs| ==>
              links[i].language == LanguageName(langs[i]) && links[i].url == DownloadUrl(appUrl, orderId, langs[i])
  {
    if langs == [] then []
    else DownloadLinks(appUrl, orderId, langs[..|langs| - 1])
         + [Link(LanguageName(langs[|langs| - 1]), DownloadUrl(appUrl, orderId, langs[|langs| - 1]))]
  }

  /** Links for different languages lead to different addresses. */
  lemma DownloadLinksDistinct(appUrl: string, orderId: string, langs: seq<string>, i: nat, j: nat)
    requires i < |langs| && j < |langs| && langs[i] != langs[j]
    ensures DownloadLinks(appUrl, orderId, langs)[i].url != DownloadLinks(appUrl, orderId, langs)[j].url
  {
    if DownloadLinks(appUrl, orderId, langs)[i].url == DownloadLinks(appUrl, orderId, langs)[j].url {
      DownloadUrlInjective(appUrl, orderId, langs[i], langs[j]);
    }
  }

  /** The customer's notice: to the order's address, with the book's title
      and one download link per requested language, in order. */
  function CompletionEmail(order: Order, orderId: string, appUrl: string): (e: Email)
    ensures e.CompletionNotice? && e.to == order.email && e.bookTitle == order.bookTitle
    ensures |e.links| == |order.languages|
    ensures forall i :: 0 <= i < |order.languages| ==>
              e.links[i] == Link(LanguageName(order.languages[i]), DownloadUrl(appUrl, orderId, order.languages[i]))
  {
    CompletionNotice(order.email, order.bookTitle, order.authorName, DownloadLinks(appUrl, orderId, order.languages))
  }

  /** The administrator's notice: to the configured address, naming the
      order, the customer and each requested language, in order. */
  function AdminEmail(order: Order, orderId: string, adminEmail: string): (e: Email)
    ensures e.AdminNotice? && e.to == adminEmail && e.orderId == orderId && e.customerEmail == order.email
    ensures |e.languageNames| == |order.languages|
    ensures forall i :: 0 <= i < |order.languages| ==> e.languageNames[i] == LanguageName(order.languages[i])
  {
    AdminNotice(adminEmail, orderId, order.authorName, order.email, order.bookTitle, LanguageNames(order.languages))
  }

  /** The names of the requested languages, in order. */
  function LanguageNames(langs: seq<string>): (names: seq<Option<string>>)
    ensures |names| == |langs| && forall i :: 0 <= i < |langs| ==> names[i] == LanguageName(langs[i])
  {
    if langs == [] then [] else LanguageNames(langs[..|langs| - 1]) + [LanguageName(langs[|langs| - 1])]
  }

  // ---------------------------------------------------------------------
  // Steps and their schedule

  /** The id of a step. A language's steps carry their place in the list,
      as the runtime numbers a step id that occurs more than once. */
  datatype StepId =
    | GetOrder | GetFileContent | UpdateStatusProcessing
    | TranslateLanguage(index: nat, lang: string)
    | EditorialReview(index: nat, lang: string)
    | SaveTranslation(index: nat, lang: string)
    | UpdateStatusCompleted | SendCompletionEmail | NotifyAdmin

  /** A step's recorded result (`Done` for a step that returns nothing). */
  datatype StepValue = OrderValue(order: Order) | TextValue(text: string) | Done

  /** A model call made by a step, as it was made. */
  datatype Call = Call(request: Request, reply: Reply)

  /** Where a step stands in the run of an order with `n` languages. */
  function Position(id: StepId, n: nat): nat {
    match id
    case GetOrder => 0
    case GetFileContent => 1
    case UpdateStatusProcessing => 2
    case TranslateLanguage(i, _) => 3 + 3 * i
    case EditorialReview(i, _) => 4 + 3 * i
    case SaveTranslation(i, _) => 5 + 3 * i
    case UpdateStatusCompleted => 3 + 3 * n
    case SendCompletionEmail => 4 + 3 * n
    case NotifyAdmin => 5 + 3 * n
  }

  /** The steps of the first `c` languages: translate, review, save. */
  function LanguageSteps(langs: seq<string>, c: nat): (r: seq<StepId>)
    requires c <= |langs|
    ensures |r| == 3 * c
    ensures forall i :: 0 <= i < c ==>
              r[3 * i] == TranslateLanguage(i, langs[i]) && r[3 * i + 1] == EditorialReview(i, langs[i])
              && r[3 * i + 2] == SaveTranslation(i, langs[i])
  {
    if c == 0 then []
    else
      LanguageSteps(langs, c - 1)
      + [TranslateLanguage(c - 1, langs[c - 1]), EditorialReview(c - 1, langs[c - 1]), SaveTranslation(c - 1, langs[c - 1])]
  }

  /** The steps of a whole run, in the order the handler reaches them. */
  function Schedule(langs: seq<string>): (r: seq<StepId>)
    ensures |r| == 6 + 3 * |langs|
    ensures r[0] == GetOrder && r[1] == GetFileContent && r[2] == UpdateStatusProcessing
    ensures forall i :: 0 <= i < |langs| ==>
              r[3 + 3 * i] == TranslateLanguage(i, langs[i]) && r[4 + 3 * i] == EditorialReview(i, langs[i])
              && r[5 + 3 * i] == SaveTranslation(i, langs[i])
    ensures r[3 + 3 * |langs|] == UpdateStatusCompleted && r[4 + 3 * |langs|] == SendCompletionEmail
            && r[5 + 3 * |langs|] == NotifyAdmin
  {
    var body := LanguageSteps(langs, |langs|);
    var r := [GetOrder, GetFileContent, UpdateStatusProcessing] + body
             + [UpdateStatusCompleted, SendCompletionEmail, NotifyAdmin];
    assert forall i :: 0 <= i < |langs| ==>
             (r[3 + 3 * i] == body[3 * i] && r[4 + 3 * i] == body[3 * i + 1] && r[5 + 3 * i] == body[3 * i + 2]);
    r
  }

  lemma {:induction false} LanguageStepPositions(langs: seq<string>, c: nat)
    requires c <= |langs|
    ensures forall j :: 0 <= j < 3 * c ==> Position(LanguageSteps(langs, c)[j], |langs|) == 3 + j
  {
    if c > 0 {
      LanguageStepPositions(langs, c - 1);
      var prev := LanguageSteps(langs, c - 1);
      assert forall j :: 0 <= j < 3 * (c - 1) ==> LanguageSteps(langs, c)[j] == prev[j];
    }
  }

  /** Every step of a run stands at its own position, so no step id occurs twice. */
  lemma SchedulePositions(langs: seq<string>)
    ensures forall j :: 0 <= j < |Schedule(langs)| ==> Position(Schedule(langs)[j], |langs|) == j
    ensures forall j1, j2 :: 0 <= j1 < j2 < |Schedule(langs)| ==> Schedule(langs)[j1] != Schedule(langs)[j2]
  {
    var n := |langs|;
    var body := LanguageSteps(langs, n);
    LanguageStepPositions(langs, n);
    assert Schedule(langs) == [GetOrder, GetFileContent, UpdateStatusProcessing] + body
                              + [UpdateStatusCompleted, SendCompletionEmail, NotifyAdmin];
    forall j | 0 <= j < |Schedule(langs)| ensures Position(Schedule(langs)[j], n) == j {
      if 3 <= j < 3 + 3 * n {
        assert Schedule(langs)[j] == body[j - 3];
      }
    }
  }

  // ---------------------------------------------------------------------
  // The store after a number of steps

  /** How many languages are saved once `k` steps have run. */
  function SavedCount(n: nat, k: nat): (c: nat)
    ensures c <= n
    ensures k <= 3 ==> c == 0
    ensures 3 <= k <= 3 + 3 * n ==> 3 + 3 * c <= k < 6 + 3 * c
    ensures k >= 3 + 3 * n ==> c == n
  {
    if k < 6 then 0 else Min(1 + SavedCount(n, k - 3), n)
  }

  /** The text a step recorded, or the empty string. */
  function TextOf(memo: map<StepId, StepValue>, id: StepId): string {
    if id in memo && memo[id].TextValue? then memo[id].text else ""
  }

  /** Recording one step leaves the text of every other step as it was. */
  lemma TextOfFrame(memo: map<StepId, StepValue>, id: StepId, v: StepValue, other: StepId)
    requires other != id
    ensures TextOf(memo[id := v], other) == TextOf(memo, other)
  {
  }

  /** The row saved for language `i`: the reviewed text, with the first
      pass's text kept as the original content. */
  function Row(orderId: string, langs: seq<string>, memo: map<StepId, StepValue>, i: nat): (r: FileRow)
    requires i < |langs|
    ensures r.orderId == orderId && r.kind == Translated && r.language == Some(langs[i])
    ensures OriginalRows([r], orderId) == []
  {
    FileRow(orderId, Translated, Some(langs[i]), TextOf(memo, EditorialReview(i, langs[i])),
            Some(TextOf(memo, TranslateLanguage(i, langs[i]))))
  }

  function Rows(orderId: string, langs: seq<string>, memo: map<StepId, StepValue>, c: nat): (r: seq<FileRow>)
    requires c <= |langs|
    ensures |r| == c
    ensures forall j :: 0 <= j < c ==> r[j] == Row(orderId, langs, memo, j)
  {
    seq(c, j requires 0 <= j < c => Row(orderId, langs, memo, j))
  }

  /** The rows stay the same while steps other than the first passes and
      reviews of their languages are recorded. */
  lemma RowsFrame(orderId: string, langs: seq<string>, memo: map<StepId, StepValue>, id: StepId, v: StepValue, c: nat)
    requires c <= |langs|
    requires !(id.TranslateLanguage? || id.EditorialReview?) || id.index >= c
    ensures Rows(orderId, langs, memo[id := v], c) == Rows(orderId, langs, memo, c)
  {
    forall j | 0 <= j < c ensures Row(orderId, langs, memo[id := v], j) == Row(orderId, langs, memo, j) {
    }
  }

  lemma RowsSnoc(orderId: string, langs: seq<string>, memo: map<StepId, StepValue>, c: nat)
    requires c < |langs|
    ensures Rows(orderId, langs, memo, c + 1) == Rows(orderId, langs, memo, c) + [Row(orderId, langs, memo, c)]
  {
  }

  /** Saving language `c` appends its row to the rows saved so far. */
  lemma RowsAfterSave(orderId: string, langs: seq<string>, init: seq<FileRow>, memo: map<StepId, StepValue>,
                      id: StepId, c: nat)
    requires c < |langs| && id.SaveTranslation?
    ensures (init + Rows(orderId, langs, memo, c)) + [Row(orderId, langs, memo, c)]
            == init + Rows(orderId, langs, memo[id := Done], c + 1)
  {
    RowsFrame(orderId, langs, memo, id, Done, c + 1);
    RowsSnoc(orderId, langs, memo, c);
  }

  /** The orders table once `k` steps have run: unchanged until the
      processing step, the order processing during the languages, and
      completed, with its completion time, from the completion step on. */
  function OrdersAfter(init: map<string, Order>, orderId: string, n: nat, k: nat, stamp: string): (r: map<string, Order>)
    ensures r.Keys == init.Keys
    ensures forall id :: id in init && id != orderId ==> r[id] == init[id]
  {
    if k <= 2 || orderId !in init then init
    else if k <= 3 + 3 * n then init[orderId := init[orderId].(status := Processing)]
    else init[orderId := init[orderId].(status := Completed, completedAt := Some(stamp))]
  }

  /** The emails sent once `k` steps have run: the customer's, then the
      administrator's. */
  function EmailsAfter(n: nat, k: nat, customer: Email, admin: Email): (r: seq<Email>)
    ensures r <= [customer, admin]
  {
    (if k >= 5 + 3 * n then [customer] else []) + (if k >= 6 + 3 * n then [admin] else [])
  }

  /** The saved count at the steps of language `i`: nothing new is saved
      before its save step, which adds one. */
  lemma SavedCountAt(n: nat, i: nat)
    requires i <= n
    ensures SavedCount(n, 3 + 3 * i) == i
    ensures i < n ==> SavedCount(n, 4 + 3 * i) == i && SavedCount(n, 5 + 3 * i) == i
    ensures i < n ==> SavedCount(n, 6 + 3 * i) == i + 1
    ensures i == n ==> SavedCount(n, 4 + 3 * n) == n && SavedCount(n, 5 + 3 * n) == n && SavedCount(n, 6 + 3 * n) == n
  {
    SavedAtStart(n, i);
    if i < n {
      SavedWithin(n, i);
    }
  }

  lemma SavedAtStart(n: nat, i: nat)
    requires i <= n
    ensures SavedCount(n, 3 + 3 * i) == i
  {
  }

  lemma SavedWithin(n: nat, i: nat)
    requires i < n
    ensures SavedCount(n, 4 + 3 * i) == i && SavedCount(n, 5 + 3 * i) == i
    ensures SavedCount(n, 6 + 3 * i) == i + 1
  {
    SameThird(SavedCount(n, 4 + 3 * i), i, 1);
    SameThird(SavedCount(n, 5 + 3 * i), i, 2);
  }

  /** A step at offset 1 or 2 within a language's three lies in the same third. */
  lemma SameThird(c: nat, i: nat, r: nat)
    requires 1 <= r <= 2 && 3 * c <= r + 3 * i < 3 + 3 * c
    ensures c == i
  {
  }

  /** Only the processing and the completion steps change the orders table. */
  lemma OrdersSteps(init: map<string, Order>, orderId: string, n: nat, k: nat, stamp: string)
    requires k != 2 && k != 3 + 3 * n
    ensures OrdersAfter(init, orderId, n, k + 1, stamp) == OrdersAfter(init, orderId, n, k, stamp)
  {
  }

  /** The completion step marks the processing order completed at `now`. */
  lemma OrdersCompletion(init: map<string, Order>, orderId: string, n: nat, before: string, now: string)
    requires orderId in init
    ensures var o := OrdersAfter(init, orderId, n, 3 + 3 * n, before);
            orderId in o && OrdersAfter(init, orderId, n, 4 + 3 * n, now) == o[orderId := o[orderId].(status := Completed, completedAt := Some(now))]
  {
    var o := OrdersAfter(init, orderId, n, 3 + 3 * n, before);
    assert o[orderId].(status := Completed, completedAt := Some(now))
        == init[orderId].(status := Completed, completedAt := Some(now));
    assert o[orderId := o[orderId].(status := Completed, completedAt := Some(now))]
        == init[orderId := init[orderId].(status := Completed, completedAt := Some(now))];
  }

  /** Only the two email steps add to the outbox: the customer's notice,
      then the administrator's. */
  lemma EmailsSteps(n: nat, k: nat, customer: Email, admin: Email)
    ensures k != 4 + 3 * n && k != 5 + 3 * n ==> EmailsAfter(n, k + 1, customer, admin) == EmailsAfter(n, k, customer, admin)
    ensures k == 4 + 3 * n ==> EmailsAfter(n, k, customer, admin) == [] && EmailsAfter(n, k + 1, customer, admin) == [customer]
    ensures k == 5 + 3 * n ==> EmailsAfter(n, k, customer, admin) == [customer]
                               && EmailsAfter(n, k + 1, customer, admin) == [customer, admin]
  {
  }

  /** Sending the next email appends it to the outbox. */
  lemma OutboxSend(init: seq<Email>, n: nat, k: nat, customer: Email, admin: Email)
    requires k == 4 + 3 * n || k == 5 + 3 * n
    ensures (init + EmailsAfter(n, k, customer, admin)) + [if k == 4 + 3 * n then customer else admin]
            == init + EmailsAfter(n, k + 1, customer, admin)
  {
    EmailsSteps(n, k, customer, admin);
    if k == 4 + 3 * n {
      assert init + [] == init;
    } else {
      assert (init + [customer]) + [admin] == init + [customer, admin];
    }
  }

  /** The order is processing while any language is being worked on. */
  lemma ProcessingDuringLanguages(init: map<string, Order>, orderId: string, n: nat, k: nat, stamp: string)
    requires orderId in init && 3 <= k <= 3 + 3 * n
    ensures OrdersAfter(init, orderId, n, k, stamp)[orderId].status == Processing
  {
  }

  /** Once the run is past its first steps, the order is completed only
      when every language is saved, and it is then no longer touched. */
  lemma CompletedOnlyWhenAllSaved(init: map<string, Order>, orderId: string, n: nat, k: nat, stamp: string)
    requires orderId in init && k >= 3
    ensures OrdersAfter(init, orderId, n, k, stamp)[orderId].status == Completed <==> k > 3 + 3 * n
    ensures OrdersAfter(init, orderId, n, k, stamp)[orderId].status == Completed ==> SavedCount(n, k) == n
  {
  }

  /** Any email sent means the order was completed and every language
      saved first. */
  lemma EmailsOnlyAfterCompletion(init: map<string, Order>, orderId: string, n: nat, k: nat, stamp: string,
                                  customer: Email, admin: Email)
    requires orderId in init
    requires EmailsAfter(n, k, customer, admin) != []
    ensures OrdersAfter(init, orderId, n, k, stamp)[orderId].status == Completed
    ensures OrdersAfter(init, orderId, n, k, stamp)[orderId].completedAt == Some(stamp)
    ensures SavedCount(n, k) == n
  {
  }

  /** A new run for an order that is already completed sets it back to
      processing once its first steps have run. */
  lemma FreshRunReopensCompletedOrder(init: map<string, Order>, orderId: string, n: nat, stamp: string)
    requires orderId in init && init[orderId].status == Completed
    ensures OrdersAfter(init, orderId, n, 3, stamp)[orderId].status == Processing
  {
  }


  // ---------------------------------------------------------------------
  // The state of a run

  /** What a run is about, fixed when its event arrives: the order, the
      application's address, the administrator's address, and the store
      as it was then. */
  datatype Job = Job(orderId: string, appUrl: string, adminEmail: string,
                     initOrders: map<string, Order>, initFiles: seq<FileRow>, initOutbox: seq<Email>)
  {
    /** The order row the first step reads. */
    function Snapshot(): Order {
      if orderId in initOrders then initOrders[orderId]
      else Order("", "", "", None, None, [], Pending, None)
    }

    function Langs(): seq<string> {
      Snapshot().languages
    }

    /** The original's content the second step reads. */
    function Source(): string {
      match OriginalContent(initFiles, orderId)
      case Some(s) => s
      case None => ""
    }

    function Steps(): seq<StepId> {
      Schedule(Langs())
    }

    function Customer(): Email {
      CompletionEmail(Snapshot(), orderId, appUrl)
    }

    function Admin(): Email {
      AdminEmail(Snapshot(), orderId, adminEmail)
    }
  }

  /** What a run changes: the store, the runtime's memo of step results
      and, for the proofs, the executed steps, the model calls they made
      and the completion time written. */
  datatype RunState = RunState(orders: map<string, Order>, files: seq<FileRow>, outbox: seq<Email>,
                               memo: map<StepId, StepValue>, executed: seq<StepId>,
                               calls: map<StepId, Call>, stamp: string)
}
