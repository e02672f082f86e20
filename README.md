# BookLingua core, modelled in Dafny

BookLingua sells book translations. An author drops a manuscript on the
order page, picks languages and add-ons, and pays at checkout. The
checkout route accepts an optional voucher code in its request body, and
a separate route validates a code, but the order page has no voucher
field and never sends one. After payment a durable workflow translates the book
into every requested language (a translation pass, then an editorial
pass), saves one translated file per language, marks the order completed
and emails the customer and the administrator.

This project models the logic of that core:

- `Pricing` has the order page's word-count tiers, bundle discount, add-on
  catalogue and totals. It also has the list toggles that keep the
  customer's selections.
- `Manuscript` has what the page derives from a dropped file: the
  extension, the word count and a title.
- `Text` has the JavaScript string operations these use: `toUpperCase`,
  `toLowerCase`, `trim` and the white-space class.
- `Checkout` has the checkout route's voucher table, `validateVoucher`, and
  the charged amount. It covers voucher application, the $1 floor and
  conversion to cents. The amount computation is a method over local
  variables, as in the handler.
- `VoucherRoute` has the voucher-validation route and a proof that it
  agrees with the checkout route.
- `TranslateJob` has the job's data:
  - the language tables;
  - the `orders` and `files` rows;
  - the values sent to the language model and what is read back;
  - the emails and their download links;
  - the schedule of step ids;
  - what the store holds after a number of steps.
- `JobState` and `JobSteps` have the invariant of a run and the proof that
  every step keeps it.
- `JobWorkflow` has the handler, `JobWorkflow.Workflow`. It is a class
  whose field holds the store, the outbox of sent emails and the memo of
  recorded step results. Its methods are the steps. `Run` is one attempt
  of the handler, and `TranslateAll` loops over the languages.

An attempt replays every step that already has a recorded result and
executes the first one that has none. A step that fails ends the attempt,
and a later attempt carries on from there. The language model is a
function parameter of `Run`, and the clock is a parameter. Money is exact
`real` dollars.

## Model

| member | source | states |
|---|---|---|
| Pricing.DetermineTier | app/page.tsx:88-92 | small exactly when words <= 30000 (the small tier's bound), medium exactly when 30000 < words <= 80000, large exactly above 80000 |
| Pricing.DetermineTierMonotone | app/page.tsx:88-92 | more words never give a lower tier, nor a lower base price per language |
| Pricing.CalculatePrice | app/page.tsx:94-101 | 0 without a tier or without languages; otherwise the list price (base price times languages) less the bundle percent for min(n, 4) languages; always between 0 and the list price |
| Pricing.PriceIsWholeCents | app/page.tsx:94-101 | the price is a whole number of cents, so formatting it with two decimals loses nothing |
| Pricing.PriceMonotoneInLanguages | app/page.tsx:94-101 | adding a language never lowers the translation price |
| Pricing.PriceOfLanguages | app/page.tsx:96-100 | the price divided by the number of languages is the base price less the bundle percent |
| Pricing.PricePerLanguageNonIncreasing | app/page.tsx:13-18 | the price per language never rises as languages are added |
| Pricing.AdvertisedBundleExample | app/page.tsx:7-18 | an 80000-word book is medium tier, and four languages list at $1400 and cost $882 |
| Pricing.FindUpsell | app/page.tsx:105 | finds an entry exactly when some catalogue entry has the id, and the entry found has that id |
| Pricing.UpsellPrice | app/page.tsx:105-110 | a selected id adds something exactly when it is in the catalogue, and never more than the dearest add-on |
| Pricing.UpsellPrices | app/page.tsx:103-112 | the launch pack adds 49 when more than one language is selected and 29 otherwise; the others add 99, 149 and 249 |
| Pricing.UnknownUpsellIsFree | app/page.tsx:105-106 | an id outside the catalogue adds nothing |
| Pricing.UpsellTotal | app/page.tsx:103-112 | the running total is at most the dearest add-on per selected id, and zero exactly when no selected id is in the catalogue |
| Pricing.UpsellTotalAppend | app/page.tsx:103-112 | the running total over two selections in a row is the sum of their totals |
| Pricing.UpsellTotalIsSelectionTotal | app/page.tsx:103-112 | for a selection without repeats, the left-to-right running total equals a reference sum with one charge per selected catalogue entry |
| Pricing.UpsellTotalBound | app/page.tsx:103-112 | a selection without repeats never costs more than all four add-ons together |
| Pricing.CalculateTotal | app/page.tsx:114-118 | the page total exceeds the translation price by exactly the add-on total |
| Pricing.RemoveAll | app/page.tsx:122 | filtering out a code drops every occurrence of it and keeps every other code with its multiplicity |
| Pricing.RemoveAllSplit | app/page.tsx:122 | the filter keeps order: filtering two lists in a row gives the filtered first list followed by the filtered second |
| Pricing.RemoveAllSingle | app/page.tsx:122 | a one-element list keeps its element unless it is the code removed; with RemoveAllSplit this fixes the filter of every list |
| Pricing.Toggle | app/page.tsx:120-124 | a present code gives exactly the filter that drops it, every other code keeping its multiplicity; an absent code is appended at the end |
| Pricing.ToggleTwiceRestores | app/page.tsx:130-134 | toggling an absent code twice gives back the original list |
| Pricing.ToggleKeepsNoDuplicates | app/page.tsx:120-124 | a list without repeats keeps none after a toggle |
| Pricing.SelectAllCore | app/page.tsx:126-128 | selecting all core languages yields exactly es, fr, de, pt, without repeats |
| Manuscript.LastDot | app/page.tsx:156 | finds the position of the last dot, or reports that there is none |
| Manuscript.Extension | app/page.tsx:156 | a dot followed by the lower-cased text after the last dot (the whole name when there is no dot); it holds no further dot |
| Manuscript.ExtensionOfStemAndExt | app/page.tsx:156 | a name `stem.ext`, where ext has no dot, has the extension `.` plus lower-cased ext |
| Manuscript.UploadExtensionExample | app/page.tsx:156 | `My_First_Novel.EPUB` has the extension `.epub` |
| Manuscript.Words | app/page.tsx:165 | the words are non-empty and hold no white space |
| Manuscript.WordsOfWord | app/page.tsx:165 | a single word splits into itself |
| Manuscript.WordsAtSpace | app/page.tsx:165 | any white-space character separates: the words around it are the words before it followed by the words after it, so any run of white space acts as one separator |
| Manuscript.WordsOfJoin | app/page.tsx:165 | splitting words joined by single spaces gives the same words back |
| Manuscript.SizeEstimate | app/page.tsx:167 | the estimate is the nearest whole number to size / 6 |
| Manuscript.EstimateWords | app/page.tsx:163-168 | `.txt` and `.docx` count the words of the trimmed text; `.epub` and `.pdf` use the size estimate; anything else gives 0 |
| Manuscript.StripExtension | app/page.tsx:173 | the result is a prefix of the name; when it is shorter, what was cut is a dot and a non-empty tail without dot or slash |
| Manuscript.StripExtensionOfStemAndExt | app/page.tsx:173 | `stem.ext`, where ext is non-empty without dot or slash, loses exactly `.ext` |
| Manuscript.UnderscoresToSpaces | app/page.tsx:173 | every underscore becomes a space and every other character stays |
| Manuscript.TitleFromFileName | app/page.tsx:173 | the proposed title has no underscore and is no longer than the name |
| Manuscript.TitleOfStemAndExt | app/page.tsx:173 | the title of `stem.ext`, for a non-empty ext without dot or slash, is the stem with its underscores made spaces |
| Manuscript.TitleWithoutDot | app/page.tsx:173 | a name without a dot gives the whole name with its underscores made spaces |
| Manuscript.UploadTitleExample | app/page.tsx:173 | `My_First_Novel.EPUB` proposes the title `My First Novel` |
| Text.ToUpper | app/api/checkout/route.ts:19 | same length; each ASCII letter upper-cased, every other character kept |
| Text.ToLower | app/page.tsx:156 | same length; each ASCII letter lower-cased, every other character kept |
| Text.Trim | app/api/checkout/route.ts:19 | the result is a slice of the input that neither starts nor ends with white space, and what was cut away is all white space |
| Text.TrimUnpadded | app/api/validate-voucher/route.ts:17 | a string without white space at either end is its own trim |
| Checkout.TableFacts | app/api/checkout/route.ts:9-16 | every table code is non-empty, has no expiry and no use limit, and every percentage is at most 95 |
| Checkout.PercentOf | app/api/checkout/route.ts:34 | the discount times 100 is subtotal times the percentage, and for percentages up to 100 it lies within the subtotal |
| Checkout.Discount | app/api/checkout/route.ts:32-37 | a percent voucher takes exactly subtotal times percent over 100, which lies within the subtotal for at most 100%; a fixed voucher takes the smaller of its amount and the subtotal |
| Checkout.NormaliseCode | app/api/checkout/route.ts:19 | the key is no longer than the code, has no white space at either end and no lower-case ASCII letter |
| Checkout.NormaliseCodeIdempotent | app/api/checkout/route.ts:19 | normalising a key again gives the same key |
| Checkout.ValidateVoucher | app/api/checkout/route.ts:18-40 | valid exactly when the code, upper-cased (ASCII letters only) and trimmed, is in the table and not expired; an unknown code gives "Invalid voucher code", an expired one "Voucher has expired", each with discount 0; a valid one has no error and the voucher's discount |
| Checkout.EveryKnownCodeIsValid | app/api/checkout/route.ts:9-29 | no table entry expires, so every known code is valid at every time |
| Checkout.DiscountWithinSubtotal | app/api/checkout/route.ts:9-37 | for any code and a non-negative subtotal the discount lies between 0 and the subtotal |
| Checkout.Applies | app/api/checkout/route.ts:63-69 | the voucher applies exactly when a non-empty code is given and its key is in the table, since no voucher expires |
| Checkout.AppliedDiscount | app/api/checkout/route.ts:63-69 | nothing when the voucher does not apply, otherwise the table voucher's discount; for a non-negative total it lies within the total |
| Checkout.ChargedAmount | app/api/checkout/route.ts:60-72 | the charge is at least $1, and it is the total less the applied discount unless the $1 floor lifts it |
| Checkout.Round | app/api/checkout/route.ts:83 | the nearest integer, halves rounded up |
| Checkout.ComputeCharge | app/api/checkout/route.ts:59-83 | the handler's amount is the charged amount; a voucher is recorded exactly when it applies, as the upper-cased code; an absent or invalid one leaves the total (floored at $1); the unit amount is the rounded cents, at least 100 |
| Checkout.AppliedCodeIsNotTrimmed | app/api/checkout/route.ts:67 | the code recorded for ` launch20` is ` LAUNCH20`, not the key `LAUNCH20` it was found under |
| Checkout.Beta95Example | app/api/checkout/route.ts:14 | `beta95` on an $882 order charges $44.10, i.e. 4410 cents |
| VoucherRoute.Quote | app/api/validate-voucher/route.ts:25-30 | a percent entry quotes exactly subtotal times percent over 100; a fixed entry the smaller of its amount and the subtotal |
| VoucherRoute.Respond | app/api/validate-voucher/route.ts:17-40 | accepted exactly when the code, upper-cased (ASCII letters only) and trimmed, is in the table; rejected with "Invalid voucher code"; an accepted answer carries the normalised code, the entry's discount, kind and description, the entry's quote, and a new total that is the larger of $1 and subtotal less discount |
| VoucherRoute.RespondWithinSubtotal | app/api/validate-voucher/route.ts:25-39 | for a non-negative subtotal the reported discount lies within the subtotal and the new total never exceeds the floored subtotal |
| VoucherRoute.TablesAgree | app/api/validate-voucher/route.ts:3-11 | the route's table has the checkout's codes, each with the same discount, kind and description |
| VoucherRoute.RouteAgreesWithCheckout | app/api/validate-voucher/route.ts:17-39 | the route accepts exactly the codes checkout applies, quotes the discount checkout subtracts and the amount checkout charges, and for a rejected code checkout charges the undiscounted amount |
| TranslateJob.LanguageTablesAgree | lib/translate-job.ts:12-24 | the name table and the settings table hold the same codes |
| TranslateJob.OfferedLanguagesAreKnown | lib/translate-job.ts:12-24 | each language the page offers has the name the page shows, and has settings |
| TranslateJob.OriginalRows | lib/translate-job.ts:51-56 | exactly the order's original rows |
| TranslateJob.OriginalContent | lib/translate-job.ts:50-60 | the single-row lookup succeeds exactly when the order has one original row, and returns that row's content |
| TranslateJob.OriginalRowsIgnoreTranslated | lib/translate-job.ts:191-199 | appending translated rows leaves an order's original rows unchanged |
| TranslateJob.Reference | lib/translate-job.ts:150 | the editorial reference is the prefix of the original of length min(length, 30000) |
| TranslateJob.TranslationPrompt | lib/translate-job.ts:80-121 | the first pass goes to the Sonnet model with the whole original |
| TranslateJob.EditorialPrompt | lib/translate-job.ts:130-180 | the review goes to the Opus model with the draft and the 30000-character reference |
| TranslateJob.FirstBlock | lib/translate-job.ts:123 | the first content block exists exactly when the call returned a non-empty content list |
| TranslateJob.DraftText | lib/translate-job.ts:123 | the step throws exactly when there is no first block; a text block gives its text, any other block the empty string |
| TranslateJob.EditedText | lib/translate-job.ts:182 | the step throws exactly when there is no first block; a text block gives its text, any other block the draft unchanged |
| TranslateJob.DownloadUrl | lib/translate-job.ts:217 | the address is the order's download prefix followed by the language code |
| TranslateJob.DownloadUrlInjective | lib/translate-job.ts:217 | two languages never share a download address |
| TranslateJob.DownloadLinks | lib/translate-job.ts:215-218 | one link per requested language, in order, each with the language's name and download address |
| TranslateJob.DownloadLinksDistinct | lib/translate-job.ts:215-218 | links for different languages lead to different addresses |
| TranslateJob.CompletionEmail | lib/translate-job.ts:214-257 | the customer's notice goes to the order's address with the book's title and one download link per requested language, in order |
| TranslateJob.AdminEmail | lib/translate-job.ts:260-274 | the administrator's notice goes to the configured address and names the order, the customer and each requested language, in order |
| TranslateJob.LanguageNames | lib/translate-job.ts:270 | the administrator's notice lists the name of each requested language, in order |
| TranslateJob.LanguageSteps | lib/translate-job.ts:74-200 | the language steps run translate, review, save for each language in list order |
| TranslateJob.Schedule | lib/translate-job.ts:37-274 | the run's steps are the two lookups and processing, the three steps of each language, then completion, the customer's email and the administrator's |
| TranslateJob.SchedulePositions | lib/translate-job.ts:37-274 | every step id stands at its own position, so no id occurs twice in a run |
| TranslateJob.Row | lib/translate-job.ts:191-199 | the row saved for a language is a translated file of the order for that language, never taken for its original |
| TranslateJob.Rows | lib/translate-job.ts:191-199 | the first c saved rows are the rows of the first c languages, in order |
| TranslateJob.SavedCount | lib/translate-job.ts:191-199 | the number of languages saved after k steps, which steps through the languages' save positions |
| TranslateJob.OrdersAfter | lib/translate-job.ts:63-211 | the steps change only the order's own row; all other rows stay as they were |
| TranslateJob.EmailsAfter | lib/translate-job.ts:214-274 | the emails sent are a prefix of the customer's notice followed by the administrator's |
| TranslateJob.EmailsSteps | lib/translate-job.ts:214-274 | only the two email steps add to the outbox, the customer's notice first |
| TranslateJob.OrdersCompletion | lib/translate-job.ts:203-211 | the completion step sets the order to completed with the given time |
| TranslateJob.ProcessingDuringLanguages | lib/translate-job.ts:63-200 | the order is processing while languages are worked on |
| TranslateJob.CompletedOnlyWhenAllSaved | lib/translate-job.ts:203-211 | past the first steps, the order is completed exactly after the completion step, and by then every language is saved |
| TranslateJob.EmailsOnlyAfterCompletion | lib/translate-job.ts:203-274 | an email is sent only once the order is completed with its time and every language is saved |
| TranslateJob.FreshRunReopensCompletedOrder | lib/translate-job.ts:63-68 | a new run for a completed order sets it back to processing |
| JobSteps.RecordedIff | lib/translate-job.ts:38 | a step has a recorded result exactly when the attempt has moved past it |
| JobSteps.StepGetOrder | lib/translate-job.ts:38-47 | recording the order keeps the run's invariant |
| JobSteps.StepGetFileContent | lib/translate-job.ts:50-60 | recording the original's content keeps the invariant, and the files are still those the event found |
| JobSteps.StepProcessing | lib/translate-job.ts:63-68 | setting the order processing keeps the invariant |
| JobSteps.StepTranslate | lib/translate-job.ts:79-124 | recording a first pass, with its request and reply, keeps the invariant |
| JobSteps.StepEditorial | lib/translate-job.ts:129-183 | recording a review, with its request and reply, keeps the invariant |
| JobSteps.StepSave | lib/translate-job.ts:191-199 | appending the language's row keeps the invariant |
| JobSteps.StepCompleted | lib/translate-job.ts:203-211 | marking the order completed keeps the invariant |
| JobSteps.StepCustomerEmail | lib/translate-job.ts:214-257 | sending the customer's notice keeps the invariant |
| JobSteps.StepAdminEmail | lib/translate-job.ts:260-274 | sending the administrator's notice keeps the invariant |
| JobState.Throws | lib/translate-job.ts:38-183 | only the two lookups and the two model steps can throw |
| JobSteps.StoreOnlyGrows | lib/translate-job.ts:37-274 | in a consistent run the executed steps are part of the schedule, no order row appears or disappears, and the files and emails the event found stay in front |
| JobSteps.NoStepRunsTwice | lib/translate-job.ts:37-274 | the executed steps are pairwise distinct |
| JobSteps.SetupFailureChangesNothing | lib/translate-job.ts:38-60 | a run stopped at either lookup has changed no status, written no file and sent no email |
| JobSteps.InterruptedDuringLanguages | lib/translate-job.ts:63-200 | while languages are worked on, the order is processing and no email has been sent |
| JobSteps.EarlierLanguagesSaved | lib/translate-job.ts:74-200 | when a language's first pass is next, exactly the earlier languages have rows, in list order, after the files the event found |
| JobSteps.OriginalUnchanged | lib/translate-job.ts:191-199 | a run never changes which original file the order has |
| JobSteps.SavedRow | lib/translate-job.ts:185-199 | the j-th saved row belongs to the j-th language; its content is the review and its original content the first pass, both from calls made with the order, the original and, for the review, that first pass |
| JobSteps.FinishedStore | lib/translate-job.ts:191-274 | a finished run leaves the order completed at the written time and the other orders unchanged; one row per language follows the files the event found; the two emails follow the emails already sent |
| JobSteps.TranslateOutcome | lib/translate-job.ts:79-124 | the first pass changes no order, file or email; a throw changes nothing; the log grows by at most this step |
| JobSteps.TranslateOutcomeKeeps | lib/translate-job.ts:79-124 | the translate step keeps the invariant |
| JobSteps.TranslateOutcomeLog | lib/translate-job.ts:79-124 | the step only extends the log, by itself on first success; a replay changes nothing |
| JobSteps.TranslateOutcomeThrows | lib/translate-job.ts:79-124 | the step throws exactly when it is the next step and the reply has no first block |
| JobSteps.TranslateOutcomeStops | lib/translate-job.ts:79-124 | a throwing step changes nothing, and the run stops at it |
| JobSteps.TranslateOutcomeText | lib/translate-job.ts:79-124 | the text returned is the text recorded for the step |
| JobSteps.EditorialOutcome | lib/translate-job.ts:129-183 | the review changes no order, file or email; a throw changes nothing; the log grows by at most this step |
| JobSteps.EditorialOutcomeKeeps | lib/translate-job.ts:129-183 | the editorial step keeps the invariant |
| JobSteps.EditorialOutcomeLog | lib/translate-job.ts:129-183 | the step only extends the log, by itself on first success; a replay changes nothing |
| JobSteps.EditorialOutcomeThrows | lib/translate-job.ts:129-183 | the step throws exactly when it is the next step and the reply has no first block |
| JobSteps.EditorialOutcomeStops | lib/translate-job.ts:129-183 | a throwing step changes nothing, and the run stops at it |
| JobSteps.EditorialOutcomeText | lib/translate-job.ts:129-183 | the text returned is the one recorded for the step, and the recorded first pass is untouched |
| JobSteps.SaveOutcome | lib/translate-job.ts:191-199 | the save changes no order, email or model call, and adds at most one file row, a translated file of the order for this language, after the existing ones |
| JobSteps.SaveOutcomeKeeps | lib/translate-job.ts:191-199 | the save step keeps the invariant |
| JobSteps.SaveOutcomeLog | lib/translate-job.ts:191-199 | the save step never throws and only extends the log; a replay changes nothing |
| JobWorkflow.ReasonOf | lib/translate-job.ts:45-58 | the order lookup fails with "order not found", the file lookup with "original file not found", and the model steps with a model failure |
| JobWorkflow.Workflow.constructor | lib/translate-job.ts:34-35 | a run starts from the store as the event finds it, with nothing recorded |
| JobWorkflow.Workflow.FetchOrder | lib/translate-job.ts:38-47 | returns the order row the event found; fails exactly when the step had not run and there is no such row (reads never fail in the model); on success records the order, and a replay changes nothing |
| JobWorkflow.Workflow.FetchOriginal | lib/translate-job.ts:50-60 | returns the original's content; fails exactly when the step had not run and the order has no single original row (reads never fail in the model); a replay changes nothing |
| JobWorkflow.Workflow.MarkProcessing | lib/translate-job.ts:63-68 | sets the order's status to processing and records the step; a replay changes nothing |
| JobWorkflow.Workflow.TranslatePass | lib/translate-job.ts:79-124 | the returned draft and the new state are those of the translate step's outcome |
| JobWorkflow.Workflow.EditorialPass | lib/translate-job.ts:129-183 | the returned review and the new state are those of the editorial step's outcome |
| JobWorkflow.Workflow.SaveRow | lib/translate-job.ts:191-199 | the new state is that of the save step's outcome: the row appended once |
| JobWorkflow.Workflow.MarkCompleted | lib/translate-job.ts:203-211 | sets the order completed with the given time and records the step; a replay changes nothing |
| JobWorkflow.Workflow.SendCompletion | lib/translate-job.ts:214-257 | appends the customer's notice with its download links and records the step; a replay changes nothing |
| JobWorkflow.Workflow.SendAdminNotice | lib/translate-job.ts:260-274 | appends the administrator's notice and records the step; a replay changes nothing |
| JobWorkflow.Workflow.TranslateOne | lib/translate-job.ts:74-200 | the language's three steps either all have run, or the attempt stopped at its first pass or its review, which threw; a replay changes nothing |
| JobWorkflow.Workflow.ReviewAndSave | lib/translate-job.ts:129-199 | the review and save either both have run, or the attempt stopped at the review, which threw |
| JobWorkflow.Workflow.TranslateAll | lib/translate-job.ts:74-200 | every language's steps have run, or the attempt stopped at a model step that threw |
| JobWorkflow.Workflow.Finish | lib/translate-job.ts:203-274 | after the closing steps every step of the run has run and the order is completed at the recorded time, which is `now` unless an earlier attempt already ran the completion step |
| JobWorkflow.Workflow.Run | lib/translate-job.ts:34-277 | an attempt finishes exactly when every step of the schedule has run, and then returns the order id and its languages; otherwise it stopped at the first step without a result, which threw for the reason given; a finished attempt leaves the order completed, at this attempt's `now` when the completion step had not run before; an attempt after a finished run changes nothing |

## Left out

- The workflow runtime's execution model is left out: one step per invocation, event delivery, retry backoff, the configured limit of three retries (lib/translate-job.ts:31), and concurrency across orders. The model lets any number of attempts follow each other.
- The window between a step's side effect and the recording of its result is left out. A step and its record happen together in the model.
- The database, the model provider, the email service and the payment provider are foreign SDK calls. The store and the outbox are in-memory state instead, and the language model is a function from request to reply.
- Database reads never fail in the model. In the source both lookups throw on any read error, not only on a missing row (lib/translate-job.ts:45, 58). The model's lookups fail only when the row is missing.
- Database writes always take effect in the model. The source never checks their errors (lib/translate-job.ts:63-68, 191-199, 203-211), so a lost insert or update still has its step recorded. `JobSteps.FinishedStore`, `JobSteps.SavedRow` and `JobSteps.EarlierLanguagesSaved` hold only because every write takes effect.
- Email sends are assumed delivered (lib/translate-job.ts:214-274). A failed send is not modelled, and `JobSteps.FinishedStore`'s outbox relies on this.
- The prompts' wording and the highlight-marker format are not modelled. A request holds the values the prompt is built from: model, token limit, genre, language code, title, author, instructions, and the text or reference and draft. The language code determines both the name and the settings the prompt adds.
- The emails' HTML, sender and subjects are not modelled. An email holds its recipient and the values it shows, including the list of download links.
- The `translations` record (lib/translate-job.ts:71, 185-188) is left out. It is written but never read, and the texts it holds are the ones `JobSteps.SavedRow` states the saved rows hold.
- The clock is left out. The completion time is a string parameter, and voucher expiry compares against a parameter `now`.
- Floating point is left out: `toFixed(2)`, `parseFloat` and the binary rounding of `Math.round`. Amounts are exact reals; `Pricing.PriceIsWholeCents` shows that the page's price loses nothing when formatted.
- The request handling of both routes is left out: parsing JSON, the 500 answer of the validation route (app/api/validate-voucher/route.ts:41-42), a `code` that is not a string, and the Stripe session itself (app/api/checkout/route.ts:75-121).
- Of the checkout request body, only the total and the voucher code are modelled. The other fields go into the Stripe session, which is left out. `bookTitle` goes into the product name (app/api/checkout/route.ts:79) and `email` becomes the customer email (:96). These fields go into the metadata (:97-108), together with the original amount, the applied code and the final amount: `authorName`, `bookTitle`, `wordCount`, `tier`, `fileFormat`, `selectedLanguages`, `selectedGenre` and `selectedUpsells`. The page also sends `specialInstructions` (app/page.tsx:196), which the checkout route never reads.
- Text.ToUpper: upper-cases ASCII letters only and keeps the length. JavaScript's `toUpperCase` maps more: 'ı' to 'I', 'ſ' to 'S', and it can lengthen a string ('ß' becomes "SS"). A code that reaches a table key only through such a mapping, such as `fırst50` or `teſtdrive`, is accepted by both routes in the source but rejected by `Checkout.ValidateVoucher`, `Checkout.Applies` and `VoucherRoute.Respond`.
- Text.ToLower: lower-cases ASCII letters only. No other character lower-cases into a letter of `.txt`, `.docx`, `.epub` or `.pdf`, so the extension dispatch is unaffected.
- TranslateJob.Reference: string lengths and slices count code points. JavaScript's `slice(0, 30000)` (lib/translate-job.ts:150) counts UTF-16 code units. For text outside the Basic Multilingual Plane the source's reference is therefore shorter than the model's, and it can end in half a surrogate pair.
- Reading the dropped file (`file.text()`, `file.size`) is left out: the text and the size are parameters of `Manuscript.EstimateWords`.
- The page's rendering, React state, `handleDrag` and `handleCheckout` are not modelled. Neither are the genre and format lists, which only feed the markup.
- The older copy of the job and routes under `translateabook 3/` is not part of this model.

## Behaviour of the code worth knowing

- **Status can regress.** The order lifecycle is meant to be pending, then processing, then completed. The code does not enforce this order: a new run for an already completed order sets it back to processing (`TranslateJob.FreshRunReopensCompletedOrder`). The model follows the code.
- **Duplicate codes give duplicate rows.** Step ids of the per-language steps carry the language's place in the list, as the runtime numbers a repeated step id. A language code listed twice is therefore translated and saved twice, giving two rows for the same language. The download route reads a language's translated row with `.single()` (app/api/download/[orderId]/[lang]/route.ts:27-36), so that language's download link answers 404 "Translation not found". A new run of a completed order (`TranslateJob.FreshRunReopensCompletedOrder`) saves a second row for every language, so afterwards every link of that order answers 404.
- **The voucher path is unreachable from the order page.** The checkout request built by `handleCheckout` (app/page.tsx:186-197) has no `voucherCode`, and nothing in the page calls the validation route. A checkout started from the page therefore never has `Checkout.Applies`, and it is charged the larger of the total and $1. The voucher application and `VoucherRoute.RouteAgreesWithCheckout` matter only for requests from other clients.
- **The recorded code is not trimmed.** Checkout records the voucher code upper-cased but not trimmed, so it can differ from the table key (`Checkout.AppliedCodeIsNotTrimmed`).
- **Use limits are not enforced.** The voucher tables declare an optional use limit, but none is set and nothing checks it.
- **A reply with no content block throws.** When the model's reply has no first content block at all, reading its type throws and the step fails. This differs from a non-text first block: then the first pass falls back to the empty string and the review to the first pass.
