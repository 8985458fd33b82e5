# Primary 5 math practice: a verified model of its core logic

The application is a Next.js site for practising Primary 5 word problems. This
project models its server-side and client-side logic in Dafny and proves properties
of that model:

- **Practice page** (`PracticePage.Practice`). This class models the page's state: the
  current problem, the typed answer, feedback, the session id, score, total, this
  visit's attempt history and the history kept in browser storage. There is one method
  for each handler that changes state.
  - Generating a problem first clears the previous attempt.
  - A submit is guarded: it is refused without a session id or without an answer.
  - A checked answer updates the score and the total. It appends to both histories
    only while a problem is on screen.
  - The class invariant ties score, total and history together. It also says the
    stored history is its initial contents followed by this visit's attempts.
- **Dashboard statistics** (`DashboardStats`). `CalculateStats` is an imperative method
  with the page's two loops: the forward tally of the difficulty and operation
  breakdowns, and the reverse streak scan. It is proved against specification
  functions: counts, buckets, the longest run of correct answers, and the last ten
  attempts newest first. Lemmas about those functions give:
  - bounds, partitions and consistency of the buckets;
  - that the best streak is the longest run;
  - what the current streak really computes.
- **Fallback problem route** (`SimpleProblems`). This is the fixed table of five problems
  and its lookup with fallbacks: an unknown difficulty means `medium`, and a missing
  operation means `addition`, then `mixed`. Each entry's explanation is checked
  against its own answer: the arithmetic written in the text is true, it chains, and
  it ends in the stored `final_answer`.
- **AI problem route** (`ProblemGeneration`). A JSON object is located in the
  model's reply. The greedy `/\{[\s\S]*\}/` match is characterised exactly: leftmost
  start, longest end. The object's shape is then checked, the problem stored, and the
  response shaped. Each outcome is stated with its message: the model's error, the
  parse failure, the shape failure, the save failure, and success with the stored row's id.
- **Dashboard route** (`DashboardApi`). The submission-to-history transform keeps
  order and length, copies each field, and fills defaults. The route also covers the
  query-error, null-data and missing-session paths.
- **Syllabus extractor** (`Syllabus`, `TextCleaning`). This covers three things:
  - The seven-day cache policy and its fallback ladder, as a class over the
    file-system state.
  - The whitespace-cleaning chain. It is proved to produce clean text, to keep every
    word of its input in order with exactly one space between two words, and to be
    idempotent.
  - `getSyllabusContent`, which never fails.

Some behaviours are worth knowing when reading the model:

- **Streak.** The dashboard's current streak is modelled as the code computes it,
  which is 0 or 1 (see Findings).
- **Row order.** The dashboard route orders rows newest first, but `calculateStats`
  treats the last element as the newest. Each side is modelled as it is written.
- **Ignored request fields.** The practice page sends `difficulty` and `problemType`
  to the AI route, and that route ignores the request body. `HandleGenerate` therefore
  takes no request.
- **Rounding.** The integer percentage equals `Math.round` of the exact quotient. Because
  of that rounding, 100% shows for 199 correct out of 200. "100% exactly when every
  answer is correct" holds only below 200 attempts: `Percent.FullAccuracyMeansAllCorrect`
  proves this, and `Percent.FullAccuracyWithAMistake` proves the counterexample.

## Model

| member | source | states |
|---|---|---|
| Percent.Accuracy | app/dashboard/page.tsx:91 | 0 with no attempts; otherwise the integer r with r - 1/2 <= 100*part/whole < r + 1/2, which is `Math.round` on the exact quotient |
| Percent.AccuracyAtMost100 | app/dashboard/page.tsx:91 | a percentage of a part no larger than the whole never exceeds 100 |
| Percent.AccuracyExtremes | app/dashboard/page.tsx:91 | every answer correct shows 100, none correct shows 0 |
| Percent.FullAccuracyMeansAllCorrect | app/dashboard/page.tsx:91 | below 200 attempts, 100% means every attempt was correct |
| Percent.FullAccuracyWithAMistake | app/dashboard/page.tsx:91 | 199 correct out of 200 also shows 100%, so the converse fails from 200 attempts on |
| Records.DifficultyKey | app/dashboard/page.tsx:111 | a difficulty string selects the breakdown entry with that name, and any other string selects none |
| Records.ProblemTypeKey | app/dashboard/page.tsx:119 | an operation string selects the entry with that name, and any other string selects none |
| Records.KeyNamesRoundTrip | app/dashboard/page.tsx:94-107 | every key's name selects that key |
| Records.LatestFirst | app/dashboard/page.tsx:150 | for k > 0, `slice(-k).reverse()` has min(n, k) elements, and element j is the j-th newest |
| DashboardStats.CountCorrect | app/dashboard/page.tsx:90 | the correct count is at most the number of attempts, and equals it exactly when every attempt is correct |
| DashboardStats.CalculateStats | app/dashboard/page.tsx:88-154 | the stats hold the attempt count, the correct count, their accuracy, every breakdown entry's tally, the longest run as best streak, the as-written current streak, and the last ten attempts newest first; no history gives the initial stats |
| DashboardStats.TallyBreakdowns | app/dashboard/page.tsx:109-125 | after the pass, each entry of both breakdowns holds the total and correct count of the attempts whose key selects it; the key sets stay fixed |
| DashboardStats.TallyDifficulty | app/dashboard/page.tsx:110-116 | one attempt increments only the difficulty entry its key selects, counting it as correct when it is |
| DashboardStats.TallyProblemType | app/dashboard/page.tsx:118-124 | the same for the operation entry |
| DashboardStats.ScanStreaks | app/dashboard/page.tsx:128-142 | the reverse scan's best streak is the longest run of correct answers, and its current streak is the as-written value |
| DashboardStats.EmptyBreakdownsCoverAllKeys | app/dashboard/page.tsx:94-107 | the initial breakdowns have every key, each at zero |
| DashboardStats.BucketsAreConsistent | app/dashboard/page.tsx:112-114 | no entry counts more correct answers than attempts |
| DashboardStats.DifficultyBreakdownPartitions | app/dashboard/page.tsx:111-116 | difficulty totals plus attempts with unknown difficulties equal all attempts; their correct counts are at most the correct answers |
| DashboardStats.ProblemTypeBreakdownPartitions | app/dashboard/page.tsx:119-124 | the same for operations |
| DashboardStats.KnownKeysAreAllCounted | app/dashboard/page.tsx:109-125 | when every key is known, each breakdown's totals sum to the number of attempts |
| DashboardStats.BestStreakIsLongestRun | app/dashboard/page.tsx:132-142 | every run of consecutive correct answers is at most the best streak, and one run attains it |
| DashboardStats.StreakBounds | app/dashboard/page.tsx:128-142 | current streak <= 1, and it is 1 exactly when the newest attempt is correct; current <= best <= correct answers <= attempts |
| DashboardStats.CurrentStreakStopsAtOne | app/dashboard/page.tsx:135-137 | two correct attempts give the as-written current streak 1, against a trailing run of 2 |
| DashboardStats.TrailingRunIsCurrentRun | app/dashboard/page.tsx:132-142 | the trailing run is a run that ends at the newest attempt and is preceded by a wrong one; it is at most the best streak, and the as-written value is it capped at 1 |
| DashboardStats.BucketAccuracy | app/dashboard/page.tsx:245 | an empty entry shows 0; otherwise the rounded percentage `Percent.Accuracy` of its correct attempts, at most 100, and 100 when every attempt in it is correct; the operation panel at line 275 computes it the same way |
| DashboardStats.DifficultyColor | app/dashboard/page.tsx:156-163 | any unknown difficulty gets the grey class |
| DashboardStats.DifficultyIcon | app/dashboard/page.tsx:165-172 | any unknown difficulty gets the white circle |
| DashboardStats.DifficultyStylesDistinguishKeys | app/dashboard/page.tsx:156-172 | two difficulties share a colour, and share an icon, exactly when they select the same key |
| SimpleProblems.TableShape | app/api/math-problem/simple/route.ts:9-61 | the `Problems` table has the keys easy, medium and hard; easy and medium hold addition and subtraction, hard only mixed; the answers are 8, 8, 83, 89 and 260 |
| SimpleProblems.DifficultyTable | app/api/math-problem/simple/route.ts:64 | a known difficulty selects its own table, and anything else selects `medium` |
| SimpleProblems.SelectProblem | app/api/math-problem/simple/route.ts:65 | the result is always a table entry: the requested operation's entry when present, otherwise the addition entry when the table has one |
| SimpleProblems.UnknownDifficultyIsMedium | app/api/math-problem/simple/route.ts:64 | an unknown difficulty answers exactly as `medium` does |
| SimpleProblems.HardIsAlwaysMixed | app/api/math-problem/simple/route.ts:50-65 | `hard` yields its mixed problem for every operation |
| SimpleProblems.OtherOperationsFallBackToAddition | app/api/math-problem/simple/route.ts:65 | easy and medium answer operations they lack with their addition entry |
| SimpleProblems.HandleRequest | app/api/math-problem/simple/route.ts:3-83 | a parsed body is always served, with the given session id and status 200, the table problem `SelectProblem` picks for its difficulty and operation, a missing one defaulting to `medium` and `mixed`; an unparsable body gets status 500 with the parser's message |
| SimpleProblems.MissingFieldsDefault | app/api/math-problem/simple/route.ts:6 | a missing difficulty behaves as `medium`, and a missing operation as `mixed` |
| SimpleProblems.EmptyBodyServesMediumAddition | app/api/math-problem/simple/route.ts:6-65 | an empty body is served medium addition |
| SimpleProblems.EasyAdditionIsWorkedOut | app/api/math-problem/simple/route.ts:11-19 | the entry's explanation states true arithmetic that ends in its answer |
| SimpleProblems.EasySubtractionIsWorkedOut | app/api/math-problem/simple/route.ts:20-28 | the same for easy subtraction |
| SimpleProblems.MediumAdditionIsWorkedOut | app/api/math-problem/simple/route.ts:31-39 | the same for medium addition |
| SimpleProblems.MediumSubtractionIsWorkedOut | app/api/math-problem/simple/route.ts:40-48 | the same for medium subtraction |
| SimpleProblems.HardMixedIsWorkedOut | app/api/math-problem/simple/route.ts:51-59 | the three steps are written in the explanation, each is true, each starts from the previous result, and the last is the answer |
| SimpleProblems.EveryAnswerMatchesItsExplanation | app/api/math-problem/simple/route.ts:9-61 | every table entry has working in its explanation that ends in its final answer |
| TextCleaning.Clean | lib/syllabus-extractor.ts:44-47 | cleaned text has no newline, no leading or trailing whitespace, and no whitespace except single spaces between words; it keeps every non-whitespace character in order; its words are the input's words, and it is exactly those words joined by single spaces |
| TextCleaning.CollapseKeepsWords | lib/syllabus-extractor.ts:45 | collapsing whitespace runs keeps the words, and their order |
| TextCleaning.TrimKeepsWords | lib/syllabus-extractor.ts:47 | trimming keeps the words |
| TextCleaning.CleanTextJoinsItsWords | lib/syllabus-extractor.ts:44-47 | clean text is its words joined by single spaces |
| TextCleaning.CleanSeparatesWords | lib/syllabus-extractor.ts:45-46 | two words split by spaces and a line break come out one space apart |
| TextCleaning.CollapseShape | lib/syllabus-extractor.ts:45 | collapsing whitespace leaves single plain spaces and keeps the other characters |
| TextCleaning.SqueezeKeeps | lib/syllabus-extractor.ts:46 | the newline squeeze changes nothing once no newline is left |
| TextCleaning.TrimShape | lib/syllabus-extractor.ts:47 | trimming collapsed text makes it clean and keeps its non-whitespace characters |
| TextCleaning.CleanIsIdempotent | lib/syllabus-extractor.ts:44-47 | cleaning cleaned text changes nothing |
| TextCleaning.CleanFixesExactlyCleanText | lib/syllabus-extractor.ts:44-47 | cleaning leaves a string unchanged exactly when it is already clean |
| Syllabus.IsFresh | lib/syllabus-extractor.ts:21-26 | a cache is recent exactly when its timestamp is valid and less than seven days of milliseconds old |
| Syllabus.SyllabusFiles.ExtractSyllabusContent | lib/syllabus-extractor.ts:13-81 | the result follows the cache-then-PDF-then-stale-cache ladder; the PDF is read exactly when the cache is missing or stale; the cache is rewritten with the cleaned text and the time read after the parse exactly when the PDF gave text; otherwise the files are unchanged |
| Syllabus.IsBuildTime | lib/syllabus-extractor.ts:85 | build time needs `NODE_ENV` to be `production`, and an unset or empty `VERCEL_ENV` is never build time |
| Syllabus.Policy | lib/syllabus-extractor.ts:13-81 | a cache file always gives text; any text other than the cache's own is clean; the unreadable-cache error happens exactly when the cache cannot be read, and the missing-PDF error exactly when there is no cache and no PDF; a missing or stale cache with a PDF that gives text serves that text cleaned; otherwise a readable cache is served as it is; with no cache, the parser's own error is rethrown |
| Syllabus.FallbackIsNotCleaned | lib/syllabus-extractor.ts:100-137 | the `FallbackSyllabusContent` text is served as written, starting with a newline, so it is not clean text |
| Syllabus.SyllabusFiles.GetSyllabusContent | lib/syllabus-extractor.ts:83-98 | at build time, the fallback text with the cache, the data directory and the PDF reads unchanged; otherwise the extractor's text, or the fallback text when it fails, with exactly the extractor's effects: one PDF read when the cache is missing or stale and the PDF exists, and a rewritten cache and existing data directory exactly when the PDF gave text |
| Syllabus.SyllabusFiles.ExtractOrFallback | lib/syllabus-extractor.ts:92-97 | the extractor's text or, when it throws, the fallback text, with the extractor's effects on the files |
| Syllabus.FreshCacheIsServed | lib/syllabus-extractor.ts:16-29 | a cache younger than seven days is served whatever the PDF |
| Syllabus.StaleCacheCoversFailure | lib/syllabus-extractor.ts:67-77 | a missing or unreadable PDF falls back to a cache of any age |
| Syllabus.PolicyOutcomes | lib/syllabus-extractor.ts:13-81 | served text is the cache's text or clean PDF text; failure happens only without a readable cache, and names the cause |
| Syllabus.WrittenCacheIsServedBack | lib/syllabus-extractor.ts:50-62 | what an extraction writes is served back unchanged for seven days without reading the PDF |
| ProblemGeneration.FirstIndex | app/api/math-problem/route.ts:44 | the index found holds the character, and no earlier index does |
| ProblemGeneration.LastIndex | app/api/math-problem/route.ts:44 | the index found holds the character, and no later index does |
| ProblemGeneration.JsonSpan | app/api/math-problem/route.ts:44-49 | a match exists exactly when some `}` follows some `{`; the match is the slice with the leftmost start and, from there, the longest end, and it begins with `{` and ends with `}` |
| ProblemGeneration.SpanFindsWrappedObject | app/api/math-problem/route.ts:43-46 | an object between chatter with no braces is recovered exactly |
| ProblemGeneration.Truthy | app/api/math-problem/route.ts:57 | absent and null values are falsy; a string is truthy exactly when non-empty, a number exactly when non-zero |
| ProblemGeneration.IsProblemShape | app/api/math-problem/route.ts:56-58 | a valid object has a `problem_text` and a numeric `final_answer`; an empty `problem_text` is rejected |
| ProblemGeneration.HandleGenerate | app/api/math-problem/route.ts:11-95 | a model error surfaces its message; no span or an unparsable one is "Failed to parse AI response"; a wrong shape is "Invalid problem data structure"; a valid reply is stored, and is answered with its text, answer and the row's id when the insert succeeds and with "Failed to save problem to database" when it fails; success echoes the validated text and number with the id of the row they were stored in; any failure is status 500 |
| ProblemGeneration.InsertFailureFailsRequest | app/api/math-problem/route.ts:71-74 | a valid reply whose own text and answer fail to insert is answered "Failed to save problem to database" |
| ProblemGeneration.InvalidReplyIsNotStored | app/api/math-problem/route.ts:43-74 | for a reply that is not a valid object, the answer is a failure and does not depend on the insert, so the insert is not consulted |
| DashboardApi.OrDefault | app/api/dashboard/route.ts:35-36 | a non-empty value is kept; null or empty gives the default |
| DashboardApi.TransformRow | app/api/dashboard/route.ts:30-39 | verdict, answer and feedback come from the submission; text, correct answer and timestamp come from its session; non-empty keys are kept |
| DashboardApi.MissingKeysLandInDefaultBuckets | app/api/dashboard/route.ts:35-36 | a session without difficulty or operation lands in the dashboard's medium and mixed entries |
| DashboardApi.FirstMissing | app/api/dashboard/route.ts:30-31 | the position found has a null session and every earlier one has a session |
| DashboardApi.TransformAll | app/api/dashboard/route.ts:30-39 | the map succeeds exactly when every session is present, giving one transformed row per submission in order; otherwise it throws at the first missing session |
| DashboardApi.HandleDashboard | app/api/dashboard/route.ts:4-56 | a query error is status 500 with "Failed to fetch dashboard data"; null data is an empty history; otherwise the history is the order-preserving transform, and it fails only at the first missing session |
| PracticePage.SubmitBlocked | app/page.tsx:95-98 | a missing session id or an empty answer blocks the submit; a submit goes out only with a non-empty session id and a non-empty answer |
| PracticePage.AttemptItem | app/page.tsx:137-149 | the history item holds the problem's text, answer and syllabus fields, the answer as typed, the verdict and feedback, the selected difficulty and operation, and the time |
| PracticePage.TalliesStep | app/page.tsx:130-151 | a checked answer that is recorded keeps the score, total and history consistent |
| PracticePage.TalliesBoundHistory | app/page.tsx:133-151 | the history never holds more attempts than the total |
| PracticePage.Practice.constructor | app/page.tsx:17-33 | the initial state: no problem, empty strings, `medium` and `mixed`, zero score and total, an empty history, and storage as found |
| PracticePage.Practice.SetDifficulty | app/page.tsx:247 | only the difficulty changes |
| PracticePage.Practice.SetProblemType | app/page.tsx:263 | only the operation changes |
| PracticePage.Practice.SetUserAnswer | app/page.tsx:383 | only the typed answer changes |
| PracticePage.Practice.RevealHint | app/page.tsx:355-358 | only the hint becomes visible |
| PracticePage.Practice.GenerateProblem | app/page.tsx:35-90 | feedback, verdict, answer, hint and explanation are cleared; a ready problem becomes current with its session id; a failure leaves no problem and keeps the old session id; score and histories are untouched |
| PracticePage.Practice.ClearAttempt | app/page.tsx:39-45 | the seven resets, nothing else |
| PracticePage.Practice.SubmitAnswer | app/page.tsx:92-179 | a submit is sent exactly when there is a session id and an answer; a blocked or failed submit changes nothing; a checked one records the verdict, adds 1 to the total and 1 to the score when correct, and appends the same attempt to both histories when a problem is current |
| PracticePage.Practice.RecordCheck | app/page.tsx:123-157 | the state change of a checked answer |
| PracticePage.Practice.ShowVerdict | app/page.tsx:124-127 | verdict, feedback, hint and explanation are set, with a missing hint or explanation shown as empty |
| PracticePage.Practice.CountAttempt | app/page.tsx:130-156 | score and total advance, and the attempt is appended to both histories when a problem is current |
| PracticePage.Practice.DisplayedAccuracy | app/page.tsx:287 | the rounded percentage `Percent.Accuracy` of correct checks: 0 before any check, at most 100, and 100 when every check was correct |
| PracticePage.Practice.RecentAttempts | app/page.tsx:453 | the last five attempts, newest first |

## Left out

- **Rendering.** React rendering, styling, the navbar and the theme are not modelled. The same goes for the loading flags, the loading messages and the alerts, none of which any logic reads. Each `setTimeout` is folded into a single atomic transition.
- **External services.** Gemini, Supabase and `pdf-parse` are foreign services. Their results are inputs:
  - `ModelReply`, `parse` and `insert` for the AI route;
  - `QueryResult` for the dashboard;
  - `PdfExtraction`, plus the cache and PDF state, for the extractor.
- **Host facilities.** The file system, `localStorage`, `JSON.parse`/`JSON.stringify` and `Date` become abstract state or inputs:
  - timestamps are integer milliseconds, with an invalid date as `None`;
  - the extractor's two clock reads, for the freshness check and for the written `extractedAt`, are two parameters;
  - the browser-storage history is a field of the page.
- **Random session id.** The fallback route's random session id is a parameter below 1000000.
- **Not part of this model.** Three pieces of source are outside it:
  - The submit route (app/api/math-problem/submit/route.ts). Its floating-point comparison, within 0.01, is not part of this model. The page sees only its outcome (`SubmitOutcome`).
  - scripts/setup-syllabus.ts and the dashboard page's fetching, with its fall back to browser storage.
  - The `components/` files.
- Percent.Accuracy: the percentage is computed on exact rationals, not on IEEE doubles. `Math.round((c / t) * 100)` can differ by one where the floating-point product lands just below a half.
- **Falsy strings only.** JavaScript truthiness of field values is modelled for strings and JSON values, and only for those. Prototype keys such as `"toString"` are not. Such a key would pass the membership tests at app/dashboard/page.tsx:111 and app/api/math-problem/simple/route.ts:64 in the source. Here it is an unknown key.
- **Unmodelled failures.** Five failure modes are left out:
  - a failing cache write or `mkdir` in the extractor;
  - a cache JSON without a `text` field;
  - a corrupt stored history, which makes `JSON.parse` throw inside the page's timer callback;
  - a JSON body of `null` in the fallback route;
  - the runtime's message text for the dashboard route's `TypeError`.
- **No UI-side gating.** The practice page's `isSubmitting`/`isGenerating` disabling of buttons is not modelled. Every handler except `RevealHint` can be called in any state. `RevealHint` requires a hint that is not yet shown, because the button exists only then (app/page.tsx:355).
- DashboardStats.CalculateStats: its `streak` is the code's value, which is 0 or 1, not the trailing run (see Findings).

## Findings

| source | as written | input that shows it | evidently intended | confidence | as-written member | corrected member |
|---|---|---|---|---|---|---|
| app/dashboard/page.tsx:135-137 | `currentStreak` is assigned only at `i === history.length - 1`. Its value is then 1 and never grows. | two correct attempts: the current streak shows 1 | the number of consecutive correct attempts ending at the newest one (2 here) | not executed | DashboardStats.CurrentStreakStopsAtOne | DashboardStats.TrailingRunIsCurrentRun |

`DashboardStats.TrailingRun` is the corrected definition. `TrailingRunIsCurrentRun` proves three things about it:

- it is the run of correct attempts ending at the newest attempt, preceded by a wrong one;
- it is bounded by the best streak;
- the as-written value is that run capped at 1.

`CalculateStats` keeps the code's behaviour, so the model still describes what the dashboard shows.
