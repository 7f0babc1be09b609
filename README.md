# CodeDungeon rules, modelled in Dafny

CodeDungeon is a programming-practice game. A React front end shows dungeons of levels, quizzes, code quests, an avatar and a daily reward. A FastAPI backend stores progress and awards XP. This project models the rules underneath the pages:

- which dungeons and levels are locked, unlocked or completed;
- how quizzes and code quests are scored, when XP is awarded and how the player levels up;
- how lesson text becomes markup and how that markup is checked against a denylist;
- the small state machines of the quiz, answer, reward, zoom and generate pages;
- the keyword classifiers that pick a diagram;
- the form validators;
- the retry policy of the API client and the auth helpers over its key-value store.

Each core source file has one module:

- `Sanitize`: `src/lib/sanitize.ts`.
- `Learn`: `src/pages/Learn.tsx`.
- `DungeonMap`: `src/pages/DungeonMap.tsx`.
- `PersonalizedDungeonMap`: `src/pages/PersonalizedDungeonMap.tsx`.
- `Backend`: `backend/main.py`.
- `LevelDetail`: `src/pages/LevelDetail.tsx`.
- `PersonalizedLevelDetail`: `src/pages/PersonalizedLevelDetail.tsx`.
- `AvatarCustomizer`: `src/components/game/AvatarCustomizer.tsx`. The palette sizes come from `Avatar.tsx`.
- `DailyLoginBonus`: `src/components/game/DailyLoginBonus.tsx`.
- `InteractiveDiagram`: `src/components/game/InteractiveDiagram.tsx`.
- `LessonDiagram`: `src/components/game/LessonDiagram.tsx`.
- `Validation`: `src/lib/validation.ts`.
- `Api`: `src/lib/api.ts`.
- `PersonalizedLearning`: `src/pages/PersonalizedLearning.tsx`.

`Common` holds the JavaScript and Python string and number semantics the modules share:

- `Option`;
- ASCII and Latin-1 case mapping;
- `includes`;
- whitespace trimming;
- decimal printing;
- `parseInt`;
- UTF-16 length.

The form of each module follows its source:

- Pure expression code becomes functions, with lemmas about them.
- React state updated by handlers becomes a class whose methods modify its fields.
- A `for` or `while` loop of the source becomes a method with a `for` or `while` loop and its invariants, proved against a specification function.

Every effect becomes a parameter or a result:

- Data a page fetches and the outcome of each HTTP attempt become parameters.
- Navigation becomes a returned route.
- Calls to `onClaim`, `onClose` and `onSave` are counted, or returned.
- `localStorage` and the database are maps.

Integer arithmetic is exact: a JavaScript number that holds an integer is an unbounded `int`. Facts that need the number to be held exactly are stated for safe integers, of magnitude at most 2^53 - 1. Where the source relies on JavaScript semantics, the model writes them out:

- truncating `%`;
- `Math.round` on a non-negative quotient;
- `slice` index normalisation;
- truthiness;
- the key order of `Object.values`.

## Model

| member | source | states |
|---|---|---|
| Api.ErrorOf | src/lib/api.ts:45-56 | a non-ok response becomes an `APIError` with its status (message: the non-empty `detail`, else "Request failed with status N"); an exception stays a plain error |
| Api.ApiRequest | src/lib/api.ts:25-71 | the loop's outcome and its fetch/sleep events are exactly those of the reference trace `Run`, with `retries` defaulting to 2 and `retryDelay` to 1000 |
| Api.RunFrom | src/lib/api.ts:35-70 | once the attempts are used up the loop throws the error it holds, or `Error('Request failed')` when it holds none, with no further event |
| Api.Run | src/lib/api.ts:25-71 | with a negative `retries` the request throws `Error('Request failed')` without any event |
| Api.FailedAttempts | src/lib/api.ts:35-66 | the events of `to - from` retryable failures: two events per failed attempt |
| Api.FailedAttemptsAt | src/lib/api.ts:64-66 | failed attempt `from + j` sits at position `2j` and is followed by a sleep of `retryDelay * (attempt + 1)` |
| Api.RunFromStop | src/lib/api.ts:54-61 | an ok response returns its body and a 4xx error is rethrown, both at the attempt that got it and with no further event |
| Api.RunFromRetry | src/lib/api.ts:55-66 | a retryable failure before the last attempt records its error, sleeps `retryDelay * (attempt + 1)` and goes on |
| Api.RunFromLast | src/lib/api.ts:63-66 | a retryable failure at the last attempt is not followed by a sleep |
| Api.RunSkipsFailures | src/lib/api.ts:35-68 | a run of retryable failures contributes a fetch and a sleep each, and the loop resumes holding the last of their errors |
| Api.ReturnsFirstOk | src/lib/api.ts:35-54 | after `k` retryable failures the first ok response returns its body, with `k` fetches and sleeps before it |
| Api.ClientErrorRethrown | src/lib/api.ts:58-61 | a 4xx error is thrown at once as an `APIError` with a status in [400, 500), with no retry after it |
| Api.ExhaustedThrowsLast | src/lib/api.ts:63-70 | when every attempt fails retryably the error of the last attempt is thrown, with no sleep after it |
| Api.NegativeRetriesFail | src/lib/api.ts:35-70 | a negative `retries` makes no request and throws `Error('Request failed')` |
| Api.RunShape | src/lib/api.ts:35-70 | every run with `retries >= 0` is some `k <= retries` retryable failures followed by one final attempt `k` |
| Api.FirstStop | src/lib/api.ts:35-67 | the attempt at which the loop stops exists: the first non-retryable attempt, or the last one, with all attempts before it retryable |
| Api.FetchCount | src/lib/api.ts:37 | the number of fetches is at most the number of events |
| Api.FailedCount | src/lib/api.ts:35-66 | `k` failed attempts hold exactly `k` fetches |
| Api.FetchCountFailed | src/lib/api.ts:35-70 | a run that stops at attempt `k` makes `k + 1` fetches |
| Api.AttemptsBounded | src/lib/api.ts:35 | a request fetches at least once and at most `retries + 1` times (three with the defaults) |
| Api.AuthStore.constructor | src/lib/api.ts:74-80 | the store starts with the given `localStorage` items |
| Api.AuthStore.GetUserId | src/lib/api.ts:74-76 | the stored `user_id`, or `null` exactly when the key is absent |
| Api.AuthStore.GetToken | src/lib/api.ts:78-80 | the stored `token`, or `null` exactly when the key is absent |
| Api.AuthStore.SetAuth | src/lib/api.ts:82-94 | both keys are written (`userId.toString()` and the token), nothing else changes, and the user is authenticated exactly when the token is non-empty |
| Api.AuthStore.ClearAuth | src/lib/api.ts:82-89 | exactly the two keys are removed, after which no user is signed in |
| Api.StoredNumericIdParses | src/lib/api.ts:91-93 | a numeric id stored by `setAuth` reads back through `parseInt` as the same number, for every id JavaScript holds exactly |
| Sanitize.EscapeHtmlAppend | src/lib/sanitize.ts:18-27 | escaping works character by character: the escape of a concatenation is the concatenation of the escapes |
| Sanitize.EscapeChar | src/lib/sanitize.ts:19-26 | a character outside `&<>"'` is kept as it is; each of those five becomes an entity of at least four characters from `&` to `;` |
| Sanitize.EscapeHtml | src/lib/sanitize.ts:18-27 | escaping never shortens a text, and only the empty text escapes to the empty string |
| Sanitize.EscapeHtmlNoMarkup | src/lib/sanitize.ts:18-27 | no `<`, `>`, `"` or `'` is left in escaped text |
| Sanitize.EscapeHtmlPlain | src/lib/sanitize.ts:18-27 | text without any of `&<>"'` is not changed by escaping |
| Sanitize.UnescapeEscapedChar | src/lib/sanitize.ts:19-26 | each entity of the escape map decodes back to the character it replaced |
| Sanitize.EscapeRoundTrip | src/lib/sanitize.ts:18-27 | decoding the five entities recovers the original text exactly |
| Sanitize.EscapeInjective | src/lib/sanitize.ts:18-27 | different texts escape to different strings |
| Sanitize.WordRunEnd | src/lib/sanitize.ts:37 | the end of the `(\w+)?` run: every character before it is a word character and the one at it is not |
| Sanitize.FindChar | src/lib/sanitize.ts:43-55 | the first index at or after `k` holding the given character, or none when there is none |
| Sanitize.FindFence | src/lib/sanitize.ts:37 | the lazy `[\s\S]*?` stops at the first "```" at or after the start, none standing before it; with no match no "```" stands at or after the start |
| Sanitize.FindBoldEnd | src/lib/sanitize.ts:49 | the lazy `(.*?)` stops at the first `**`, none standing before it and no line terminator crossed; with no match no `**` stands before the first line terminator |
| Sanitize.MatchAt | src/lib/sanitize.ts:36-57 | a match starts with the rule's delimiter and its group lies strictly inside it; inline-code and italic groups hold no delimiter |
| Sanitize.Pass | src/lib/sanitize.ts:36-57 | a global replace keeps the empty text empty, makes no other text empty, and copies a text without the rule's delimiter |
| Sanitize.Breaks | src/lib/sanitize.ts:60 | the `<br/>` rewrite never shortens the text |
| Sanitize.ParseLesson | src/lib/sanitize.ts:30-63 | empty content gives the empty string, and no newline is left in the result |
| Sanitize.GroupShapes | src/lib/sanitize.ts:43-55 | inline-code and italic groups are non-empty and hold no delimiter; a bold group holds no line terminator |
| Sanitize.PassNoMatch | src/lib/sanitize.ts:36-57 | a character other than the rule's delimiter is copied by a global replace |
| Sanitize.PassPrefix | src/lib/sanitize.ts:36-57 | a prefix without the rule's delimiter is copied and the scan resumes after it |
| Sanitize.PassPlain | src/lib/sanitize.ts:36-57 | text without the rule's delimiter is left unchanged by its replace |
| Sanitize.BreaksPrefix | src/lib/sanitize.ts:60 | a newline-free prefix is copied by the `<br/>` rewrite |
| Sanitize.BreaksNoNewline | src/lib/sanitize.ts:60 | no newline survives the `<br/>` rewrite |
| Sanitize.DelimitersOutsideTags | src/lib/sanitize.ts:36-60 | backtick, `*` and newline occur in none of the tags the rewrites insert |
| Sanitize.TagsOnlyConcat | src/lib/sanitize.ts:36-60 | joining two texts whose every `<` starts a sanitizer tag gives such a text |
| Sanitize.TagsOnlySuffix | src/lib/sanitize.ts:36-60 | every suffix of such a text is again such a text |
| Sanitize.TagsOnlyCut | src/lib/sanitize.ts:36-60 | cutting such a text before a character that occurs in no tag cuts no tag |
| Sanitize.TagPrefixShape | src/lib/sanitize.ts:38-60 | each inserted tag is a `<` followed by at least three characters, with no other `<` and no backtick, `*` or newline |
| Sanitize.CodeBlockTagsOnly | src/lib/sanitize.ts:36-39 | the `<pre class=...><code>` and `</code></pre>` of a code block start only with sanitizer tags |
| Sanitize.InlineCodeTagsOnly | src/lib/sanitize.ts:42-45 | the inline `<code class=...>` and `</code>` start only with sanitizer tags |
| Sanitize.BoldTagsOnly | src/lib/sanitize.ts:48-51 | the `<strong class="text-gold">` and `</strong>` start only with sanitizer tags |
| Sanitize.ItalicTagsOnly | src/lib/sanitize.ts:54-57 | the `<em>` and `</em>` start only with sanitizer tags |
| Sanitize.PassTagsOnly | src/lib/sanitize.ts:36-57 | each of the four replaces keeps every `<` at the start of a sanitizer tag |
| Sanitize.BreaksTagsOnly | src/lib/sanitize.ts:60 | the `<br/>` rewrite keeps every `<` at the start of a sanitizer tag |
| Sanitize.EscapeHtmlTagsOnly | src/lib/sanitize.ts:33 | escaped text holds no `<` at all |
| Sanitize.LessonPassesTagsOnly | src/lib/sanitize.ts:36-57 | the four replaces in their order keep every `<` at the start of a sanitizer tag |
| Sanitize.ParseLessonShape | src/lib/sanitize.ts:30-63 | every `<` of a parsed lesson starts an inserted `pre`/`code`/`strong`/`em`/`br` tag, and no newline is left |
| Sanitize.ParseLessonPlain | src/lib/sanitize.ts:30-63 | text with none of `&<>"'`, backtick, `*` or newline is returned unchanged |
| Sanitize.ParseLessonEmptyBold | src/lib/sanitize.ts:48-51 | `****` becomes an empty `strong` element (the bold group may be empty) |
| Sanitize.SpaceRunEnd | src/lib/sanitize.ts:71 | the end of the `\s*` run stays within the text |
| Sanitize.OccursAt | src/lib/sanitize.ts:79 | `pattern.test(h)` holds exactly when the pattern matches at some index |
| Sanitize.AnyOccursIff | src/lib/sanitize.ts:79 | `patterns.some(...)` holds exactly when one of the patterns occurs |
| Sanitize.IsSafeHtmlIff | src/lib/sanitize.ts:66-80 | `isSafeHtml` is false exactly when some denylist pattern matches at some index |
| Sanitize.IsSafeHtml | src/lib/sanitize.ts:66-80 | the verdict is true exactly when none of the eight denylist patterns occurs in the text |
| Sanitize.HeadsDiffer | src/lib/sanitize.ts:38-76 | no inserted tag agrees with a denylisted tag name on its first four characters, in any letter case |
| Sanitize.TagsOnlyNoDangerousTag | src/lib/sanitize.ts:69-76 | where every `<` starts a sanitizer tag, no `<script`, `<iframe`, `<object`, `<embed`, `<link` or `<style` occurs in any case |
| Sanitize.ParseLessonNoDangerousTag | src/lib/sanitize.ts:30-80 | no lesson text, whatever it holds, renders into a denylisted tag |
| Validation.When | src/lib/validation.ts:8-14 | a check adds an issue exactly when it fails |
| Validation.ParseLogin | src/lib/validation.ts:4-15 | login parses exactly when neither field has an issue, and returns the trimmed username with the untrimmed password; otherwise all issues, in field and chain order |
| Validation.ParseSignup | src/lib/validation.ts:18-34 | signup parses exactly when no field has an issue, and returns the trimmed username and email with the untrimmed password; a failure carries at least one issue |
| Validation.ParseCode | src/lib/validation.ts:37-43 | the parsed code submission is the input unchanged |
| Validation.WordOnlyLength | src/lib/validation.ts:10 | letters, digits and underscores are one UTF-16 unit each |
| Validation.UsernameAcceptedIff | src/lib/validation.ts:5-10 | a username is accepted exactly when its trimmed form has 3 to 30 characters, all letters, digits or underscores (30 included) |
| Validation.PasswordAcceptedIff | src/lib/validation.ts:11-14 | a password is accepted exactly when it has 6 to 100 UTF-16 units, of any kind, with no trimming |
| Validation.UsernamePadding | src/lib/validation.ts:7 | whitespace around a username changes neither its issues nor its value |
| Validation.EmptyUsernameTwoIssues | src/lib/validation.ts:8-10 | an empty username fails both the minimum and the pattern, in that order |
| Validation.SignupImpliesLogin | src/lib/validation.ts:4-34 | a signup that parses gives a login that parses with the same username and password |
| Validation.LoginFailsSignupOnlyByEmail | src/lib/validation.ts:4-34 | with a valid login, signup fails exactly through issues on the email field |
| Validation.CodeAcceptedIff | src/lib/validation.ts:37-43 | code is accepted exactly when it has 1 to 50000 UTF-16 units and the language is `python`, `javascript` or `typescript` |
| Validation.EmailLengthBound | src/lib/validation.ts:25-29 | an address in the right format passes exactly when its trimmed form has at most 255 units |
| Learn.Find | src/pages/Learn.tsx:90 | `find` returns the first dungeon with the id, and nothing exactly when no dungeon has it |
| Learn.CalculateUnlockedDungeons | src/pages/Learn.tsx:85-103 | the list starts with 1, holds no duplicate, and holds exactly 1 and the dungeons whose truthy prerequisite exists with all its levels completed |
| Learn.FindUnique | src/pages/Learn.tsx:90 | with unique ids, `find` returns the one dungeon that has the id |
| Learn.UnlockedOrderInvariant | src/pages/Learn.tsx:88-100 | the unlocked set does not depend on the order the dungeons are listed in, since the test never asks whether the prerequisite is itself unlocked |
| Learn.EmptyPrerequisiteUnlocks | src/pages/Learn.tsx:92-94 | a prerequisite without levels counts as completed, so its dependents are unlocked |
| Learn.RoundPercent | src/pages/Learn.tsx:109 | the percentage is the integer nearest to `100c/n`, halves rounding up (on the exact quotient, not on doubles) |
| Learn.CountCompleted | src/pages/Learn.tsx:106-108 | the number of completed levels is at most the number of levels |
| Learn.RoundPercentBounds | src/pages/Learn.tsx:109 | the rounded percentage of `c <= n` lies in [0, 100], 0 for none and 100 for all |
| Learn.RoundPercentMonotone | src/pages/Learn.tsx:109 | more completed levels never give a smaller rounded percentage |
| Learn.CountCompletedMonotone | src/pages/Learn.tsx:106-108 | completing more levels never lowers the count |
| Learn.CountCompletedExtremes | src/pages/Learn.tsx:106-108 | the count is 0 exactly when no level is completed and the number of levels exactly when all are |
| Learn.DungeonProgressBounds | src/pages/Learn.tsx:105-110 | the progress of a dungeon with levels is a percentage, 0 when none is done and 100 when all are |
| Learn.DungeonProgress | src/pages/Learn.tsx:105-110 | NaN exactly for a dungeon without levels, otherwise a percentage between 0 and 100 |
| Learn.DungeonProgressMonotone | src/pages/Learn.tsx:105-110 | completing more levels never lowers the progress |
| Learn.DungeonStatus | src/pages/Learn.tsx:112-117 | "completed" exactly at 100 percent, else "unlocked" exactly when the id is unlocked, else "locked" |
| Learn.AllButOneRoundsToHundred | src/pages/Learn.tsx:109 | with at least 201 levels, all but one completed rounds to 100 |
| Learn.NearlyCompleteIsCompleted | src/pages/Learn.tsx:109-114 | a dungeon of 201 or more levels with one unfinished is shown as completed, whoever may enter it |
| Learn.HandleDungeonClick | src/pages/Learn.tsx:119-124 | the click navigates to `/dungeon/<id>` exactly when the dungeon is not locked |
| DungeonMap.LevelStatus | src/pages/DungeonMap.tsx:69-82 | "completed" exactly for a completed level; the first level is never locked; any other is open exactly when the level before it exists and is completed |
| DungeonMap.StatusAt | src/pages/DungeonMap.tsx:69-82 | the level at a map position is completed exactly when its id is; the first is never locked; any other is open exactly when the level before it is completed |
| DungeonMap.LevelStatusMonotone | src/pages/DungeonMap.tsx:69-82 | completing more levels never locks an open level nor un-completes one |
| DungeonMap.LevelStatusLocal | src/pages/DungeonMap.tsx:69-82 | a level's status reads only its own id and the id before it |
| DungeonMap.CompletedPrefixOpensNext | src/pages/DungeonMap.tsx:72-79 | once the first `k` levels are completed, all of the first `k + 1` are open |
| DungeonMap.LockedIff | src/pages/DungeonMap.tsx:69-82 | a level is locked exactly when it is not completed, not first, and the level before it is not completed |
| DungeonMap.HandleLevelClick | src/pages/DungeonMap.tsx:84-88 | the click navigates to `/level/<id>` exactly when the level is not locked |
| PersonalizedDungeonMap.DungeonKey | src/pages/PersonalizedDungeonMap.tsx:72 | the key prefix is the database id `_id` unless it is empty, else the printed numeric id |
| PersonalizedDungeonMap.LevelKey | src/pages/PersonalizedDungeonMap.tsx:72 | a level key is the dungeon key followed by `_` and the index, and that `_` is the key's last one |
| PersonalizedDungeonMap.SeparatorIsLast | src/pages/PersonalizedDungeonMap.tsx:72 | in a level key the `_` before the index is the last `_` |
| PersonalizedDungeonMap.KeySplit | src/pages/PersonalizedDungeonMap.tsx:72 | a level key determines both its dungeon key and its index |
| PersonalizedDungeonMap.LevelKeyInjective | src/pages/PersonalizedDungeonMap.tsx:72 | the levels of one dungeon have distinct keys |
| PersonalizedDungeonMap.LevelStatus | src/pages/PersonalizedDungeonMap.tsx:69-85 | locked while no dungeon is loaded; "completed" exactly when the level's key is in the progress list; the first level is never locked; any other is open exactly when the previous key is in the list |
| PersonalizedDungeonMap.MasteredIff | src/pages/PersonalizedDungeonMap.tsx:254 | the "Dungeon Mastered" banner shows exactly when every level key is in the progress list, and always for a dungeon without levels |
| PersonalizedDungeonMap.CompletedOnlyByOwnKey | src/pages/PersonalizedDungeonMap.tsx:72-73 | adding the key of another dungeon or another index never completes a level |
| PersonalizedDungeonMap.HandleLevelClick | src/pages/PersonalizedDungeonMap.tsx:87-91 | the click navigates to `/personalized/<key>/level/<index>` exactly when a dungeon is loaded and the level is not locked |
| LevelDetail.LocalCorrect | src/pages/LevelDetail.tsx:106-111 | the local count of right answers is at most the number of questions |
| LevelDetail.ValuesInKeyOrder | src/pages/LevelDetail.tsx:122 | `Object.values(answers)` lists at most one value per integer key below the bound |
| LevelDetail.ValuesOfIndices | src/pages/LevelDetail.tsx:122 | when keys `0 .. n-1` are all present, `Object.values` lists exactly their answers, in index order |
| LevelDetail.LocalScoreMatchesBackend | src/pages/LevelDetail.tsx:106-122 | when every question has exactly one answer, the count shown on the page equals the count the backend computes from the submitted list |
| LevelDetail.Wrap | src/pages/LevelDetail.tsx:120-123 | the expected answers as the backend's optional fields, one for one |
| LevelDetail.PrefixScoresAgree | src/pages/LevelDetail.tsx:106-122 | the local count equals the backend's count over a submitted list that agrees with the answers on every question index |
| LevelDetail.LessonHtml | src/pages/LevelDetail.tsx:227-231 | no newline is left in this page's lesson markup |
| LevelDetail.LessonHtmlPlain | src/pages/LevelDetail.tsx:227-231 | a lesson without backtick, `*` or newline is inserted unchanged, markup included |
| LevelDetail.LessonHtmlKeepsTags | src/pages/LevelDetail.tsx:226-231 | a denylisted tag in a lesson reaches this page as written, where `parseLesson` would have escaped it |
| LevelDetail.LevelDetailPage.constructor | src/pages/LevelDetail.tsx:75-79 | the page starts on the lesson, at question 0, with no answers, no results and not submitting |
| LevelDetail.LevelDetailPage.StartQuiz | src/pages/LevelDetail.tsx:75-79 | the quiz starts at question 0 with no answers; nothing else changes |
| LevelDetail.LevelDetailPage.Answer | src/pages/LevelDetail.tsx:81-83 | only the current question's answer is set; every other entry and field is kept; Next is then enabled exactly when that answer is non-empty |
| LevelDetail.LevelDetailPage.NextQuestion | src/pages/LevelDetail.tsx:85-89 | the question advances by one unless it is the last, and stays a valid index |
| LevelDetail.LevelDetailPage.PrevQuestion | src/pages/LevelDetail.tsx:91-95 | the question goes back by one unless it is the first, and stays a valid index |
| LevelDetail.LevelDetailPage.SubmitEnabledMeansAllAnswered | src/pages/LevelDetail.tsx:316 | with Submit enabled, every question index has an answer and no other key exists |
| LevelDetail.LevelDetailPage.SubmitQuiz | src/pages/LevelDetail.tsx:97-154 | without a level nothing is sent; otherwise the request carries `parseInt(userId)` (0 without a user) and `Object.values(answers)`, the results are the local count over the total once the request succeeds, and `submitting` ends false |
| LevelDetail.LevelDetailPage.Retry | src/pages/LevelDetail.tsx:156-161 | back to the lesson at question 0 with no answers and no results |
| LevelDetail.LocalPassedIff | src/pages/LevelDetail.tsx:114 | the quiz is passed exactly when every question has its expected answer |
| LevelDetail.LocalCorrectFull | src/pages/LevelDetail.tsx:106-114 | all questions are counted right exactly when each has its expected answer |
| LevelDetail.Range | src/pages/LevelDetail.tsx:316 | the question indices `0 .. n-1`, exactly `n` of them |
| PersonalizedLevelDetail.EmptyAnswers | src/pages/PersonalizedLevelDetail.tsx:61 | `new Array(n).fill("")`: `n` empty answers |
| PersonalizedLevelDetail.Unanswered | src/pages/PersonalizedLevelDetail.tsx:86 | the number of falsy answers is at most the number of answers |
| PersonalizedLevelDetail.UnansweredZeroIff | src/pages/PersonalizedLevelDetail.tsx:86-87 | no question is left unanswered exactly when every answer is non-empty |
| PersonalizedLevelDetail.UnansweredOfEmpty | src/pages/PersonalizedLevelDetail.tsx:59-62 | a freshly reset answer array leaves every question unanswered |
| PersonalizedLevelDetail.UnansweredUpdate | src/pages/PersonalizedLevelDetail.tsx:77-87 | setting one answer changes the unanswered count by that entry alone |
| PersonalizedLevelDetail.IncompleteMessage | src/pages/PersonalizedLevelDetail.tsx:90 | the notice is a sentence ending in a full stop; IncompleteMessageInjective shows that it determines the unanswered count |
| PersonalizedLevelDetail.IncompleteMessageInjective | src/pages/PersonalizedLevelDetail.tsx:86-90 | two different unanswered counts never give the same notice, so the count can be read off the text |
| PersonalizedLevelDetail.PersonalizedLevelPage.constructor | src/pages/PersonalizedLevelDetail.tsx:39-49 | the page starts with nothing loaded, no answers, the lesson shown and no result |
| PersonalizedLevelDetail.PersonalizedLevelPage.Load | src/pages/PersonalizedLevelDetail.tsx:56-62 | the dungeon is kept; when the level index exists, that level is loaded with one empty answer per question, otherwise the level and answers are kept |
| PersonalizedLevelDetail.PersonalizedLevelPage.StartQuiz | src/pages/PersonalizedLevelDetail.tsx:198 | the quiz is shown; nothing else changes |
| PersonalizedLevelDetail.PersonalizedLevelPage.AnswerChange | src/pages/PersonalizedLevelDetail.tsx:77-81 | only answer `i` is replaced, the length is kept |
| PersonalizedLevelDetail.PersonalizedLevelPage.Submit | src/pages/PersonalizedLevelDetail.tsx:83-131 | nothing happens without a dungeon id, a user or a level; the "Incomplete" notice comes exactly when some answer is empty and reports how many; otherwise the request carries `parseInt(userId)` and the answers, a reply sets the result and `submitted`, and the Next Level button then shows exactly when every answer is right and a next level exists |
| PersonalizedLevelDetail.PersonalizedLevelPage.Retry | src/pages/PersonalizedLevelDetail.tsx:133-137 | the answers are reset to one empty answer per question (none without a level), with no result, `submitted` cleared and the Next Level button hidden |
| PersonalizedLevelDetail.PersonalizedLevelPage.ReviewLesson | src/pages/PersonalizedLevelDetail.tsx:305-309 | back to the lesson, with the same reset as Retry |
| PersonalizedLevelDetail.PersonalizedLevelPage.RetryBlocksSubmit | src/pages/PersonalizedLevelDetail.tsx:133-137 | after a retry of a level with questions every question is unanswered, so submitting is refused |
| PersonalizedLevelDetail.PersonalizedLevelPage.NextLevelNeedsAllCorrect | src/pages/PersonalizedLevelDetail.tsx:266-286 | the Next Level button shows only with a result whose answers are all right, and it leads to a level that exists |
| AvatarCustomizer.Set | src/components/game/AvatarCustomizer.tsx:31-40 | `{ ...prev, [key]: value }`: the named field reads the new value and every other field is kept |
| AvatarCustomizer.ConfigExtensional | src/components/game/AvatarCustomizer.tsx:26 | a config is determined by its seven fields |
| AvatarCustomizer.SetSame | src/components/game/AvatarCustomizer.tsx:31 | writing back a field's own value changes nothing |
| AvatarCustomizer.Cycle | src/components/game/AvatarCustomizer.tsx:36-39 | for `max >= 1` the next option lies in `[0, max)` and is one step away when that step stays in range |
| AvatarCustomizer.CycleWraps | src/components/game/AvatarCustomizer.tsx:38-39 | forward from the last option gives 0 and backward from 0 gives the last |
| AvatarCustomizer.CycleFromLocked | src/components/game/AvatarCustomizer.tsx:37-39 | an out-of-range current value is pulled back to 0 going forward, and backward to `max - 1` only when it equals `max` |
| AvatarCustomizer.CycleInverse | src/components/game/AvatarCustomizer.tsx:34-42 | on `[0, max)` one step back undoes one step forward and the other way round |
| AvatarCustomizer.UnlockedHairs | src/components/game/AvatarCustomizer.tsx:50 | never more than the number of hair styles |
| AvatarCustomizer.UnlockedOutfits | src/components/game/AvatarCustomizer.tsx:51 | never more than the number of outfits |
| AvatarCustomizer.UnlockedAccessories | src/components/game/AvatarCustomizer.tsx:52 | never more than the number of accessories |
| AvatarCustomizer.UnlockedHairColors | src/components/game/AvatarCustomizer.tsx:53 | never more than the number of hair colours |
| AvatarCustomizer.UnlockedOutfitColors | src/components/game/AvatarCustomizer.tsx:54 | never more than the number of outfit colours |
| AvatarCustomizer.UnlocksMonotone | src/components/game/AvatarCustomizer.tsx:50-54 | a higher level never unlocks fewer items of any kind |
| AvatarCustomizer.FullUnlockThresholds | src/components/game/AvatarCustomizer.tsx:50-54 | each list is fully unlocked exactly from level 10, 10, 12, 15 and 15 respectively |
| AvatarCustomizer.LevelOneUnlocks | src/components/game/AvatarCustomizer.tsx:50-54 | at the default level 1 two styles, two outfits, two accessories and three colours of each kind are open |
| AvatarCustomizer.SliceIndex | src/components/game/AvatarCustomizer.tsx:209-220 | `slice` clamps its index into `[0, len]`, leaving an in-range index alone |
| AvatarCustomizer.Swatches | src/components/game/AvatarCustomizer.tsx:209-227 | the two slices together draw one button per palette colour |
| AvatarCustomizer.SwatchesPartition | src/components/game/AvatarCustomizer.tsx:209-251 | every colour is drawn exactly once in palette order, enabled exactly below the unlock count, with key equal to its index |
| AvatarCustomizer.ColorSwatchesAtLevel | src/components/game/AvatarCustomizer.tsx:209-251 | at a level, the colour swatches enabled are exactly the first unlocked ones of each palette |
| AvatarCustomizer.Customizer.constructor | src/components/game/AvatarCustomizer.tsx:20-27 | the editor starts with the current config, closed, with nothing saved |
| AvatarCustomizer.Customizer.UpdateConfig | src/components/game/AvatarCustomizer.tsx:30-32 | the named field is set and every other field is kept |
| AvatarCustomizer.Customizer.CycleOption | src/components/game/AvatarCustomizer.tsx:34-42 | the named field takes the wrapped next value and every other field is kept |
| AvatarCustomizer.Customizer.PickHairColor | src/components/game/AvatarCustomizer.tsx:209-212 | an enabled hair swatch sets a valid hair colour and nothing else |
| AvatarCustomizer.Customizer.HandleSave | src/components/game/AvatarCustomizer.tsx:44-47 | the current config is passed to `onSave` and the dialog closes |
| DailyLoginBonus.StreakBonus | src/components/game/DailyLoginBonus.tsx:47 | 5 XP per streak day up to 7 days: at most 35, exactly 35 from day 7, positive exactly for a positive streak |
| DailyLoginBonus.TotalXP | src/components/game/DailyLoginBonus.tsx:48 | the reward lies between the base XP and the base XP plus 35 |
| DailyLoginBonus.TotalXPMonotone | src/components/game/DailyLoginBonus.tsx:47-48 | the reward grows with the streak and is flat from the seventh day on |
| DailyLoginBonus.JsRem | src/components/game/DailyLoginBonus.tsx:93 | JavaScript's `%`: the remainder of a negative streak is negative or zero, and it equals the Euclidean one for a non-negative streak |
| DailyLoginBonus.FilledDays | src/components/game/DailyLoginBonus.tsx:93 | a non-negative streak fills 0 to 7 days of the week indicator, a negative one none |
| DailyLoginBonus.FilledDaysCases | src/components/game/DailyLoginBonus.tsx:93-98 | for a non-negative streak the indicator fills 0 to 7 days: none for no streak, seven for a positive multiple of 7, else the position in the current week |
| DailyLoginBonus.NegativeStreakFillsNothing | src/components/game/DailyLoginBonus.tsx:93-98 | a negative streak fills no day |
| DailyLoginBonus.FilledDaysPeriodic | src/components/game/DailyLoginBonus.tsx:93 | the indicator for a positive streak repeats every seven days |
| DailyLoginBonus.BadgeIffCappedBonus | src/components/game/DailyLoginBonus.tsx:107 | the "7-Day Streak Bonus Active!" badge shows exactly when the bonus has reached its cap |
| DailyLoginBonus.BonusDialog.constructor | src/components/game/DailyLoginBonus.tsx:25-27 | the dialog starts with no chest, no XP animation and nothing claimed |
| DailyLoginBonus.BonusDialog.HandleClaim | src/components/game/DailyLoginBonus.tsx:29-31 | the chest plays and the dialog hides; nothing else changes |
| DailyLoginBonus.BonusDialog.HandleChestComplete | src/components/game/DailyLoginBonus.tsx:33-38 | the chest closes, the XP animation starts, the reward is claimed (hiding the Claim button) and `onClaim` is called once |
| DailyLoginBonus.BonusDialog.HandleClose | src/components/game/DailyLoginBonus.tsx:40-44 | the claim and the animation are cleared and `onClose` is called once |
| DailyLoginBonus.BonusDialog.HandleXPComplete | src/components/game/DailyLoginBonus.tsx:168 | the XP animation ends; nothing else changes |
| InteractiveDiagram.ZoomInStep | src/components/game/InteractiveDiagram.tsx:80 | one quarter step up, capped at 2 |
| InteractiveDiagram.ZoomOutStep | src/components/game/InteractiveDiagram.tsx:81 | one quarter step down, floored at 0.5 |
| InteractiveDiagram.ZoomLimits | src/components/game/InteractiveDiagram.tsx:80-81 | the zoom buttons do nothing at their limits |
| InteractiveDiagram.ZoomInverse | src/components/game/InteractiveDiagram.tsx:80-81 | zooming out undoes zooming in below the maximum, and the other way round above the minimum |
| InteractiveDiagram.Apply | src/components/game/InteractiveDiagram.tsx:80-82 | each zoom button keeps an in-range scale in range |
| InteractiveDiagram.Replay | src/components/game/InteractiveDiagram.tsx:80-82 | after any sequence of presses from the start the scale lies in [0.5, 2] |
| InteractiveDiagram.Percent | src/components/game/InteractiveDiagram.tsx:117 | the label of an in-range scale is a multiple of 25 from 50 to 200 |
| InteractiveDiagram.ReplayInRange | src/components/game/InteractiveDiagram.tsx:80-82 | any sequence of button presses keeps the scale in [0.5, 2] on the 0.25 grid |
| InteractiveDiagram.Zoom.constructor | src/components/game/InteractiveDiagram.tsx:41 | the scale starts at 1 |
| InteractiveDiagram.Zoom.HandleZoomIn | src/components/game/InteractiveDiagram.tsx:80 | the scale takes one capped step up and stays in range |
| InteractiveDiagram.Zoom.HandleZoomOut | src/components/game/InteractiveDiagram.tsx:81 | the scale takes one floored step down and stays in range |
| InteractiveDiagram.Zoom.HandleReset | src/components/game/InteractiveDiagram.tsx:82 | the scale goes back to 1 |
| InteractiveDiagram.Zoom.Label | src/components/game/InteractiveDiagram.tsx:117 | the percentage shown is a multiple of 25 from 50 to 200 |
| InteractiveDiagram.Rank | src/components/game/InteractiveDiagram.tsx:206-235 | each template type has its own place in the test order |
| InteractiveDiagram.DetectDiagramType | src/components/game/InteractiveDiagram.tsx:206-235 | a detected type's test holds on the lower-cased content |
| InteractiveDiagram.DetectFirstMatch | src/components/game/InteractiveDiagram.tsx:206-235 | the result is the first type in test order whose test holds, and `null` exactly when none holds |
| InteractiveDiagram.DetectCaseInsensitive | src/components/game/InteractiveDiagram.tsx:207 | the letter case of the lesson does not change the detected type |
| InteractiveDiagram.KeysDistinct | src/components/game/InteractiveDiagram.tsx:144-203 | the eight template keys are distinct |
| InteractiveDiagram.FunctionBeatsArray | src/components/game/InteractiveDiagram.tsx:218-222 | a lesson mentioning a function is drawn as one unless a for loop, an if with an else or a while loop is tested first |
| InteractiveDiagram.IfAloneIsNotIfElse | src/components/game/InteractiveDiagram.tsx:212 | without "else" the `ifElse` template is never chosen |
| InteractiveDiagram.SortingSubsumed | src/components/game/InteractiveDiagram.tsx:227 | the `sorting` test is subsumed by the `sort` test |
| LessonDiagram.GetDiagramTitle | src/components/game/LessonDiagram.tsx:57-69 | every title starts with the chart icon, and a key outside the table gets "📊 Concept Diagram" |
| LessonDiagram.KeyIsTemplateKey | src/components/game/LessonDiagram.tsx:58-67 | every detected type is a key of both the templates and the title table |
| LessonDiagram.TemplateTitlesKnown | src/components/game/LessonDiagram.tsx:58-68 | every template has its own title, never the fallback |
| LessonDiagram.ConceptTitle | src/components/game/LessonDiagram.tsx:77-177 | every concept chart's title starts with the chart icon |
| LessonDiagram.DetectAdditionalConcepts | src/components/game/LessonDiagram.tsx:71-189 | a detected concept's test holds on the lower-cased content |
| LessonDiagram.ConceptFirstMatch | src/components/game/LessonDiagram.tsx:71-189 | the first concept in test order whose test holds wins, and `null` exactly when no test holds |
| LessonDiagram.ConceptCaseInsensitive | src/components/game/LessonDiagram.tsx:72 | the letter case of the lesson does not change the detected concept |
| LessonDiagram.StackGrouping | src/components/game/LessonDiagram.tsx:75 | the and of two keywords binds tighter than the or: "stack" alone selects the stack chart, "push" or "pop" alone does not |
| LessonDiagram.InputOutputGrouping | src/components/game/LessonDiagram.tsx:151 | "print" alone selects the input/output chart; without "print" it needs "output" |
| LessonDiagram.ErrorGrouping | src/components/game/LessonDiagram.tsx:162 | "error" alone selects the error chart; without "error" it needs "except" |
| LessonDiagram.SelectDiagram | src/components/game/LessonDiagram.tsx:15-44 | a template chart carries that template's title and a concept chart its own |
| LessonDiagram.SelectionPriority | src/components/game/LessonDiagram.tsx:15-44 | the content's template comes first, then the title's template (only for a non-empty title), then the content's concept, then nothing |
| LessonDiagram.NoDiagramIff | src/components/game/LessonDiagram.tsx:15-46 | no diagram is drawn exactly when no template test holds on the content or the title and no concept test holds on the content |
| LessonDiagram.TemplateDiagramTitled | src/components/game/LessonDiagram.tsx:19-33 | a template diagram never gets the fallback title |
| Backend.ToJsonable | backend/main.py:105-116 | an ObjectId becomes its string; a list keeps its length and a dictionary its keys in order; every other value is returned as it is |
| Backend.ToJsonableList | backend/main.py:113-114 | a converted list has the length of the original |
| Backend.ToJsonableEntries | backend/main.py:111-112 | a converted dictionary keeps its keys in insertion order |
| Backend.ToJsonableSafe | backend/main.py:105-116 | the result holds no ObjectId at any depth |
| Backend.ToJsonableKeepsSafe | backend/main.py:105-116 | a value without ObjectIds is returned unchanged |
| Backend.ToJsonableIdempotent | backend/main.py:105-122 | cleaning a document twice is the same as cleaning it once |
| Backend.ToJsonableListAt | backend/main.py:113-114 | element `i` of a converted list is the conversion of element `i` |
| Backend.CompletedDungeons | backend/main.py:198-209 | the loop returns the ids of the completed dungeons in dungeon order |
| Backend.CompletedIdsIff | backend/main.py:205-208 | an id is returned exactly when a dungeon with that id has levels and all of them are completed |
| Backend.CompletedIds | backend/main.py:205-208 | at most one id per dungeon document |
| Backend.CompletedIdsInOrder | backend/main.py:204-209 | the ids follow the order of the dungeons, one at most per dungeon |
| Backend.EmptyDungeonNeverCompleted | backend/main.py:207 | a dungeon without levels is never reported completed |
| Backend.PyParseInt | backend/main.py:316 | `int()` on a string succeeds exactly when the text, without the whitespace `int()` skips (the `str.isspace` characters other than U+001C–U+001F) around it, is an optional sign and one or more ASCII digits; a `-` gives a value of at most 0, anything else one of at least 0 |
| Backend.PyStrip | backend/main.py:316 | the text `int()` reads is no longer than the argument and neither starts nor ends with whitespace `int()` skips (the `str.isspace` characters other than U+001C–U+001F) |
| Backend.PyStripPadded | backend/main.py:316 | padding of whitespace `int()` skips (the `str.isspace` characters other than U+001C–U+001F) around a text that neither starts nor ends with such whitespace is exactly what is stripped |
| Backend.PyParseIntDigits | backend/main.py:316 | a text that strips to a run of ASCII digits is read as the decimal value of that run |
| Backend.PyParseIntPadded | backend/main.py:316 | `int()` reads back a printed natural number with any whitespace `int()` skips (the `str.isspace` characters other than U+001C–U+001F) around it |
| Backend.LeadingJunkRejected | backend/main.py:316 | a text whose first character is neither whitespace, a sign nor a digit makes `int()` fail |
| Backend.PyByteOrderMarkRejected | backend/main.py:316 | a leading U+FEFF, which JavaScript's `trim` removes, makes `int()` fail |
| Backend.PyFileSeparatorRejected | backend/main.py:316 | a leading U+001C, for which `str.isspace` holds, is not skipped: `int()` rejects the text |
| Backend.PyNextLineSkipped | backend/main.py:316 | a leading U+0085, which JavaScript's `trim` keeps, is skipped by `int()` |
| Backend.ParseIntValue | backend/main.py:315-318 | `int(req_d)` keeps a number, and a list, dictionary, null or ObjectId is caught as an exception |
| Backend.PyParseIntPrinted | backend/main.py:316 | `int()` reads back a printed natural number |
| Backend.QuestionStatus | backend/main.py:307-324 | "completed" for a completed question; else with a prerequisite "available" exactly when it parses to a completed dungeon and "locked" otherwise; else the stored status or "available" |
| Backend.QuestionStatusMonotone | backend/main.py:307-324 | more progress never locks an open question nor un-completes one |
| Backend.StringPrerequisiteAccepted | backend/main.py:315-320 | a prerequisite stored as the string form of a completed dungeon's id opens the question |
| Backend.AssignStatuses | backend/main.py:307-324 | each question gets its computed status and nothing else of it changes |
| Backend.FilterBy | backend/main.py:327-332 | an absent or empty query keeps every question, and a filter never adds one |
| Backend.FilterByKeeps | backend/main.py:327-332 | a filter keeps, in order, exactly the questions whose field equals the query ignoring case as `Lower` maps it |
| Backend.WithStatuses | backend/main.py:307-324 | every question with its computed status, in the same order |
| Backend.GetQuestions | backend/main.py:285-334 | the statuses are assigned first, then the difficulty, category and status filters in that order |
| Backend.CountCorrect | backend/main.py:558-561 | the count of right answers is at most the number of questions |
| Backend.ScoreLevel | backend/main.py:557-563 | the loop's count is the reference count, and the level is passed exactly when every question is right |
| Backend.CountCorrectFull | backend/main.py:559-563 | full marks exactly when every question has a matching answer at its index |
| Backend.CountCorrectIgnoresExtra | backend/main.py:560 | answers beyond the number of questions are ignored |
| Backend.MissingAnswersFail | backend/main.py:560-563 | with fewer answers than questions the level is never passed |
| Backend.LevelAfter | backend/main.py:426-428 | the level reached is above the old one, its threshold lies above the new XP, and the step before it did not |
| Backend.LevelUp | backend/main.py:424-428 | no level-up below the threshold; otherwise the loop stops at the reference level with `xp_to_next = level * 500` above the new XP |
| Backend.Reward | backend/main.py:417-439 | XP grows by the gain, one more quest is counted, the level never drops and the XP ends below the next threshold; progress lists are untouched |
| Backend.FunctionName | backend/main.py:362-365 | `function_name or "solve"` is never empty, so the 500 error cannot happen |
| Backend.PassCount | backend/main.py:396-411 | the number of passing tests is at most the number of tests |
| Backend.PassCountFull | backend/main.py:413 | every test passes exactly when the count reaches the number of tests |
| Backend.Database.constructor | backend/main.py:152-165 | the users collection starts as given |
| Backend.Database.SubmitLevel | backend/main.py:551-597 | 404 for a missing level or, once passed by a positive user id, a missing user; a first pass awards the level's XP and records the level; every other submission changes nothing and earns 0; the message is "Level completed!" on a pass and "Try again!" otherwise |
| Backend.Database.SubmitSolution | backend/main.py:343-441 | 404 for a missing question or user; a completed quest earns nothing; a code error or a missing function is reported with its message; all tests passing awards the XP and records the quest |
| Backend.LevelAwardedOnce | backend/main.py:571-573 | once a level is recorded, submitting it again awards nothing |
| Backend.RewardGrows | backend/main.py:419-428 | a non-negative gain never lowers the XP or the level |
| PersonalizedLearning.Section | src/pages/PersonalizedLearning.tsx:84-85 | a filtered section is no longer than the list and every dungeon in it has the section's completion flag |
| PersonalizedLearning.SectionMembers | src/pages/PersonalizedLearning.tsx:84-85 | a dungeon is in a section exactly when it is in the list with that completion flag |
| PersonalizedLearning.SectionInOrder | src/pages/PersonalizedLearning.tsx:84-85 | each section keeps the order of the list |
| PersonalizedLearning.SectionsSplit | src/pages/PersonalizedLearning.tsx:84-85 | the two sections together hold every dungeon exactly as often as the list does |
| PersonalizedLearning.SectionsPartition | src/pages/PersonalizedLearning.tsx:84-85 | completed and active dungeons partition the list, in order, and their sizes add up to its size |
| PersonalizedLearning.CompletedDungeons | src/pages/PersonalizedLearning.tsx:84 | the completed section holds exactly the completed dungeons of the list |
| PersonalizedLearning.ActiveDungeons | src/pages/PersonalizedLearning.tsx:85 | the active section holds exactly the dungeons not yet completed |
| PersonalizedLearning.EmptyStateIff | src/pages/PersonalizedLearning.tsx:149-246 | the empty state shows exactly when neither section does |
| PersonalizedLearning.MessageReportsRemaining | src/pages/PersonalizedLearning.tsx:122-125 | below 5 mistakes the message starts with the number still missing, at least 1; from 5 on it is exactly the "Ready" message, which holds no number |
| PersonalizedLearning.RemainingParses | src/pages/PersonalizedLearning.tsx:124 | the number that starts the "more mistakes needed" line reads back as the count printed there |
| PersonalizedLearning.MistakeMessage | src/pages/PersonalizedLearning.tsx:122-125 | the "Ready" line is shown exactly from 5 mistakes on |
| PersonalizedLearning.GenerateDisabled | src/pages/PersonalizedLearning.tsx:130 | the Generate button is enabled exactly when no generation runs and the line under the bar is the "Ready" message |
| PersonalizedLearning.DungeonRoute | src/pages/PersonalizedLearning.tsx:76-78 | the route is `/personalized/` followed by the non-empty Mongo id, else the numeric id |
| PersonalizedLearning.PersonalizedLearningPage.constructor | src/pages/PersonalizedLearning.tsx:14-19 | the page starts loading with no dungeons, a count of 0 and no generation running |
| PersonalizedLearning.PersonalizedLearningPage.Mount | src/pages/PersonalizedLearning.tsx:21-27 | the page redirects to `/login` exactly when no user id is stored or it is empty |
| PersonalizedLearning.PersonalizedLearningPage.FetchData | src/pages/PersonalizedLearning.tsx:29-49 | without a user nothing changes; otherwise loading ends, and a reply sets the dungeons and the count while a failure keeps them |
| PersonalizedLearning.PersonalizedLearningPage.StartGenerate | src/pages/PersonalizedLearning.tsx:51-56 | a request for `parseInt(userId)` is made exactly when a user is signed in and at least 5 mistakes are logged, so always when a signed-in user presses the enabled button; the button is then disabled |
| PersonalizedLearning.PersonalizedLearningPage.FinishGenerate | src/pages/PersonalizedLearning.tsx:56-73 | generation always ends; on success the data are fetched again |
| PersonalizedLearning.PersonalizedLearningPage.ViewExclusive | src/pages/PersonalizedLearning.tsx:149-246 | once loaded, the page shows either the empty state or at least one section, never both |
| Common.ParseIntRoundTrip | src/lib/api.ts:91-92 | `parseInt(String(i))` gives back `i` for every safe integer |
| Common.NatToStringInjective | src/pages/PersonalizedDungeonMap.tsx:72 | different numbers print differently |
| Common.TrimIgnoresPadding | src/lib/validation.ts:7 | whitespace around a string does not change what `trim()` returns |
| Common.Trim | src/lib/validation.ts:7 | the trimmed text is no longer than the argument and neither starts nor ends with whitespace |
| Common.LowerIdempotent | src/components/game/InteractiveDiagram.tsx:207 | lower-casing twice is lower-casing once |
| Common.ContainsAt | src/components/game/InteractiveDiagram.tsx:209 | `includes` holds exactly when the pattern occurs at some index |
| Common.Utf16LengthBounds | src/lib/validation.ts:8-9 | the `.length` of a string lies between its number of code points and twice that |

## Left out

- Browser effects.
  - `fetch`, `await`, `toast` and timers are left out.
  - The data a page loads and the outcome of each request become parameters.
  - A navigation becomes a returned route.
  - `localStorage` becomes a map.
- Sleeping in `apiRequest` is recorded as an event; no time passes.
- The endpoint wrappers of the `api` object are not modelled. They only pass their arguments on to `apiRequest`.
- Backend infrastructure is not modelled: MongoDB queries, FastAPI routing and CORS, bcrypt hashing, id allocation and `datetime`. The model keeps the users collection as a map, and the documents a handler reads become parameters.
- Executing submitted Python with `exec` is not modelled, since the model has no Python runtime. A run is given as its outcome: a load error, a missing function, or a pass/fail result for each test.
- The read-only routes are left out, because they only query and return documents. These are profile, stats, leaderboard, dungeon, level and health. So are signup, login and the `/test` endpoint that runs code without recording it.
- Floating point is left out: progress bars, XP bars and animation timings. The completion percentage is rounded from the exact quotient (see Learn.RoundPercent below), and the zoom scale is kept as integer quarters.
- Case mapping covers ASCII, Latin-1 upper case, KELVIN SIGN and U+0130. JavaScript and Python map some further characters differently, and those are not modelled.
- Backend.PyParseInt models Python `int()` on a string as an optional sign and ASCII digits, with whitespace around them: the ASCII blanks and the non-ASCII characters of `str.isspace`. The ASCII separators U+001C–U+001F, for which `str.isspace` holds, are not skipped, as in CPython. It refuses underscores between digits and non-ASCII digits, which `int()` accepts.
- zod's email pattern is a parameter, `isEmail`. The text of zod's message for a bad enum value is not spelled out.
- Mermaid rendering, SVG output, the Monaco editor and all markup other than the lesson HTML are left out. So is the chest and XP animation.
- The `useDailyLogin` hook is left out, because it only reads and writes `localStorage`.
- Page texts other than the ones the rules compute are left out, as are toast messages.
- PersonalizedLevelDetail.PersonalizedLevelPage.AnswerChange requires an index within the question list. The page only calls it from the radio group of an existing question, so the model does not cover a JavaScript array growing with holes.
- LessonDiagram.GetDiagramTitle takes the key as a string. Keys inherited from `Object.prototype` (such as `constructor`) are not modelled.
- PersonalizedLearning.PersonalizedLearningPage.StartGenerate and FinishGenerate: the asynchronous `handleGenerateDungeon` is modelled as its two halves, before and after the request. Interleavings with other handlers are not modelled.
- Validation.ParseSignup states the verdict and the data, but not the exact list of issues on failure. ParseLogin shows the same issue collection in full.
- Validation.ParseCode states only the data returned on success. Its if-and-only-if is stated by Validation.CodeAcceptedIff.
- Sanitize.UnescapeHtml is not code of the system. It is a reference decoder, used to state that escaping can be undone.
- Common.ParseIntRoundTrip holds for safe integers only. A JavaScript number beyond 2^53 is not held exactly, and from 1e21 on `String` prints an exponent form that `parseInt` reads as its leading digits.
- Api.StoredNumericIdParses holds for ids that are safe integers only, for the same reason.
- Learn.RoundPercent rounds the exact quotient `100c/n`. JavaScript computes `(c / n) * 100` in doubles first, which can fall just below an exact half: for 23 of 40 levels the page shows 57 where the model gives 58. The two differ by one only at such exact halves, and never at 0 or 100.
- Common.JsParseInt reads base 10 only. A radix-less `parseInt` would also read a `0x` prefix as hexadecimal; `setAuth` only ever stores decimal ids.
- Api.ErrorOf takes the `detail` of an error body as a string. A FastAPI validation error (422) has a list as its `detail`, which the source turns into the text "[object Object]"; that case is not modelled.
- Backend.Database.SubmitSolution does not return the `results` list of per-test inputs, expected outputs and outputs, because the outputs of `exec` are not modelled. Only whether each test passed is kept.
- Behaviour of the code that its texts or names do not suggest:
  - The lesson transform of the level page does no HTML escaping, has no italic rule, and rewrites bold before inline code. It is not the `parseLesson` of `src/lib/sanitize.ts`.
  - The username, password and email messages say "less than" while the bounds are inclusive, so 30, 100 and 255 are accepted.
  - A negative streak fills no day of the week indicator, because JavaScript's `%` keeps the sign.
  - A prerequisite dungeon without levels unlocks its dependents on the Learn page, because `every` over an empty list is true. The backend never counts such a dungeon as completed.
  - Learn seeds the unlocked list with the literal id 1, whatever the id of the first dungeon is.
  - `fetchData` without a signed-in user returns before clearing `loading`.
