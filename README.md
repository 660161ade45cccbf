# A verified model of the codebase Q&A front end

This project models the React front end of a codebase question-answering
tool in Dafny. A user hands over a codebase, as a ZIP archive or a GitHub
repository URL, and then asks questions about it in a conversation. Each
answer can carry references to the code.

The model covers these parts:

- **Question page** (`qainterface.dfy`). This is the session controller.
  `handleSubmit` is split at its `await` into `Submit`, the guard plus the
  optimistic append, and `Settle`, which adds exactly one terminal
  message. The page also covers history loading, replaying a past
  question, the mount redirect, "New upload", and rendering by message
  role. The transitions are functions on a `Session` value. The `Page`
  class holds the component's state, and each of its methods is proved to
  perform its transition. Whole sessions are runs of events. Over those
  runs the model proves that each question is answered by exactly one
  reply. It also proves that replaying history while a question is
  pending breaks this.
- **Upload page** (`home.dfy`). It checks a ZIP's size and then its type,
  and a GitHub URL's trimmed text and then its shape. The `loading` and
  `error` states are a `Gate` value driven by `Start` and `Finish`, and
  the `Page` class's handlers are proved to follow them. A successful
  upload stores the codebase id and opens the question page.
- **Status page** (`status.dfy`). It covers the label, colour and icon
  classifiers, the `loading` override, and the health check's update of
  the page.
- **Code reference card** (`codesnippet.dfy`). It covers the line-range
  badge, the gutter start, the language, the external link, and the
  "copied" state with its reset timer.
- **History sidebar** (`questionhistory.dfy`).
- **Request layer** (`api.dfy`). It covers the error interceptor and the
  upload percentage.
- **Pure helpers** (`helpers.dfy`):
  - `formatTimestamp`, on an integer millisecond difference;
  - a segment-by-segment recogniser equivalent to the GitHub URL
    regular expression;
  - the extension-to-language table;
  - `truncate`;
  - `extractRepoName`.
- **JavaScript semantics** the pages rely on (`js.dfy`):
  - `||` on strings;
  - `trim`, with the full ECMAScript white-space set;
  - `split` on one character;
  - decimal rendering of integers.

The values from `constants.js` are in `constants.dfy`. The shared
local-storage entry and the current route are the `Browser.Env` object in
`browser.dfy`. Network requests, the clock and the clipboard are
parameters. Each request is split into the method that issues it and the
method that receives its outcome.

### Where the code departs from the specification of the session

The model follows the code in each of these cases.

- **History refresh.** The history is refreshed only after a successful
  answer (`frontend/src/pages/QAInterface.jsx:64`). A failed question
  refreshes nothing. See `QAInterface.TerminalMessageSpec`.
- **Stale answers are dropped by unmounting, not by an id check.** When a
  request settles, nothing compares codebase ids. Instead, "New upload"
  clears the stored id and navigates to `/`, and that unmounts the
  question page (`frontend/src/App.jsx:12-13`). React then drops the state
  updates of any request still in flight. Coming back to `/qa` builds a
  new page, which reads the stored id again. `QAInterface.Page` records
  this with its `live` flag. After `NewUpload`, `Resolve` and
  `HistoryArrived` leave the page as it is. The history reload after an
  answer is still requested, for the id the question was sent with.
- **Replay while pending.** The rule that every question is followed by
  exactly one reply holds only if no history entry is replayed while a
  question is pending (`QAInterface.RunKeepsTurns`). With such a replay,
  the pending reply lands after the replayed pair
  (`QAInterface.ReplayWhilePending`).
- **No in-flight guard on uploads.** The upload handlers do not check for
  a pending upload. Only the UI disables the controls while `loading` is
  set (`frontend/src/pages/Home.jsx:87, 138, 144`). `Home.StartSpec` shows
  that a valid source is sent whatever is pending.

## Model

| member | source | states |
|---|---|---|
| Js.OrDefault | frontend/src/pages/QAInterface.jsx:69 | `x \|\| d` on a possibly missing string gives `x` when it is present and non-empty, and `d` otherwise. |
| Js.TruthyInt | frontend/src/components/CodeSnippet.jsx:24 | A number that may be missing is truthy exactly when it is present and not 0. Its consequences are stated by `CodeSnippet.LineRangeLabelAgrees` and `CodeSnippet.RenderSnippetSpec`. |
| Js.SkipWhiteSpace | frontend/src/pages/QAInterface.jsx:45 | The scan forward behind `trim` skips only white space. It stops at the end or at the first character that is not white space. |
| Js.SkipWhiteSpaceBack | frontend/src/pages/QAInterface.jsx:45 | The scan backward behind `trim` skips only white space. It stops at the start or just after the last character that is not white space. |
| Js.TrimIsInfix | frontend/src/pages/QAInterface.jsx:45 | `s.trim()` is a contiguous piece of `s` with only white space around it and no white space at either end. |
| Js.TrimEmptyIff | frontend/src/pages/QAInterface.jsx:43 | `!s.trim()` holds exactly when `s` is all white space, including when it is empty. |
| Js.TrimIdempotent | frontend/src/pages/QAInterface.jsx:45 | Trimming twice gives the same text as trimming once. |
| Js.TrimPadded | frontend/src/pages/Home.jsx:122 | Trimming white space around a piece that starts and ends with something else gives exactly that piece. |
| Js.Trim | frontend/src/pages/QAInterface.jsx:45 | `s.trim()` drops the white space at both ends. What it gives is stated by `Js.TrimIsInfix`, `Js.TrimEmptyIff`, `Js.TrimIdempotent` and `Js.TrimPadded`. |
| Js.Split | frontend/src/utils/helpers.js:62 | `split` on one character gives at least one piece. No piece contains the separator, and joining the pieces with it gives back the input. |
| Js.SplitNoSeparator | frontend/src/utils/helpers.js:62 | A string without the separator splits into itself alone. |
| Js.SplitAppend | frontend/src/utils/helpers.js:62 | Splitting `a + sep + b` gives the pieces of `a` followed by the pieces of `b`. |
| Js.Join | frontend/src/utils/helpers.js:62 | `parts.join(sep)`, the inverse of `split` that the contract of `Js.Split` is stated with. |
| Js.LastPiece | frontend/src/utils/helpers.js:25 | `split(sep).pop()`. `Helpers.LastPieceShape` proves it is the text after the last separator, or the whole string when there is none. |
| Js.NatToString | frontend/src/utils/helpers.js:11 | The numeral a template string prints is non-empty, all digits, and has no leading zero. |
| Js.NatToStringRoundTrip | frontend/src/utils/helpers.js:11 | Reading the numeral back gives the number. |
| Js.IntToString | frontend/src/components/CodeSnippet.jsx:26 | A number prints with a leading minus sign exactly when it is negative. |
| Api.InterceptError | frontend/src/services/api.js:26-37 | The message the interceptor throws is never empty. |
| Api.Intercept | frontend/src/services/api.js:24-38 | The response interceptor. `Api.InterceptSpec` states what each kind of settled request becomes. |
| Api.InterceptSpec | frontend/src/services/api.js:24-37 | A response passes through unchanged. A server-side error gives its `error` field, else the server-error text. A request with no response gives the network-error text. Any other error gives its own message, else "An error occurred". |
| Api.RoundHalfUp | frontend/src/services/api.js:55 | `Math.round(n / d)` on integers. `Api.RoundHalfUpNearest` proves it is the nearest integer, halves rounded up. |
| Api.UploadProgress | frontend/src/services/api.js:53-57 | The percentage the progress callback computes. `Api.UploadProgressBounds` and `Api.UploadProgressMonotone` state its range and monotonicity. |
| Api.RoundHalfUpNearest | frontend/src/services/api.js:55 | `Math.round(n / d)` is the nearest integer to `n/d`, with halves rounded up. |
| Api.RoundHalfUpBetween | frontend/src/services/api.js:55 | A quotient between two multiples of the divisor rounds to a value between their factors. |
| Api.UploadProgressBounds | frontend/src/services/api.js:53-57 | While `loaded <= total` and `total > 0`, the percentage is in 0..100. It is 100 when everything has been sent. |
| Api.UploadProgressMonotone | frontend/src/services/api.js:55 | Sending more bytes never gives a smaller percentage. |
| Helpers.RelativeTimeText | frontend/src/utils/helpers.js:10-14 | Only the week-or-older band has no fixed text, because it is the locale date. |
| Helpers.FormatTimestamp | frontend/src/utils/helpers.js:2-15 | `formatTimestamp` on the elapsed milliseconds. `Helpers.FormatTimestampBands` gives the interval for each label and the count shown. |
| Helpers.FormatTimestampBands | frontend/src/utils/helpers.js:2-15 | Each label is chosen exactly on its interval of elapsed milliseconds, so a time in the future reads "Just now". The count shown is the number of whole units elapsed: 1-59 minutes, 1-23 hours or 1-6 days. |
| Helpers.FloorDivBand | frontend/src/utils/helpers.js:6-8 | Floor division by a positive unit: `d / k < n` exactly when `d < n*k`, and `d / k` whole units fit in `d`. |
| Helpers.OwnerEnd | frontend/src/utils/helpers.js:19 | The scan behind `[\w-]+` covers only characters of that class, and it stops at the end or at the first character outside it. |
| Helpers.OwnerSpan | frontend/src/utils/helpers.js:19 | Gives the longest prefix made only of `[\w-]` characters. |
| Helpers.StripPrefix | frontend/src/utils/helpers.js:19 | A literal part of the pattern matches exactly when the text starts with it, and the rest is what follows it. |
| Helpers.RepoPart | frontend/src/utils/helpers.js:19 | The optional trailing `\/?` is taken exactly when the text ends with `/`, and the repository segment with that `/` put back gives the text again. |
| Helpers.ParseGithubUrl | frontend/src/utils/helpers.js:18-21 | Every URL the recogniser accepts is rebuilt exactly from well-formed parts: scheme, optional `www.`, non-empty owner and repository, optional `/`. |
| Helpers.ParseHost | frontend/src/utils/helpers.js:19 | An accepted host part is `github.com/` or `www.github.com/` followed by a well-formed path. |
| Helpers.ParsePath | frontend/src/utils/helpers.js:19 | An accepted path is `owner/repo` with an optional `/`, both segments non-empty and in their character classes. |
| Helpers.IsValidGithubUrl | frontend/src/utils/helpers.js:18-21 | The regular expression test. `Helpers.GithubUrlIff` proves it accepts exactly the URLs built from well-formed parts. |
| Helpers.RenderEnds | frontend/src/utils/helpers.js:19 | A well-formed URL starts with `h` and ends with a repository character or `/`. |
| Helpers.ParseRender | frontend/src/utils/helpers.js:18-21 | Every URL built from well-formed parts is accepted, and recognising it recovers those parts. |
| Helpers.GithubUrlIff | frontend/src/utils/helpers.js:18-21 | `isValidGithubUrl` accepts exactly the URLs built from well-formed parts. |
| Helpers.GithubUrlHost | frontend/src/utils/helpers.js:19 | An accepted URL begins with `http://` or `https://`, then `github.com/` or `www.github.com/`. No other host is accepted. |
| Helpers.GithubUrlRejectsBadScheme | frontend/src/utils/helpers.js:19 | A URL without a scheme is rejected, and so is one with an upper-case scheme. |
| Helpers.ParsePathRejectsExtraSegment | frontend/src/utils/helpers.js:19 | A path with a third segment is rejected. |
| Helpers.GithubUrlRejectsExtraSegment | frontend/src/utils/helpers.js:19 | Adding `/` and any further segment to an accepted URL makes it rejected. |
| Helpers.LowerChar | frontend/src/utils/helpers.js:25 | Lower-casing keeps a character a dot exactly when it was one. |
| Helpers.ToLowerAscii | frontend/src/utils/helpers.js:25 | Lower-casing keeps the length and leaves no upper-case ASCII letter. Every other character is unchanged, and each upper-case letter becomes its lower-case partner. |
| Helpers.LowerIdempotent | frontend/src/utils/helpers.js:25 | Lower-casing twice gives the same text as lower-casing once. |
| Helpers.LanguageTableFacts | frontend/src/utils/helpers.js:26-49 | `yml` and `yaml` both map to `yaml`. No table value is empty or `text`. |
| Helpers.Extension | frontend/src/utils/helpers.js:25 | The lower-cased text after the last dot. `Helpers.LastPieceShape` and `Helpers.LanguageOfStemAndExtension` state what it picks out. |
| Helpers.LanguageFromFilePath | frontend/src/utils/helpers.js:24-51 | `langMap[ext] \|\| 'text'`. `Helpers.LanguageFromFilePathIff` states it is the table entry, or `text` exactly for an unknown extension. |
| Helpers.LanguageFromFilePathIff | frontend/src/utils/helpers.js:24-51 | The language is the table's entry for the lower-cased text after the last dot. It is `text` exactly when that text is not in the table. |
| Helpers.LastPieceShape | frontend/src/utils/helpers.js:25 | `split('.').pop()` contains no dot. It is the whole path when there is no dot, and otherwise what follows the last one. |
| Helpers.LanguageOfStemAndExtension | frontend/src/utils/helpers.js:24-51 | Only the text after the last dot decides the language. |
| Helpers.LanguageIgnoresCase | frontend/src/utils/helpers.js:25-50 | Lower-casing a path does not change its language. |
| Helpers.LanguageExamples | frontend/src/utils/helpers.js:24-51 | Any path ending `.PY` is `python`, and any path ending `.yml` is `yaml`. |
| Helpers.Truncate | frontend/src/utils/helpers.js:54-57 | `truncate(text, maxLength)`. `Helpers.TruncateSpec` states the result. |
| Helpers.TruncateSpec | frontend/src/utils/helpers.js:54-57 | Text no longer than the limit is unchanged. Longer text keeps its first `max` characters followed by `...`. The result is never longer than `max + 3`, and truncating again changes nothing. |
| Helpers.ExtractRepoName | frontend/src/utils/helpers.js:60-67 | `extractRepoName`. `Helpers.ExtractRepoNameOfLastSegment` and `Helpers.ExtractRepoNameOfGithubUrl` state the segment it returns. |
| Helpers.ExtractRepoNameOfLastSegment | frontend/src/utils/helpers.js:60-67 | Gives the last `/`-separated segment, also when the URL ends with one `/`. |
| Helpers.ExtractRepoNameOfGithubUrl | frontend/src/utils/helpers.js:60-67 | For every URL `isValidGithubUrl` accepts, gives its repository segment. |
| CodeSnippet.ZeroLineStartShowsStrayZero | frontend/src/components/CodeSnippet.jsx:24-28 | As written, a reference whose first line is 0 puts a bare "0" in the header. |
| CodeSnippet.HeaderChildAsWritten | frontend/src/components/CodeSnippet.jsx:24-28 | The header's `lineStart && lineEnd && badge` child as written, a stray number included. `CodeSnippet.ZeroLineStartShowsStrayZero` and `CodeSnippet.LineRangeLabelAgrees` state what it shows. |
| CodeSnippet.LineRangeLabel | frontend/src/components/CodeSnippet.jsx:24-28 | The `L{start}–L{end}` badge appears exactly when both line numbers are present and non-zero, and then it names both. Nothing checks that start <= end. |
| CodeSnippet.LineRangeLabelAgrees | frontend/src/components/CodeSnippet.jsx:24-28 | The written header and the corrected badge show the same badge. The written header shows stray text exactly when a line number that `&&` stops at is 0. |
| CodeSnippet.LineRangeLabelDigits | frontend/src/components/CodeSnippet.jsx:26 | For positive line numbers the badge is `L`, the first number's digits, an en dash, `L` and the second number's digits. Reading the digits back gives the numbers. |
| CodeSnippet.StartingLineNumber | frontend/src/components/CodeSnippet.jsx:62 | `reference.lineStart \|\| 1`. `CodeSnippet.RenderSnippetSpec` states it. |
| CodeSnippet.ExternalLink | frontend/src/components/CodeSnippet.jsx:42-52 | The link to the full file, shown when `fullFileUrl` is truthy. `CodeSnippet.RenderSnippetSpec` states it. |
| CodeSnippet.RenderSnippet | frontend/src/components/CodeSnippet.jsx:23-76 | The whole card for one reference. `CodeSnippet.RenderSnippetSpec` states what it shows. |
| CodeSnippet.RenderSnippetSpec | frontend/src/components/CodeSnippet.jsx:23-76 | The code is shown verbatim under its path. The gutter starts at the first line whenever that is a non-zero number, whether or not there is a last line, and at 1 when the first line is missing or 0. With a badge, the gutter starts at the badge's first line. The link appears exactly for a non-empty URL, and the icon is the check mark exactly while `copied`. The language is looked up from the extension. |
| CodeSnippet.CopyButton.constructor | frontend/src/components/CodeSnippet.jsx:8 | The button starts not copied, with no reset pending. |
| CodeSnippet.CopyButton.HandleCopy | frontend/src/components/CodeSnippet.jsx:10-16 | Only a successful clipboard write shows the check mark and arms a reset. A failed one changes nothing. `copied` is only ever true while a reset is pending. |
| CodeSnippet.CopyButton.ResetFires | frontend/src/components/CodeSnippet.jsx:14 | When an armed timer fires, the copy glyph comes back. |
| QuestionHistory.RenderHistory | frontend/src/components/QuestionHistory.jsx:4-33 | The sidebar list at a given time. `QuestionHistory.RenderHistorySpec` states what it shows. |
| QuestionHistory.RenderHistorySpec | frontend/src/components/QuestionHistory.jsx:4-33 | The placeholder appears exactly for an empty history. Otherwise there is one row per entry, in order, and each row shows: the question itself when it has at most 100 characters, and otherwise its first 100 characters followed by `...`; the relative age of its timestamp; and a click payload of the full question. |
| QAInterface.FindQuestion | frontend/src/pages/QAInterface.jsx:83 | `history.find` gives the first entry with exactly that question text, and gives nothing exactly when there is none. |
| QAInterface.Submit | frontend/src/pages/QAInterface.jsx:41-51 | `handleSubmit` up to its `await`. `QAInterface.SubmitRefused` and `QAInterface.OneTurn` state it. |
| QAInterface.AskRequestOf | frontend/src/pages/QAInterface.jsx:54 | The question request a submission sends. `QAInterface.SubmitRefused` and `QAInterface.OneTurn` state it. |
| QAInterface.TerminalMessage | frontend/src/pages/QAInterface.jsx:56-71 | The one reply a settled request adds. `QAInterface.TerminalMessageSpec` states it. |
| QAInterface.Settle | frontend/src/pages/QAInterface.jsx:63-74 | `handleSubmit` after its `await`. `QAInterface.OneTurn` and `QAInterface.AppendKeepsTurns` state it. |
| QAInterface.HistoryReloadOf | frontend/src/pages/QAInterface.jsx:64 | The history reload after a settled request. `QAInterface.TerminalMessageSpec` states it. |
| QAInterface.ApplyHistory | frontend/src/pages/QAInterface.jsx:32-39 | `loadHistory` once it settles. `QAInterface.ApplyHistorySpec` states it. |
| QAInterface.SelectQuestion | frontend/src/pages/QAInterface.jsx:82-94 | `loadHistoryQuestion`. `QAInterface.SelectQuestionSpec` states it. |
| QAInterface.RenderMessage | frontend/src/pages/QAInterface.jsx:169-209 | One conversation entry, dispatched on the role. `QAInterface.RenderConversationSpec` states it. |
| QAInterface.RenderConversation | frontend/src/pages/QAInterface.jsx:150-222 | The message area. `QAInterface.RenderConversationSpec` states it. |
| QAInterface.SubmitRefused | frontend/src/pages/QAInterface.jsx:43 | A blank or all-white-space question, or any submission while one is pending, changes nothing and sends nothing. |
| QAInterface.OneTurn | frontend/src/pages/QAInterface.jsx:41-75 | An accepted question is sent trimmed, with the current codebase id. Before anything settles, the conversation grows by the user's message, the input is cleared and a request is pending. Once it settles, the conversation has grown by exactly two messages, the question and one reply, and nothing is pending. |
| QAInterface.TerminalMessageSpec | frontend/src/pages/QAInterface.jsx:56-71 | The reply is an answer exactly on success. It carries the answer's text, its references (none when missing) and the clock reading. Otherwise it is an error with the failure's message, else "Failed to get answer", and never empty. Only an answer reloads the history, and the reload is for the codebase id the question was sent with. |
| QAInterface.InterceptedFailureShowsItsMessage | frontend/src/pages/QAInterface.jsx:69 | A failure that came through the interceptor shows the interceptor's message, and never the fallback text. |
| QAInterface.ApplyHistorySpec | frontend/src/pages/QAInterface.jsx:32-39 | A failed load keeps the list. A successful one sets it to the response's list, or to empty when that is missing. Nothing else changes. |
| QAInterface.SelectQuestionSpec | frontend/src/pages/QAInterface.jsx:82-94 | A question in the history replaces the conversation with the user/assistant pair of its first entry, even while a request is pending. A question not in the history changes nothing. |
| QAInterface.ClickingRowReplays | frontend/src/pages/QAInterface.jsx:111-114 | Clicking sidebar row `i` replays the first entry with that row's question, which is row `i` unless an earlier entry has the same text. |
| QAInterface.AppendKeepsTurns | frontend/src/pages/QAInterface.jsx:49 | Appending a question to a settled conversation keeps it alternating, and so does appending a reply to a pending one. |
| QAInterface.StepKeepsTurns | frontend/src/pages/QAInterface.jsx:41-94 | Every event keeps the alternating shape when requests settle only while pending and nothing is replayed meanwhile. |
| QAInterface.RunKeepsTurns | frontend/src/pages/QAInterface.jsx:41-94 | Across a whole session, questions sit at the even positions and replies at the odd ones, and the length is odd exactly while a request is pending. So every question but a pending last one gets exactly one reply. This assumes no replay while pending. |
| QAInterface.RunThree | frontend/src/pages/QAInterface.jsx:41-94 | A three-event session is its three steps in order. It is feasible exactly when each reply settles while a request is pending. |
| QAInterface.ReplayWhilePending | frontend/src/pages/QAInterface.jsx:63-92 | Take ask, then replay, then settle. This is a feasible session, and it ends with the replayed pair followed by the pending reply, which breaks the alternation. |
| QAInterface.TwoRepliesInARow | frontend/src/pages/QAInterface.jsx:169-209 | A question followed by two replies is not alternating. |
| QAInterface.RunKeepsPendingVisible | frontend/src/pages/QAInterface.jsx:150-222 | In every session, replays included, the conversation is never empty while a request is pending, so the "Searching codebase..." indicator is always visible then. |
| QAInterface.RenderConversationSpec | frontend/src/pages/QAInterface.jsx:150-222 | The welcome panel appears exactly for an empty conversation. Otherwise there is one entry per message, in order, of the message's own kind and with its text. An answer shows its references section exactly when it has references. The indicator shows exactly while a request is pending. |
| QAInterface.SubmitShowsQuestionAndIndicator | frontend/src/pages/QAInterface.jsx:48-51 | Right after an accepted question, the thread ends with the trimmed question and the indicator is showing. |
| QAInterface.CodebaseCaption | frontend/src/pages/QAInterface.jsx:135 | The header is `Codebase: `, then exactly the first twelve characters of a longer id, all of an id of at most twelve, or nothing without an id, then `...`. It is never longer than 25 characters. |
| QAInterface.Page.constructor | frontend/src/pages/QAInterface.jsx:10-14 | The page starts with no id, an empty input, no messages, nothing pending and no history. It is not yet on screen. |
| QAInterface.Page.Mount | frontend/src/pages/QAInterface.jsx:18-26 | With no stored id, or an empty one, the page goes to `/`, requests no history and never comes on screen. Otherwise it adopts the stored id, is on screen, and requests that id's history. |
| QAInterface.Page.EditQuestion | frontend/src/pages/QAInterface.jsx:236 | Only the input changes. |
| QAInterface.Page.BeginSubmit | frontend/src/pages/QAInterface.jsx:41-54 | Performs `Submit` and returns the request `AskRequestOf` names. A question sent always carries the page's codebase id. The page's invariant holds afterwards. |
| QAInterface.Page.Resolve | frontend/src/pages/QAInterface.jsx:54-74 | On a page still on screen, performs `Settle`. On a page that has gone, changes nothing. Either way it returns the reload `HistoryReloadOf` names for the request's own codebase id. |
| QAInterface.Page.HistoryArrived | frontend/src/pages/QAInterface.jsx:32-39 | On a page still on screen, performs `ApplyHistory`. On a page that has gone, changes nothing. |
| QAInterface.Page.SelectHistoryQuestion | frontend/src/pages/QAInterface.jsx:82-94 | Performs `SelectQuestion`. |
| QAInterface.Page.NewUpload | frontend/src/pages/QAInterface.jsx:77-80 | The stored id is removed and the route becomes `/`, which takes the page off screen. Its state is left as it was. |
| Home.ValidateZipSpec | frontend/src/pages/Home.jsx:186-193 | A file passes exactly when it is at most 7 MiB and of an allowed type. An oversized file reports "too large" whatever its type. A file of exactly the limit passes the size check. |
| Home.ValidateZipExamples | frontend/src/pages/Home.jsx:186-193 | An 8 MiB archive is too large. A 1 KiB one of either ZIP type passes. A 1 KiB tarball is refused for its type. |
| Home.ValidateZip | frontend/src/pages/Home.jsx:186-193 | The file checks of `handleFileAccepted`, size first. `Home.ValidateZipSpec` states them. |
| Home.ValidateGithub | frontend/src/pages/Home.jsx:210-213 | The URL check of `handleGithubSubmit`: exactly `isValidGithubUrl`, whose language `Helpers.GithubUrlIff` states. |
| Home.GithubFormSubmitSpec | frontend/src/pages/Home.jsx:120-123 | The form submits exactly when the URL has something besides white space, and it submits the trimmed text. |
| Home.GithubUrlWithPaddingAccepted | frontend/src/pages/Home.jsx:120-123 | A repository URL typed with white space around it reaches the page trimmed, and passes the check there. |
| Home.GithubFormSubmit | frontend/src/pages/Home.jsx:120-123 | The form's submit handler. `Home.GithubFormSubmitSpec` states it. |
| Home.OnDrop | frontend/src/pages/Home.jsx:63-68 | The dropzone callback. `Home.OnDropSpec` states it. |
| Home.OnDropSpec | frontend/src/pages/Home.jsx:63-68 | Only the first dropped file is handled. An empty drop does nothing. |
| Home.StartSpec | frontend/src/pages/Home.jsx:184-216 | A rejected source only sets the error to the check's message and leaves `loading` as it was. An accepted one sets `loading` and clears the error, even if an upload is pending. |
| Home.FinishSpec | frontend/src/pages/Home.jsx:198-226 | Nothing is pending afterwards. A failure shows its message, else "Failed to upload file. Please try again." for a ZIP or "Failed to clone repository" for a URL. A failure from the interceptor always shows its own message. |
| Home.Start | frontend/src/pages/Home.jsx:184-196 | An upload handler up to its `await`. `Home.StartSpec` states it. |
| Home.Finish | frontend/src/pages/Home.jsx:198-206 | An upload handler after its `await`. `Home.FinishSpec` states it. |
| Home.Page.constructor | frontend/src/pages/Home.jsx:181-182 | The page starts with nothing pending and no error. |
| Home.Page.HandleFileAccepted | frontend/src/pages/Home.jsx:184-199 | Performs `Start` for the file, and sends the file exactly when it passes the checks. |
| Home.Page.HandleGithubSubmit | frontend/src/pages/Home.jsx:209-219 | Performs `Start` for the URL, and sends the URL exactly when `isValidGithubUrl` accepts it. |
| Home.Page.FinishUpload | frontend/src/pages/Home.jsx:199-226 | Performs `Finish`. On success it stores the codebase id and opens `/qa`. On failure the browser is left alone. |
| Status.StatusLabelSpec | frontend/src/pages/Status.jsx:45-50 | While a check runs, every label is "Checking". Otherwise `online`, `connected` and `available` are "Operational", `error` is "Error", `checking` is "Checking", and anything else is "Unknown". |
| Status.ColourAndIconFollowLabel | frontend/src/pages/Status.jsx:35-56 | The colour and icon follow the label: yellow and a spinner exactly for "Checking", green and a check exactly for "Operational", red and a cross otherwise. |
| Status.StatusLabel | frontend/src/pages/Status.jsx:45-50 | `getStatusLabel`. `Status.StatusLabelSpec` states it. |
| Status.StatusColour | frontend/src/pages/Status.jsx:52-56 | `getStatusColor`. `Status.ColourAndIconFollowLabel` states it. |
| Status.StatusIcon | frontend/src/pages/Status.jsx:35-43 | `StatusIcon`. `Status.ColourAndIconFollowLabel` states it. |
| Status.RenderHealth | frontend/src/pages/Status.jsx:66-119 | The three service rows. `Status.RenderFixedStates` states them for the initial and the failed state. |
| Status.RenderFixedStates | frontend/src/pages/Status.jsx:66-115 | The initial state shows three spinning yellow "Checking" rows with the built-in descriptions. After a failed check, the backend reads "Error" with "Backend unreachable", and the database and the model read "Unknown" with "Cannot check", all in red. |
| Status.StatusPage.constructor | frontend/src/pages/Status.jsx:6-12 | All three services start as `checking`, with no last check and `loading` set. |
| Status.StatusPage.BeginFetch | frontend/src/pages/Status.jsx:15 | Sets `loading` and changes nothing else. |
| Status.StatusPage.ResolveFetch | frontend/src/pages/Status.jsx:16-28 | A successful check replaces the statuses and records the time. A failed one shows the fallback set and keeps the previous time. Either way `loading` ends false. |

## Findings

| source | as written | input that shows it | evidently intended | confidence | as-written member | corrected member |
|---|---|---|---|---|---|---|
| frontend/src/components/CodeSnippet.jsx:24-28 | `{reference.lineStart && reference.lineEnd && (<span>…</span>)}` evaluates to the number 0 when a line number is 0, and React renders it as text | a reference with `lineStart: 0` (or `lineStart: 5, lineEnd: 0`) | no badge and no stray text | low, as the backend likely sends 1-based lines; not executed | CodeSnippet.ZeroLineStartShowsStrayZero | CodeSnippet.LineRangeLabel |

## Left out

- `formatFileSize`: it uses floating-point `Math.log` and `Math.pow`.
- Locale-dependent text: `toLocaleDateString` (the `LocaleDate` label) and `toLocaleString` (the "Last checked" line) stay abstract.
- `copyToClipboard` and `navigator.clipboard`: the write's success is a parameter of `HandleCopy`.
- The network: axios configuration (base URL, 30-second timeout, headers), `FormData`, the endpoints, the request interceptor (an identity), and console logging. Requests are returned as values and their outcomes are passed in.
- Async interleaving inside React: a submit handler reads `loading` from the render it was created in, so two submits within one render could both pass the guard. The model applies each event to the current state.
- Presentation state: the sidebar toggle, the upload-type tabs, drag highlighting, `scrollIntoView`, Tailwind classes, the navbar and the routes of `App.jsx` beyond their effect that leaving `/qa` unmounts the question page.
- The dropzone library's own `accept` and `maxSize` filtering before `onDrop`: the model takes the list it hands over.
- Inherited `Object.prototype` keys of `langMap` (such as `constructor`): the table is a finite map.
- Helpers.ToLowerAscii: lower-cases ASCII letters only. Full Unicode `toLowerCase` is not modelled. Every table key is ASCII.
- Helpers.ExtractRepoName: the `catch` branch returning `repository` is not modelled. It needs a non-string argument, and the model takes strings.
- Helpers.Truncate: takes a non-negative `maxLength`; negative lengths are not modelled. Lengths and the cut point count Unicode code points, whereas JavaScript's `length` and `substring` count UTF-16 code units. So text with characters outside the Basic Multilingual Plane (emoji, for instance) is cut at a different place: 60 emoji are 120 units in JavaScript.
- QuestionHistory.RenderHistorySpec: the 100-character preview counts code points, not UTF-16 code units, as for `Helpers.Truncate`.
- QAInterface.CodebaseCaption: the first twelve characters are code points, whereas `substring(0, 12)` takes twelve UTF-16 code units and can split a surrogate pair.
- CodeSnippet.RenderSnippet: the card shows the corrected badge (`CodeSnippet.LineRangeLabel`), with no stray text. The stray `0` the header shows as written is modelled by `CodeSnippet.HeaderChildAsWritten` and exhibited by `CodeSnippet.ZeroLineStartShowsStrayZero`, as listed under Findings.
- Helpers.GithubUrlRejectsBadScheme: the other concrete URLs are not stated literally. Acceptance of `https://github.com/acme/widget` and its `http`, `www.` and trailing-`/` variants is covered by `Helpers.ParseRender` for all well-formed parts. Rejection of a third segment and of other hosts is covered by `Helpers.GithubUrlRejectsExtraSegment` and `Helpers.GithubUrlHost`.
- Non-string payloads: the model assumes `answer` and `codebaseId` are strings. A missing `answer` would render as empty, and a missing `codebaseId` would be stored as the text `undefined`.
- `HISTORY_LIMIT` in `constants.js` is unused by the pages.
- The status page's mount effect is the constructor followed by `BeginFetch`. The Refresh button's `disabled` state is presentation.
