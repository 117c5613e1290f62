# utube: a verified model of the YouTube analyzer and generation views

The application is a browser front end for a generative-AI SDK. It has
four views: a YouTube video analyzer, a standalone video generator, a
content hub (image, video and audio-script cards) and a chat. This project
models the deterministic parts of those views and of their helpers:

- `utils.ts`: `parseJSON`, `parseHTML` and `getYouTubeVideoId`. The
  regex fallback and its twin `getYouTubeId` in `AnalyzerView.tsx` are
  written out as an explicit search (module `IdPattern`). The greedy `^.*`
  picks the rightmost marker in the first line, the alternatives are tried
  in source order, and the ID is the run up to `#`, `&` or `?`. The
  `new URL` decomposition follows the URL parsing rules for the cases
  these links take (module `WebUrl`): trimming, the special schemes and
  their slashes, credentials and port, host, path and query.
- `services/geminiService.ts`, in `analyzeYouTubeVideo`:
  - the URL guard;
  - the trim and the removal of a leading `` ```json `` fence and a
    trailing fence;
  - the three field checks;
  - the mapping of every thrown value to one of three messages.

  The history mapping of `streamChatResponse` is modelled too.
- The video job that `GeneratorView.tsx` and `ContentGenerationHub.tsx`
  both run (module `VideoJob`):
  - the polling loop;
  - the saturating progress index;
  - the three-way completion (no URI, a fetch that is not OK, an object
    URL).
- The views as classes whose fields are the React state. Each handler is
  a method that changes the fields in the source's order, with the
  `try`/`catch`/`finally` blocks spelled out:
  - `AnalyzerView`;
  - `GeneratorView`;
  - `ContentGenerationHub`, including the card's `disabled` condition;
  - `ChatView`, including the `for await` accumulation of the stream.

The SDK, `JSON.parse`, `fetch` and the speech engine are inputs:

| Oracle | Given as |
|---|---|
| SDK reply | a `Result` holding the reply text or the thrown value |
| `JSON.parse` | a function from text to a value or an error message |
| video backend | the sequence of answers to the start call and the status checks |
| `fetch` | a function from the download URL to the `ok` flag, the status and the object URL (or what `blob()` threw); a `fetch` that rejects is given as `ok` with its rejection in place of the object URL, which ends the run the same way |
| chat stream | its fragments, plus whether it fails after them |
| speech engine | one flag: is it speaking |

JavaScript's `trim`, `indexOf`, `lastIndexOf`, `includes`, `startsWith`
and `endsWith` are written out in module `Text`. Module `Js` holds the
thrown values and their `instanceof` class.

## Model

| member | source | states |
|---|---|---|
| Utils.ParseJson | utils.ts:7-16 | succeeds exactly when the parser accepts the trimmed text, with its value; every failure is a SyntaxError carrying the fixed not-valid-JSON message |
| Utils.ParseJsonIgnoresPadding | utils.ts:11 | whitespace around the input never changes the result |
| Utils.ParseJsonOfTrimmed | utils.ts:11 | parsing already-trimmed text gives what parsing the original gave |
| Utils.ParseHtml | utils.ts:18-25 | a non-empty result is a slice from the first doctype to the last closer; no doctype or no closer gives '' |
| Utils.ParseHtmlSlice | utils.ts:19-24 | when the last closer follows the first doctype, the result is exactly `str[start..end]`, of length `end - start` |
| Utils.ParseHtmlClosedBeforeDoctype | utils.ts:21-23 | a last closer at or before the first doctype gives '' |
| Utils.ParseHtmlIgnoresOpener | utils.ts:18 | the `opener` argument has no effect |
| Utils.StructuredId | utils.ts:38-57 | any ID is 11 characters; an 11-character `v` on a youtube.com host wins; failing that, an 11-character youtu.be path; failing both, an 11-character `/embed/` path; no ID exactly when none of the three applies |
| Utils.GetYouTubeVideoId | utils.ts:32-69 | '' gives null; any ID is 11 characters; a structured hit is returned; an unparsable URL or a structured miss falls through to the pattern search |
| Utils.FallbackIdHasNoStops | utils.ts:58-66 | an ID from the pattern search holds no '#', '&' or '?' |
| Utils.WatchLinkYieldsId | utils.ts:38-43 | `https://www.youtube.com/watch?v=<id>` yields `id` for every 11-character id in the YouTube ID alphabet |
| Utils.ShortLinkYieldsId | utils.ts:45-50 | `https://youtu.be/<id>` followed by nothing, a query or a fragment yields `id`, for an id in the YouTube ID alphabet (the `?si=` sample link is one case) |
| Utils.EmbedLinkYieldsId | utils.ts:52-57 | `https://www.youtube.com/embed/<id>`, optionally with a fragment, yields `id`, for an id in the YouTube ID alphabet |
| WebUrl.Parse | utils.ts:36 | a parsed path holds no '?' or '#'; a special scheme always has a non-empty host and a path starting with '/' |
| WebUrl.HostName | utils.ts:36 | the host never holds ':'; a special scheme's host is non-empty and lower-case |
| WebUrl.HostNameDropsUserinfoAndPort | utils.ts:36 | the host is the text after the last '@' up to the port's ':': the credentials and a valid port are dropped, with or without credentials, for every scheme |
| WebUrl.ParseIgnoresLeadingControl | utils.ts:36 | a leading control character or space does not change the parse |
| WebUrl.SpecialSlashesOptional | utils.ts:36 | after a special scheme, no slash, one slash and two slashes parse alike |
| WebUrl.ParseAuthorityUrl | utils.ts:36 | `scheme://host<tail>` with a special scheme parses to that host, the tail's path (or '/') and its query |
| IdPattern.Exec | components/AnalyzerView.tsx:10-11 | no match exactly when no marker starts in the first line; otherwise the match is at the rightmost such marker and captures the maximal run free of '#', '&', '?' |
| IdPattern.ShortLinkMatchesId | components/AnalyzerView.tsx:10-12 | in `https://youtu.be/<id>?<q>` the pattern finds `id` when neither part holds a line terminator or the start of a marker and `id` holds no stop |
| IdPattern.MatchId | components/AnalyzerView.tsx:9-13 | non-null exactly when the capture has length 11, and then it is that capture, with no '#', '&' or '?' |
| GeminiService.StripFences | services/geminiService.ts:36 | the result is the text between an optional leading fence plus its whitespace and an optional closing fence; the closing fence goes only when it starts at or after the end of the leading match |
| GeminiService.StripFencesUnwraps | services/geminiService.ts:36 | "```json", whitespace, a body and "```" unwrap to exactly the body |
| GeminiService.StripFencesPlain | services/geminiService.ts:36 | text with neither fence is unchanged |
| GeminiService.StripFencesClosingOnly | services/geminiService.ts:36 | a lone closing fence is the only thing removed |
| GeminiService.TryBlock | services/geminiService.ts:31-43 | returns exactly when the SDK answered, the cleaned text parsed and the value passes the three checks, and then returns that value unchanged |
| GeminiService.Caught | services/geminiService.ts:45-51 | a SyntaxError becomes the not-JSON message, anything else the generic one; both are plain Errors |
| GeminiService.Analysis | services/geminiService.ts:12-52 | a URL naming neither host fails with the guard message; success has the analysis shape; every failure is a plain Error |
| GeminiService.AnalyzeYouTubeVideo | services/geminiService.ts:12-52 | the step-by-step guard, trim, strip, parse, checks and catch settle to `Analysis` |
| GeminiService.AnalysisSucceedsIff | services/geminiService.ts:13-43 | success exactly when the guard passes, the SDK answers, the cleaned text parses and has the shape; the value is returned unchanged |
| GeminiService.AnalysisFailureMessages | services/geminiService.ts:13-50 | every failure carries one of the three fixed messages |
| GeminiService.UnparsableReplyMessage | services/geminiService.ts:37-48 | unparsable cleaned text ends with the not-JSON message |
| GeminiService.MalformedReplyMessage | services/geminiService.ts:39-50 | a parsed value failing the checks (null included) ends with the generic message |
| GeminiService.SdkFailureMessage | services/geminiService.ts:32-50 | a failed SDK call is classified by its class alone |
| GeminiService.FencedReplyAnalysesAsBare | services/geminiService.ts:34-37 | a fenced reply analyses exactly as its bare JSON body |
| GeminiService.SameCleanTextSameAnalysis | services/geminiService.ts:34-43 | the analysis depends on the reply only through its cleaned text |
| GeminiService.ToChatHistory | services/geminiService.ts:60-63 | same length; each entry keeps its role and gets the single part holding its content |
| GeminiService.ChatHistoryRoundTrip | services/geminiService.ts:60-63 | reading the history back gives the transcript, so nothing is lost or reordered |
| GeminiService.ChatHistoryAppend | services/geminiService.ts:60-63 | the mapping distributes over concatenation |
| VideoJob.FirstStop | components/GeneratorView.tsx:36-41 | the index of the first answer that is done or threw; every earlier one is neither |
| VideoJob.ProgressIndexSaturates | components/GeneratorView.tsx:38 | after k polls the message index is `min(k, n - 1)` |
| VideoJob.ProgressMessages | components/GeneratorView.tsx:31-39 | k polls show k + 1 messages, the i-th being `messages[min(i, n - 1)]` |
| VideoJob.ProgressEndsOnLastMessage | components/GeneratorView.tsx:38 | once the polls reach n - 1 the last message stays |
| VideoJob.FetchFailedMessageNamesStatus | components/GeneratorView.tsx:49 | the not-OK message is the fixed prefix followed by the status in decimal |
| VideoJob.Outcome | components/GeneratorView.tsx:43-57 | success only when the finished operation names a video and its fetch is OK, and then the result is exactly what reading the body gave |
| VideoJob.OutcomeFailures | components/GeneratorView.tsx:43-57 | fails exactly when a call threw, there is no URI, the fetch is not OK or the body read threw; each gives its fixed message |
| VideoJob.OnePollScenario | components/GeneratorView.tsx:34-54 | an operation done on the first status check, served OK, gives one poll and the object URL |
| VideoJob.Run | components/GeneratorView.tsx:30-57 | the loop polls exactly up to the first stop, shows the progress messages then the success message, and ends in `Outcome` |
| Generator.ProgressNeverPassesLastMessage | components/GeneratorView.tsx:38 | the generator's index after k polls is `min(k, 5)` |
| Generator.GeneratorView.constructor | components/GeneratorView.tsx:17-21 | the initial state: empty prompt, no run, no message, URL or error |
| Generator.GeneratorView.CanSubmit | components/GeneratorView.tsx:25 | a run may start exactly when the prompt is not all whitespace and no run is in progress |
| Generator.GeneratorView.Generate | components/GeneratorView.tsx:27-66 | the run past the guard: polls to the first stop, shows the progress then the success message, and ends with the URL or the prefixed error, loading off, no message |
| Generator.GeneratorView.HandleSubmit | components/GeneratorView.tsx:23-67 | a blank prompt or a running job changes nothing; otherwise the URL or the prefixed error, loading off and no message at the end |
| Generator.GeneratorView.Settle | components/GeneratorView.tsx:54-66 | the catch and finally blocks: the URL or the prefixed error, loading off, no message |
| Generator.GeneratorView.HandleSampleClick | components/GeneratorView.tsx:69-72 | sets the sample prompt and nothing else |
| Hub.GenerateDisabled | components/ContentGenerationHub.tsx:60 | the button is disabled exactly when loading, when prompts are loading, or for a text-area card with an all-whitespace prompt |
| Hub.VideoProgressNeverPassesLastMessage | components/ContentGenerationHub.tsx:150 | the hub's index after k polls is `min(k, 3)` |
| Hub.ContentGenerationHub.constructor | components/ContentGenerationHub.tsx:76-94 | the initial state: prompts loading, every panel idle and empty |
| Hub.ContentGenerationHub.FetchPrompts | components/ContentGenerationHub.tsx:106-120 | nothing for an empty analysis; both prompts or both errors; the spinner off; the script card and results untouched |
| Hub.ContentGenerationHub.HandleGenerateImage | components/ContentGenerationHub.tsx:124-136 | the image card ends with the URL or the error message and loading off; other cards unchanged |
| Hub.ContentGenerationHub.HandleGenerateVideo | components/ContentGenerationHub.tsx:138-173 | polls to the first stop; the video card ends with the URL or the unprefixed error, loading off and no message; other cards unchanged |
| Hub.ContentGenerationHub.BeginVideo | components/ContentGenerationHub.tsx:139-143 | the video card is loading on its first message with no URL or error; the prompt and the other cards unchanged |
| Hub.ContentGenerationHub.SettleVideo | components/ContentGenerationHub.tsx:163-172 | the video card gets the URL or the error message, loading off and no message; the other cards unchanged |
| Hub.ContentGenerationHub.HandleGenerateScript | components/ContentGenerationHub.tsx:175-192 | speech is cancelled exactly when it was playing; the script card ends with the script or the error and loading off; other cards unchanged |
| Chat.Concat | components/ChatView.tsx:37-39 | no fragments give ''; one fragment is shown as is; the latest fragment always ends the shown text |
| Chat.ConcatAppend | components/ChatView.tsx:37-39 | joining the fragments distributes over splitting them |
| Chat.ConcatContainsFragments | components/ChatView.tsx:37-39 | every fragment appears in the join at the position of the ones before it |
| Chat.ConcatExample | components/ChatView.tsx:37-45 | `["Hel", "lo", "!"]` streams into "Hello!" |
| Chat.ReplyEntries | components/ChatView.tsx:35-48 | a send adds at least one entry, all from the model: the apology alone when the stream never opens; otherwise the joined stream, followed by the apology exactly when the stream fails after opening |
| Chat.SendOnlyAppends | components/ChatView.tsx:26-48 | the old transcript is a prefix, then one user entry, then model entries only |
| Chat.ChatView.constructor | components/ChatView.tsx:8-10 | the initial state: no entries, empty input, not loading |
| Chat.ChatView.CanSend | components/ChatView.tsx:23 | a send goes ahead exactly when the input is not all whitespace and no reply is streaming |
| Chat.ChatView.Send | components/ChatView.tsx:25-51 | the user's entry, the request with the earlier transcript, the reply's entries appended, the input cleared, loading off; the shown content after each fragment |
| Chat.ChatView.HandleSendMessage | components/ChatView.tsx:21-52 | blank input or a send in progress changes nothing; otherwise the request carries the earlier transcript, the entries are appended, the input is cleared and loading ends off |
| Chat.ChatView.StreamInto | components/ChatView.tsx:35-45 | one placeholder is appended; after fragment i the shown content is the join of the first i + 1 fragments |
| Analyzer.EmbedSourceRoundTrip | components/AnalyzerView.tsx:82 | the embedded player's address reads back to the ID the pattern found, for an ID in the YouTube ID alphabet |
| Analyzer.SampleUrlId | components/AnalyzerView.tsx:49 | the pattern finds `4Tm6Z1y3h94` in the sample link |
| Analyzer.AnalyzerView.constructor | components/AnalyzerView.tsx:16-20 | the initial state: empty field, no ID, analysis or error, not loading |
| Analyzer.AnalyzerView.ShowsResult | components/AnalyzerView.tsx:76 | the panel needs an analysis, a non-empty ID and loading off; for an analysis object those suffice |
| Analyzer.AnalyzerView.HandleUrlSubmit | components/AnalyzerView.tsx:22-46 | '' changes nothing; no ID sets only the invalid-URL error; otherwise the analysis and ID or the failure message, loading off, and the result panel shown exactly on success |
| Analyzer.AnalyzerView.Begin | components/AnalyzerView.tsx:31-34 | loading on; analysis, error and ID cleared |
| Analyzer.AnalyzerView.Settle | components/AnalyzerView.tsx:36-45 | the analysis and ID or the failure message with neither; loading off; the panel shown exactly on success |
| Analyzer.AnalyzerView.HandleSampleClick | components/AnalyzerView.tsx:48-52 | the field holds the sample link, then the submit's outcome: the analysis and the ID `4Tm6Z1y3h94`, or the failure message, loading off, the panel shown exactly on success |

## Left out

- The SDK calls are inputs, not models: `generateContent`, `startChat`,
  `sendMessageStream`, `generateSuggestedPrompts`, `generateImage`,
  `generateScriptForTTS`, `startVideoGeneration` and
  `checkVideoGenerationStatus`. The prompts the views send are not
  modelled.
- `fetch`, `response.blob()` and `URL.createObjectURL` are one input
  function of the download URL.
- The 10-second `setTimeout` waits are not modelled: each wait is one
  step of the loop.
- `handlePlayAudio`, `handleStopAudio`, the utterance callbacks and the
  unmount cleanup need the speech engine, a platform singleton. Only its
  `speaking` flag enters, in `HandleGenerateScript`.
- `new URL` follows the URL parsing rules only as far as these links
  need. It trims leading and trailing controls and spaces, removes tabs
  and newlines, and skips any slashes and backslashes after a special
  scheme (`http`, `https`, `ws`, `wss`, `ftp`). It drops credentials and
  a valid port, lower-cases a special host, and reads a backslash as '/' in a
  special path. It has no percent-encoding or decoding, IDNA, IPv4 or IPv6
  host parsing, forbidden host code points, dot segments, or the `file`
  scheme's own rules. Relative references are rejected. `searchParams.get`
  decodes only `+`.
- Utils.WatchLinkYieldsId: stated only for IDs made of ASCII letters,
  digits, '-' and '_' (the YouTube ID alphabet). URL parsing strips,
  rewrites, percent-encodes or percent-decodes other characters (controls,
  spaces, '\\', '%', '"', '<', '>', '`', '{', '}', non-ASCII), and the
  model does not percent-encode or decode.
- Utils.ShortLinkYieldsId: the same ID alphabet, and a tail without
  controls or spaces, which URL parsing would strip.
- Utils.EmbedLinkYieldsId: the same ID alphabet, and a fragment without
  controls or spaces.
- Analyzer.EmbedSourceRoundTrip: the same ID alphabet, for the same
  reason. An ID with a backslash or a percent-encoded character does not
  read back in the source either.
- The JS regex engine is replaced by the explicit search in `IdPattern`.
- `JSON.parse` is an input function. `Json.Value` keeps only what the
  checks read.
- String lengths count Dafny characters, not UTF-16 code units.
- React batching, stale closures and `useEffect` lifecycles are not
  modelled: each state setter is a direct field assignment.
- The intermediate loading messages are returned as the `shown` trace;
  the field writes themselves are not observed.
- The API-key environment check at module load is configuration, so it is
  left out.
- `App.tsx`, `UrlInputForm.tsx`, `AnalysisDisplay.tsx` and the icons only
  render.
- `types.ts` declares an analysis shape that differs from what the
  validation checks. The model follows the validation.
- Generator.GeneratorView.HandleSubmit: requires that the backend
  eventually answers with a done operation or throws. The source polls
  forever otherwise, and that run is not modelled.
- Hub.ContentGenerationHub.HandleGenerateVideo: same requirement, for the
  same reason.
- Hub.ContentGenerationHub.FetchPrompts: in the source, an empty analysis
  returns before the spinner is cleared, so `isPromptLoading` stays as it
  was. The model does the same and claims nothing more.
- A `null` parsed value throws a TypeError when `.title` is read. The
  model keeps only its class, because the catch block discards the
  message.
