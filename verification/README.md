# Tone translator: session state, history log and request outcome

This project models the logic of a browser "tone translator". A user types a
sentence and picks one of four registers: `friend`, `boss`, `date` or `ai`. The
app asks a hosted chat model to rephrase the sentence in that register and
shows the reply. It keeps the ten most recent attempts in a history list,
newest first, mirrored into browser storage under the key `translationHistory`.

The model has five modules:

- `Wrappers` (`wrappers.dfy`): the `Option` type. It stands for JavaScript's
  `undefined` and for missing values.
- `Text` (`text.dfy`): JavaScript's `String.prototype.trim` over the ECMAScript
  WhiteSpace and LineTerminator code points. It also holds the decimal rendering
  of an integer in a template literal, and a parser that reads that rendering
  back.
- `Api` (`api.dfy`): `translateText` as a total function. It takes the API key
  (an `Option<string>`), the input text, the style tag and `send`. `send` is a
  function from the request (key and user prompt) to the call's `Outcome`:
  `Success(content)`, `HttpStatus(status)`, `NoResponse` or
  `Failed(message?)`. The failure classes form a `Diagnostic` datatype.
  `Describe` gives each class the exact message the source shows, and
  `Recognize` reads a message back as its class. The error mapping is proved
  against that inverse.
- `History` (`history.dfy`): the history `Entry` record and the two list updates
  handed to `setHistory`. `Push` is `[newItem, ...prev.slice(0, 9)]`. `Remove`
  is `prev.filter(item => item.id !== id)`. The lemmas cover runs of insertions
  and the filter's semantics.
- `App` (`app.dfy`): class `Session`. It has one field per state hook, plus
  `storage`, browser storage as a map from keys to decoded snapshots. It has
  one method per handler. `Valid()` says that between handlers no request is
  in flight and the snapshot under `translationHistory` equals the log.

Four behaviours of the code, stated explicitly:

- A failed attempt is recorded in the history, with the diagnostic string as its
  `translated` text.
- A style tag outside the four known tags is not rejected. `${stylePrompts[style]}`
  is an ordinary property lookup on an object literal. A name inherited from
  `Object.prototype` (`toString`, `constructor`, `__proto__`, ...) splices that
  property's rendering into the prompt. Any other unknown tag splices the text
  `undefined`. `Instruction` returns exactly these.
- Deleting removes every entry with the given id, not at most one.
  `RemoveAtMostOne` shows that the two readings agree when ids are unique.
- A hydrated snapshot longer than ten entries is kept as it is. The cap applies
  only when an entry is added.

## Model

| member | source | states |
|---|---|---|
| `App.Session.Valid` | src/App.js:25-27 | Between handlers, the loading flag is down and the snapshot under `translationHistory` exists and equals the log. Every handler keeps this. |
| `App.Session.constructor` | src/App.js:10-27 | Initial state: empty input, style `friend`, empty output, not loading. The log is the snapshot under `translationHistory` if there is one, otherwise empty. The persist effect then writes that log back under the same key, and only there. |
| `App.Session.Persist` | src/App.js:25-27 | The persist effect overwrites the snapshot under `translationHistory` with the current log. Every other key and every other field is left alone. |
| `App.Session.SetInputText` | src/App.js:10 | The input setter changes only `inputText`. |
| `App.Session.SetSelectedStyle` | src/App.js:11 | The style setter changes only `selectedStyle`. |
| `App.Session.CallTranslate` | src/App.js:33-35 | The awaited call may only be issued while the loading flag is up. Its result is `translateText` of the current input and style. |
| `App.Session.HandleTranslate` | src/App.js:30-54 | Blank input (empty after trim): no call, and no field changes. Otherwise the flag is raised before the call, because `CallTranslate` requires it, and is down afterwards. The output is `translateText`'s reply, diagnostics included. The log is the previous log with an entry of (now, input, reply, style, timestamp) pushed in front, cut to at most 10 entries. Only the snapshot under `translationHistory` changes in storage, and it equals the log. Input and style are unchanged. |
| `App.Session.DeleteHistoryItem` | src/App.js:57-59 | The log becomes `Remove(old log, id)`. The snapshot follows it. Input, style, output and the loading flag are unchanged. |
| `App.Session.LoadHistoryItem` | src/App.js:62-66 | Input, style and output become the entry's `original`, `style` and `translated`. The log, the snapshot and the loading flag are untouched. |
| `History.Push` | src/App.js:47 | The result has min(10, \|log\|+1) entries and is a prefix of `[item] + log`. So it starts with the new entry, followed by the first entries of the old log (its newest ones) in their original order. |
| `History.PushAllNewestFirst` | src/App.js:47 | After any non-empty run of insertions, the log equals the inserted entries newest first, followed by the previous log, cut to 10. |
| `History.KeepsLatest` | src/App.js:47 | After 10 or more insertions the log has exactly 10 entries: the last 10 inserted, newest first, whatever the log held before. |
| `History.Remove` | src/App.js:58 | An entry is in the result if and only if it was in the log and has a different id. The result is no longer than the log. |
| `History.RemoveAppend` | src/App.js:58 | Filtering distributes over concatenation, so the kept entries keep their relative order. |
| `History.RemoveAbsent` | src/App.js:58 | Deleting an id that no entry has leaves the log unchanged. |
| `History.RemoveIdempotent` | src/App.js:58 | Deleting the same id twice gives the same log as deleting it once. |
| `History.RemoveCommutes` | src/App.js:58 | Deletions by two ids give the same log in either order. |
| `History.RemoveCount` | src/App.js:58 | Deleting removes exactly as many entries as carry the id, so all matches go. |
| `History.RemoveAtMostOne` | src/App.js:58 | When ids are unique, a deletion removes at most one entry. |
| `Text.IsWhiteSpace` | src/utils/api.js:71 | A character is removed by `trim` exactly when its code point is in the ECMAScript WhiteSpace / LineTerminator table: TAB, LF, VT, FF, CR, SPACE, NBSP, the other space separators, U+2028, U+2029 and U+FEFF. |
| `Text.TrimStart` | src/utils/api.js:71 | The result is a suffix of the input. Only white space was cut. It does not start with white space. |
| `Text.TrimEnd` | src/utils/api.js:71 | The result is a prefix of the input. Only white space was cut. It does not end with white space. |
| `Text.Trim` | src/utils/api.js:71 | The result neither starts nor ends with white space. It is the input with only white space cut from the two ends. |
| `Text.TrimUnique` | src/utils/api.js:71 | Any way of cutting white space from both ends that leaves a string with no white space at either end gives exactly `Trim`'s result. |
| `Text.TrimEmptyIffBlank` | src/App.js:31 | `trim()` gives the empty string if and only if every character is white space. This is the blank-input guard. |
| `Text.TrimIdempotent` | src/utils/api.js:71 | Trimming a trimmed string changes nothing. |
| `Text.NatToDecimal` | src/utils/api.js:83 | The numeral is non-empty, made of digits only, and has no leading zero. |
| `Text.IntToString` | src/utils/api.js:83 | The rendering is non-empty and starts with `-` exactly for negative numbers. |
| `Text.ParseInt` | src/utils/api.js:83 | A numeral that parses to `n` is exactly the rendering of `n`. |
| `Text.ParseIntToString` | src/utils/api.js:83 | Every integer's rendering parses back to that integer, so the status code in a message can be recovered. |
| `Api.HasKey` | src/utils/api.js:13-20 | The key counts as present exactly when it is defined and not the empty string, which is JavaScript truthiness for a string. |
| `Api.Instruction` | src/utils/api.js:25-37 | The four tags get their fixed instruction. The names inherited from `Object.prototype` get that property's rendering. Any other tag gets the text `undefined`. |
| `Api.Prompt` | src/utils/api.js:33-40 | The prompt starts with the fixed opening. Its length is the fixed parts plus the quoted input plus the instruction. The input reads back out of it with `QuotedInput`. |
| `Api.Describe` | src/utils/api.js:22-90 | Every failure message is non-empty. All but the generic status message start with the warning sign. The status message starts with its fixed prefix. The other-error message is its prefix followed by exactly the detail. |
| `Api.TranslateText` | src/utils/api.js:9-93 | Without a key: the missing-key message. With a key: a successful outcome gives a reply with no surrounding white space, and a failed one gives the message of its class. |
| `Api.StatusDiagnostic` | src/utils/api.js:76-84 | 401 maps to Unauthorized and 429 to RateLimited, in both directions. Every other status maps to RemoteError carrying that status. |
| `Api.ErrorDetail` | src/utils/api.js:90 | The detail is the error's message when that is present and non-empty, otherwise the default `알 수 없는 오류`. It is never empty. |
| `Api.FailureDiagnostic` | src/utils/api.js:72-92 | An error status goes through `StatusDiagnostic`. No response maps to Unreachable and nothing else does. Any other error maps to Unknown. No failure is classed as a missing credential. |
| `Api.Reply` | src/utils/api.js:71-92 | A successful reply neither starts nor ends with white space. |
| `Api.RecognizeDescribe` | src/utils/api.js:76-91 | Every failure message reads back as the class it reports. |
| `Api.DescribeRecognize` | src/utils/api.js:76-91 | A message that reads back as a class is exactly that class's message. With `RecognizeDescribe` this makes the two an exact inverse pair. |
| `Api.DescribeInjective` | src/utils/api.js:76-91 | Distinct failure classes, and distinct status codes, are shown as distinct messages. |
| `Api.MissingKeyShortCircuit` | src/utils/api.js:19-23 | With a missing or empty key the reply is the missing-key message, whatever the network would do. |
| `Api.FailureReply` | src/utils/api.js:72-92 | With a key, any failed request is shown as the message of the class that `FailureDiagnostic` assigns to its outcome. |
| `Api.StatusReply` | src/utils/api.js:78-84 | Status 401 gives the invalid-key message. 429 gives the rate-limit message. Any other status gives the generic message, and the code parses back out of its tail. |
| `Api.OtherFailureReply` | src/utils/api.js:85-91 | No response gives the unreachable message. Any other error gives the `⚠️ 오류 발생: ` prefix followed by the error's message, or by the default when the message is absent or empty. |
| `Api.SuccessReply` | src/utils/api.js:71 | A successful call's reply is the content with white space cut from both ends only. It has no surrounding white space and trimming it again changes nothing. |
| `Api.TranslateTextTotal` | src/utils/api.js:9-93 | Every call resolves to a string: either a successful reply with no surrounding white space, or a recognisable failure message. Nothing escapes as an error. |
| `Api.PromptQuotesInput` | src/utils/api.js:33-40 | The prompt holds the input in double quotes at a fixed offset. The style's instruction follows after the fixed bridge sentence, and the input can be read back out of the prompt. |
| `Api.PromptDistinguishesStyles` | src/utils/api.js:25-40 | For the same input, two different known style tags give different prompts. |

## Left out

- The HTTP POST itself is not modelled: endpoint, headers, model name, system persona, temperature, token limit and nucleus-sampling value. It is network I/O with floating-point parameters. It is the `send` parameter, which sees the key and the user prompt.
- The `console.log` / `console.error` calls, including the key-debugging prints, are left out. They are side effects only.
- JSON serialisation is left out. `localStorage` is the `storage` map, each key holding an already decoded entry list. A malformed or `null` snapshot is not modelled, and neither is an empty string stored under the key, which the source treats as absent.
- `Date.now()` and `new Date().toISOString()` are left out. They are the `now` and `timestamp` parameters of `HandleTranslate`.
- The `await` suspension is not modelled: a translation is one atomic step. That the flag is up during the call is enforced by `CallTranslate`'s precondition. That it is down afterwards is enforced by `Valid()`.
- The `catch` branch in `handleTranslate` (`alert`, log) is not modelled. `translateText` never throws (`Api.TranslateTextTotal`), so nothing reaches it in this model.
- React's double write on mount is not modelled. The persist effect first stores `[]`, then the loaded log. Only the final state, snapshot equal to log, is modelled.
- The components (`InputSection`, `OutputSection`, `HistorySection`, `Header`, `Footer`) and `tailwind.config.js` are left out. They are rendering and styling. The disabled-button guard in `InputSection` repeats the blank check that `HandleTranslate` models.
- `formatDate` (timezone-dependent), the clipboard and animation timers are left out. They are browser APIs.
- A response whose body lacks `choices[0].message.content` makes the source throw a `TypeError` inside `try`. The model reaches that case only when `send` reports it as `Failed(message)`.
- Strings are sequences of Unicode scalar values, not UTF-16 code units. Every white-space code point `trim` removes is a single code unit, so `Trim` is unaffected.
- Api.Instruction: the renderings of inherited methods (`function toString() { [native code] }` and the like) are the text V8 prints. Other engines may format native functions differently. The four tags of the interface never reach this case; only a tag restored from a hand-edited snapshot can.
- Text.IntToString: prints every digit of any integer. JavaScript prints numbers of 1e21 or more in exponent form, and such numbers are not modelled. HTTP status codes are three-digit numbers, so the status message is unaffected.
