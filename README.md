# Medical chat endpoint: emergency heuristic and prompt assembly

This project models the logic of a small chat server (`app.js`). The server
answers `GET /chat?ques=<text>`. It takes the patient's message, or the
greeting "Здравствуйте" when there is none. It flags a possible emergency with
a case-insensitive keyword test, prefixes the message with a fixed
physician instruction, sends the result to a text-generation service, and
returns `{ resp, emergency }`.

The modules follow the parts of `app.js`:

- `Text` (`text.dfy`) defines substring containment the way `String.prototype.includes`
  decides it, and `SomeContained` models the `.some(...)` over the temperature numbers.
- `LetterCase` (`letter_case.dfy`) defines lower-casing character by character:
  `A`..`Z` and `А`..`Я` go to their small letters, `Ё` goes to `ё`, and every
  other character stays as it is.
- `Symptoms` (`symptoms.dfy`) holds `checkForCriticalSymptoms` and its properties.
  The result is true exactly when the lower-cased message contains one of three things:
  "температура" together with one of the substrings "40".."45"; one of the breathing
  phrases; or one of the pain phrases. The `else if` chain is proved equal to a plain
  disjunction. Detection ignores case and is monotone under added text. The numbers are
  substrings, so "140" and "4000" count. The empty message and messages without keywords
  give false.
- `Prompt` (`prompt.dfy`) composes the prompt: the preamble, then
  " Вот информация от пациента: ", then the message verbatim.
- `Chat` (`chat.dfy`) holds `processMessage`, with the generation call as a
  function from prompt to `Generated(text) | BadShape | Threw`. It also holds the
  route's `ques || "Здравствуйте"` default.

## Model

| member | source | states |
|---|---|---|
| `Symptoms.CheckForCriticalSymptoms` | app.js:61-92 | true iff the lower-cased message contains "температура" and one of "40".."45", or one of the three breathing phrases, or one of the three pain phrases; the else-if chain equals the plain disjunction of the three groups |
| `LetterCase.Lower` | app.js:62 | the lower-cased message has the same length and each character is the small form of the original one |
| `LetterCase.LowerIdempotent` | app.js:62 | lower-casing an already lower-cased message changes nothing |
| `LetterCase.ContainsLower` | app.js:62-86 | if a message contains a phrase, its lower-cased form contains the lower-cased phrase |
| `Text.Contains` | app.js:67-86 | `includes`: holds iff `sub` occurs at some index; a contained string is never longer than its container; the empty string is contained in every string; a string of equal length is contained only when the two are equal |
| `Text.ContainsExtend` | app.js:67-86 | containment survives text added before and after the container |
| `Text.SomeContained` | app.js:68-70 | the `.some` over a list is true exactly when the string at some index of the list is contained; false for an empty list |
| `Text.SomeContainedIff` | app.js:68-70 | the `.some` over the numbers holds exactly when some listed number is a substring |
| `Symptoms.KeywordsAreLowerCase` | app.js:67-86 | every keyword is non-empty and already in lower case |
| `Symptoms.DetectionIgnoresCase` | app.js:62 | the flag of a message equals the flag of its lower-cased form and of its upper-cased form |
| `Symptoms.PhraseInAnyCaseTriggers` | app.js:75-89 | a breathing or pain phrase, written in any case, anywhere in the message sets the flag |
| `Symptoms.TemperatureInAnyCaseTriggers` | app.js:66-73 | the temperature word in any case together with one of "40".."45" sets the flag |
| `Symptoms.TemperatureWithoutNumberIsSafe` | app.js:66-73 | the temperature word without any of "40".."45" and with no other phrase gives false |
| `Symptoms.NoFourNoTemperature` | app.js:68-70 | a message with no digit 4 never matches the temperature group |
| `Symptoms.NumbersMatchAsSubstrings` | app.js:68-70 | "температура 140", inside any text, sets the flag because "140" contains "40" |
| `Symptoms.LongNumberMatchesAsSubstring` | app.js:68-70 | "температура 4000", inside any text, sets the flag because "4000" contains "40" |
| `Symptoms.DetectionMonotone` | app.js:66-89 | if a message sets the flag, so does the message with any text before and after it |
| `Symptoms.EmptyMessageIsSafe` | app.js:63-91 | the empty message gives false |
| `Symptoms.NoKeywordIsSafe` | app.js:63-91 | a message whose lower-cased form contains no keyword gives false |
| `Symptoms.WithoutMarkerLettersIsSafe` | app.js:66-89 | a message whose lower-cased form has none of `м`, `ж`, `ы`, `б`, `4` gives false, since every keyword holds one of them |
| `Symptoms.FeverAndPainExample` | app.js:66-89 | "температура 41 и сильная боль" gives true |
| `Symptoms.TirednessExample` | app.js:61-92 | "легкая усталость", in any case, gives false |
| `Prompt.FullMessage` | app.js:21-26 | the prompt is the preamble, then the separator, then the message unchanged, with their lengths adding up |
| `Prompt.FullMessageInjective` | app.js:26 | different messages give different prompts, so the message is recoverable from the prompt |
| `Prompt.SamePreamble` | app.js:21-26 | every prompt starts with the same preamble and separator |
| `Chat.ProcessMessage` | app.js:16-58 | the flag is the detector applied to the message on every path; the reply is the generated text on success and the fixed apology on a bad shape or a thrown error |
| `Chat.EmergencyIndependentOfGeneration` | app.js:18-56 | the flag is the same whatever the generation service returns |
| `Chat.FailuresLookAlike` | app.js:44-56 | a malformed response and a thrown error give the same result: the apology plus the detector's flag |
| `Chat.OnlyThePromptMatters` | app.js:26-30 | the result depends on the service only through its answer to the composed prompt |
| `Chat.UserMessage` | app.js:97 | a missing or empty query becomes "Здравствуйте"; any other query is used unchanged; the message is never empty |
| `Chat.HandleChat` | app.js:95-103 | the route's result is `processMessage` of the defaulted message |
| `Chat.GreetingIsNotEmergency` | app.js:97 | the greeting "Здравствуйте" gives false |
| `Chat.MissingQuestionGreets` | app.js:97-100 | with no query, the greeting is processed and the reply is not flagged |

## Left out

- The Express application, routing, CORS middleware, HTTP status codes 200 and 500, and JSON serialisation (app.js:10-13, 95-110). `HandleChat` models only the success path. The 500 branch is reached exactly when `ques` is not a string: an array (`?ques=a&ques=b`) or an object (`?ques[k]=v`) is truthy, passes the default at app.js:97 unchanged, and `toLowerCase` at app.js:62 then throws outside the `try` of app.js:28, so the route answers 500 (app.js:104-108). `Chat.UserMessage` takes only a string or a missing value, and for those the branch cannot be reached.
- Loading the environment, the API key, model selection and listening on the port (app.js:1-8, 113-116). These are configuration and I/O.
- The generation client's behaviour (app.js:30-38). The call is a parameter `generate: string -> GenerationOutcome`. This also makes it deterministic for a given prompt; the network call is not.
- `async`/`await` scheduling and concurrency between requests. Requests share no state, so the model handles one request at a time.
- `console.error` logging on the failure paths (app.js:45, 52, 105). It is a side effect with nothing to state.
- `LetterCase.Lower`: does not model full Unicode `toLowerCase`. Only `A`..`Z`, `А`..`Я` and `Ё` are mapped. Other capitals, for example `Ѐ`..`Џ` or Greek, stay unchanged. Every letter in the keywords is a small Russian letter, and its capital is in the mapped range.
- `Chat.UserMessage`: models `ques` only as an optional string. Express can also produce arrays or objects for a query parameter; those values belong to the JavaScript runtime.
