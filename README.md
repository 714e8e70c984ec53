# Chat-completion relay handlers, modelled in Dafny

The application's server side forwards a user's prompt to an OpenAI-style
chat-completions endpoint, so the provider credential stays in the server
process. This model covers the two request handlers that make the decisions:

- **The retrying relay** (`handler` in `utils/GeminiAIModal.js`, module
  `GeminiAIModal`). It accepts only POST. It then makes up to five attempts.
  Each attempt's reply is classified as text to deliver, a 429 to back off
  from, or a failure that the `catch` block swallows. The handler answers
  `200 {message}` or `500 {error: "Failed after multiple attempts"}`, and any
  other verb gets `405`. After a 429 on the fifth attempt it answers
  nothing at all (see Findings).
- **The direct relay** (`POST` in `app/api/openapi/route.js`, module
  `OpenApiRoute`). It refuses a falsy prompt with `400`. Otherwise it makes
  exactly one call. An ok reply's envelope is relayed unchanged; anything
  else gets one of two fixed `500` errors.

Shared vocabulary lives in module `Upstream` (`upstream.dfy`):

- `Outcome` is one call's result: `Reply(status, retryAfter, body)` or
  `Throws`. A `body` of `None` means the body is not JSON, so
  `response.json()` throws.
- `IsOk` is fetch's `response.ok`, meaning a 2xx status.
- `ChatRequest` is the body that is POSTed upstream.
- `Response` is the (status, JSON body) pair a handler answers with.
- `Truthy` is JavaScript truthiness of a string field.

The retrying handler receives the upstream as a sequence `replies`: the n-th
call made gets `replies[n - 1]`. The handler does not sleep. It returns a
`Trace`: the response it sent (`None` if it sent none) and one
`AttemptRecord` per upstream call. Each record holds the request sent and the
wait, in milliseconds, that the handler chose after it. The loop is the method
`GeminiAIModal.Handler`. It is proved equal to the function
`GeminiAIModal.Relay`, which first classifies every attempt (`Verdicts`) and
then runs the stopping rule (`Attempts`). The lemmas state what that
function does, attempt by attempt.

The handler follows the code as written even where the code's evident
intent differs: a 429 on the fifth attempt sends no response (see
Findings). The evidently intended loop is modelled beside it as
`AttemptsIntended`.

## Model

| member | source | states |
|---|---|---|
| `GeminiAIModal.Handler` | utils/GeminiAIModal.js:15-69 | The handler's loop (verb check, attempts 1..5, early returns, fall-through) produces exactly the trace `Relay` specifies. |
| `GeminiAIModal.Relay` | utils/GeminiAIModal.js:15-69 | Upstream calls are made iff the verb is "POST"; the response is 405 "Method not allowed" iff it is not; at most 5 calls are ever made. |
| `GeminiAIModal.Attempts` | utils/GeminiAIModal.js:22-65 | From attempt a, between 1 and 6 - a calls are made; any response sent is 200 or the fixed 500 "Failed after multiple attempts". |
| `GeminiAIModal.Classify` | utils/GeminiAIModal.js:39-63 | An attempt delivers iff the reply is ok and carries text, and then delivers exactly that non-empty text; it backs off iff the status is 429, with the wait `WaitTime` chooses; everything else fails. |
| `GeminiAIModal.Content` | utils/GeminiAIModal.js:40-50 | Text is extracted iff the body parses, `choices` is non-empty, `choices[0]` has a message and its content is truthy; the text is that content. |
| `GeminiAIModal.RelayExplained` | utils/GeminiAIModal.js:19-65 | On POST, attempts 1..n are made, where n is the first attempt that delivers, or fails on attempt 5, or is attempt 5. Each attempt sends model, user message with the unchecked prompt and the fixed sampling. Each records the wait its verdict chose and nothing else. The response is the one the n-th verdict gives. |
| `GeminiAIModal.FirstDeliveryAnswers` | utils/GeminiAIModal.js:39-44 | The first attempt k+1 whose reply carries text answers 200 {message: text}, after exactly k+1 calls. |
| `GeminiAIModal.AnswerComesFromDelivery` | utils/GeminiAIModal.js:39-44 | A 200 response carries the non-empty text of the last attempt made, and no earlier attempt delivered text. |
| `GeminiAIModal.AllFailuresExhaust` | utils/GeminiAIModal.js:56-63 | When all five attempts fail (error status, no text, exception), they are swallowed with no wait and the fifth answers 500 after 5 calls. |
| `GeminiAIModal.FailuresIndistinguishable` | utils/GeminiAIModal.js:45-62 | Swapping one failing reply for any other failing reply (other status code, exception, empty choices) changes nothing in the trace: upstream status and error text never reach the response. |
| `GeminiAIModal.RetryAfterHonoured` | utils/GeminiAIModal.js:51-55 | A 429 whose Retry-After header says n seconds chooses a wait of 1000 * n ms. |
| `GeminiAIModal.LinearBackoff` | utils/GeminiAIModal.js:51-55 | A 429 without a Retry-After header, or with an empty one, chooses a wait of 1000 * attempt ms. |
| `GeminiAIModal.FinalRateLimitUnanswered` | utils/GeminiAIModal.js:51-65 | If attempts 1-4 all continue and attempt 5 gets a 429, five calls are made, the last one is followed by a wait, and no response is sent. |
| `GeminiAIModal.AllRateLimitedUnanswered` | utils/GeminiAIModal.js:51-65 | Five 429s without Retry-After give waits 1000, 2000, 3000, 4000, 5000 ms and no response. |
| `GeminiAIModal.AttemptsIntended` | utils/GeminiAIModal.js:22-65 | The corrected loop always sends a response and makes between 1 and 6 - a calls from attempt a. |
| `GeminiAIModal.IntendedAgreesWhereAnswered` | utils/GeminiAIModal.js:22-65 | Wherever the loop as written sends a response, the corrected loop produces the identical trace. |
| `GeminiAIModal.AllRateLimitedIntended` | utils/GeminiAIModal.js:51-62 | With the corrected loop, five 429s without Retry-After wait 1000, 2000, 3000, 4000 ms and then answer 500 after 5 calls. |
| `Upstream.ParseDecimalOfDecimal` | utils/GeminiAIModal.js:52-53 | Reading a Retry-After header written as the decimal rendering of n gives back n (exactly; see WaitTime under Left out for `parseInt` rounding). |
| `OpenApiRoute.Post` | app/api/openapi/route.js:11-59 | A call is sent iff the prompt is truthy, and it carries only the model and one user message with the prompt. The response is 200 iff the prompt is truthy and the reply is ok with a parsable body, and then its body is that upstream envelope. Every other response is one of the three fixed errors. |
| `OpenApiRoute.FalsyPromptRejected` | app/api/openapi/route.js:16-21 | A missing or empty prompt yields 400 "Prompt is required" and no upstream call, whatever the upstream would say. |
| `OpenApiRoute.RateLimitNotRetried` | app/api/openapi/route.js:25-50 | A 429 is not retried: one call, then 500 "Failed to fetch data from OpenAI API". |
| `OpenApiRoute.EnvelopeRelayed` | app/api/openapi/route.js:38-41 | An ok reply whose body parses is answered 200 with that body unchanged. |
| `OpenApiRoute.ErrorDetailHidden` | app/api/openapi/route.js:42-50 | Any two non-ok replies with parsable bodies get the same response, so the status code and the error body never show. |
| `OpenApiRoute.ExceptionsAnswerInternalError` | app/api/openapi/route.js:38-58 | A thrown fetch, or a reply body that fails to parse (ok or not), yields 500 "Internal server error". |

## Findings

| source | as written | input that shows it | evidently intended | confidence | as-written member | corrected member |
|---|---|---|---|---|---|---|
| utils/GeminiAIModal.js:51-65 | A 429 on the fifth attempt waits and then leaves the `for` loop. The function returns without calling `res.status(...)`, so the request never gets a response. | Five replies with status 429 and no Retry-After header. The handler waits 1000..5000 ms and sends nothing. | Exhausting the attempts on rate limits answers 500 "Failed after multiple attempts", like every other failure on the last attempt, without a pointless final wait. | high; not executed | `GeminiAIModal.FinalRateLimitUnanswered` | `GeminiAIModal.AttemptsIntended` |

The Handler method still models the code as written, because it is the
model of that code. The corrected loop, `AttemptsIntended`, is proved to
always answer (its own `ensures`). `IntendedAgreesWhereAnswered` proves it
identical to the written loop on every input where the written loop answers.

## Left out

- Network I/O, `node-fetch`, and the framework's `req`, `res` and `Response` objects. A call is an abstract `Outcome`, and a response is a (status, body) value.
- The module-level API-key check (utils/GeminiAIModal.js:3-7, app/api/openapi/route.js:3-8) reads the process environment at load time. Both handlers are modelled as if the key is present, and the Authorization header is not modelled.
- Sleeping with `setTimeout`. The chosen wait is recorded in the trace instead.
- WaitTime: `ParseDecimal` reads a digit string exactly, while JavaScript's `parseInt` returns a double. Headers worth more than 2^53 are rounded, and headers of more than about 309 digits read as `Infinity`, so from there on the source's wait differs from `ParseDecimal(h) * 1000`. `setTimeout` also waits only about 1 ms for any delay above 2^31 - 1 ms. The trace records the wait the handler chose, not the time it actually slept.
- `console.warn` and `console.error` logging. It has no effect on the response.
- `parseInt` of a Retry-After header that is not decimal digits (NaN, leading whitespace or signs). Headers are restricted to digit strings. An empty header is allowed because it is falsy and never parsed.
- The float `top_p: 0.95`. `Sampling` carries the temperature and the token limit only.
- JSON (de)serialisation. A parsed body is the abstract `Payload`: its `choices` plus the other fields as a string map.
- Prompts that are JSON values other than a string or absent (numbers, booleans, objects). `prompt` is an optional string.
- Failures outside each handler's `try`: `req.body` being absent in the retrying relay (utils/GeminiAIModal.js:17), and `req.json()` throwing in the direct relay (app/api/openapi/route.js:13). Both escape to the framework and are not modelled.
- A `choices[0]` entry that is null: it is modelled as an entry without a message, which throws and fails the attempt as the source does.
- A `content` that is a truthy non-string JSON value, such as the number 5: the source delivers it as `200 {message: 5}` (utils/GeminiAIModal.js:42-44), but `Message.content` holds only strings, so the model cannot express that reply.
- GeminiAIModal.Handler: the upstream must supply an outcome for each of the five calls that could be made (`requires MaxRetries <= |replies|`). Outcomes past the last call made are never looked at.
