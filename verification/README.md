# Love chatbot: session bookkeeping

A Dafny model of the per-session conversation state kept by the love-chatbot
web backend (love.py). Each browser session owns one record with two optional
lists:

- `messages` holds `{role, content}` items. It is the payload handed to the
  completion service, seeded with a fixed system prompt.
- `history` holds `{sender, text}` display entries. It survives `/clear`.

The three handlers are modelled as pure functions from the record (and the
request) to the new record and the response:

- `/chat` is `Chat.Submit`. Validation is `Chat.Validate`, which uses
  `Whitespace.Strip`. The conversation step is `Chat.Converse`.
- `/clear` is `Chat.Clear`.
- `/history` is `Chat.GetHistory`.
- `Chat.Step` and `Chat.Run` serve a sequence of requests against one session.

Two things are inputs rather than calls:

- The completion call is a `Completion` value: `Completed(reply)` or `Failed(detail)`.
- The transcript logger is a `LogOutcome` value: `Logged` or `LogFailed(detail)`.

The result of `/chat` also records the payload that would be sent to the
completion service and the pair that would be handed to the logger.

Files:
- `wrappers.dfy`: `Option`, which stands for a session key that may be absent.
- `strip.dfy`: Python's `str.strip()` over Python's fixed whitespace set, with a
  characterisation (`StripUnique`) and idempotence.
- `chat.dfy`: the record, the requests, the responses and the handlers.
- `chat_properties.dfy`: the invariant every reachable record keeps, and what
  one turn, a clear, and a run of answered turns do to the two lists.

Edge behaviour of the code that the model keeps:

- After a failed completion only the user message and the user entry are
  appended; no assistant message or bot entry is added (love.py:63-64,
  84-85). `Chat.Converse` and `ChatProperties.FailedTurn` state this.
- `log_message` runs inside the same `try` as the completion call. A failure
  there turns the reply into the "Oops" text, after the bot turn has been
  recorded (love.py:76-85). `ChatProperties.LoggingFailureAfterReply` states
  this.
- `/clear` pops the `messages` key, so the list becomes absent rather than an
  empty list. The next message seeds the prompt again either way
  (love.py:59-60, 90).

## Model

| member | source | states |
|---|---|---|
| Whitespace.Strip | love.py:38 | `strip()` leaves no whitespace at either end, never lengthens the text, and gives "" exactly when the text is all whitespace |
| Whitespace.StripDecompose | love.py:38 | `strip()` only removes characters at the ends: the input is a blank prefix, the stripped text, and a blank suffix |
| Whitespace.StripUnique | love.py:38 | Any split of the input into a blank prefix, a trimmed middle and a blank suffix has `strip()` returning that middle, so `Strip` is the only function with the two properties above |
| Whitespace.StripIdempotent | love.py:38 | Stripping a stripped message changes nothing |
| Chat.StatusCode | love.py:37-40 | A refused message answers 400, an uncaught exception 500, and every other response (the "Oops" replies included) 200 |
| Chat.GetHistory | love.py:95-97 | `/history` returns the history list, or `[]` when the session has none |
| Chat.Validate | love.py:37-40 | A message is refused exactly when it is missing or blank. A non-string message raises. An accepted message is the non-empty stripped text |
| Chat.AddUserTurn | love.py:42-64 | Both lists are created if absent. An empty or absent messages list is seeded with the system message. The user message and the user entry are appended |
| Chat.AddBotTurn | love.py:75-77 | The assistant message and the bot entry are appended to the two lists |
| Chat.Converse | love.py:62-85 | After validation the reply is always 200 with a reply. The payload sent is a prefix of the stored messages. A failed completion stores exactly the payload and logs nothing. A completed one hands the (message, reply) pair to the logger |
| Chat.Submit | love.py:36-85 | The request fails with a server error exactly for a non-string message and is refused with "message required" exactly for a missing or blank one. Neither changes the record, calls the completion service or logs. An accepted message proceeds to the conversation step on the stripped text |
| Chat.Clear | love.py:89-91 | `/clear` makes the messages key absent and leaves the history as it was |
| Chat.Step | love.py:35-97 | A `/chat` request answers with `/chat`'s record and response, `/clear` answers `{"status": "cleared"}` with the messages dropped, and `/history` answers the history list without changing the record |
| Chat.Run | love.py:88-97 | Requests are served one at a time. A run of only `/history` requests leaves the record as it was, and a run whose last request is `/clear` leaves no messages |
| ChatProperties.SeededSnoc | love.py:63-64 | Appending a non-system turn to both lists keeps a conversation well formed, provided any assistant message follows a user message |
| ChatProperties.PairedSnoc | love.py:64 | A bot entry appended right after a user entry keeps every bot entry answering a user entry |
| ChatProperties.AddUserTurnInv | love.py:42-64 | Recording the user turn keeps the session invariant and leaves the user message and the user entry last in the two lists |
| ChatProperties.AddBotTurnInv | love.py:76-77 | Recording the reply right after a user turn keeps the session invariant |
| ChatProperties.ConversePreservesInv | love.py:62-85 | The conversation step keeps the session invariant for every completion and logging outcome |
| ChatProperties.SubmitPreservesInv | love.py:36-85 | `/chat` keeps the session invariant for every input |
| ChatProperties.StepPreservesInv | love.py:36-97 | Every request keeps the invariant. The system message heads the messages list and appears nowhere else. The turns since the last clear are the tail of the history, in order. Every bot entry follows a user entry |
| ChatProperties.RunPreservesInv | love.py:36-97 | Any sequence of requests keeps the session invariant |
| ChatProperties.ReachableInv | love.py:36-97 | Every record reachable from a new session satisfies the invariant |
| ChatProperties.SeedsSystemOnce | love.py:43-60 | After an accepted message the messages list starts with the system message and holds it once. The prompt is seeded only when the list was empty or absent. Otherwise the old list is a proper prefix of the new one |
| ChatProperties.PayloadIsConversation | love.py:59-69 | The completion service receives the whole conversation: the system message first, the earlier turns, and the new user message last |
| ChatProperties.CompletedTurn | love.py:63-82 | A completed turn adds exactly one user and one assistant message (after the system message on a first turn) and exactly the user and bot entries. It logs the pair, and returns the reply when logging succeeds |
| ChatProperties.LoggingFailureAfterReply | love.py:76-85 | A logging failure after a completed turn still answers 200 with "Oops! Something went wrong: " and the detail, although the assistant message and the bot entry are already stored |
| ChatProperties.FailedTurn | love.py:62-85 | A failed completion stores only the user message and the user entry. It logs nothing and answers 200 with the "Oops" text and the detail |
| ChatProperties.SubmitStoresStripped | love.py:38-69 | A non-blank message is stored stripped, as the next history entry and as the last message of the payload |
| ChatProperties.BlankMessageRefused | love.py:37-40 | A blank or missing message is refused with 400 "message required". The record stays exactly as it was, absent lists included |
| ChatProperties.ClearThenSubmit | love.py:89-91 | Clearing twice is clearing once, and the history is kept. The next accepted message starts a new conversation with the system message while the history keeps growing |
| ChatProperties.StepHistoryGrows | love.py:64-97 | No request shortens the history. `/history` leaves the record unchanged, and a new session's history reads as `[]` |
| ChatProperties.RunHistoryGrows | love.py:36-97 | The history of a session only grows over any sequence of requests |
| ChatProperties.AnsweredTurnsAppend | love.py:59-82 | In a conversation in progress, each answered message appends its user and assistant messages, and its two history entries, in order |
| ChatProperties.NewConversation | love.py:42-82 | After N >= 1 answered messages in a new session, the messages are the system message followed by the 2N turn messages, and the history is the 2N matching entries |

## Left out

- Flask routing, request parsing and serialisation. JSON decoding is reduced
  to the three shapes of the `message` field (`Absent`, `Text`, `NotText`).
  The 400/415 errors that `get_json` itself raises for a body that is not
  JSON are not modelled.
- The completion call and its fixed parameters (model name, `max_tokens`,
  `temperature`), because it is a network service. Its outcome is an input,
  and any exception in it is `Failed(detail)`, with `detail` standing for
  `str(e)`.
- A reply whose content is null. The reply is always a string.
- `log_message`'s file I/O, line format and timestamp. Only success or failure
  of logging is an input.
- Environment and secret loading, the start-up `RuntimeError`, and the
  `__main__` port set-up, because they are process configuration.
- The filesystem session backend. The record is an explicit value, and every
  change a handler makes is assumed to be saved at the end of the request.
- Concurrent requests on one session. The code takes no lock, and the model
  serves requests one at a time.
- Whitespace.IsSpace: this is Python's `str.isspace()` table written out as a
  fixed set of code points. Unicode database versions are not modelled.
