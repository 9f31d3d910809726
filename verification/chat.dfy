/**
 The per-session conversation bookkeeping of the love-chatbot web backend:
 the `/chat`, `/clear` and `/history` handlers of love.py, each a pure
 function from the session record (and the request) to the new record and
 the response. The completion service and the transcript logger are not
 called: their outcomes are inputs.
 */
module Chat {
  import opened Wrappers
  import Whitespace

  /** The `role` of a message sent to the completion service. */
  datatype Role = System | User | Assistant

  /** `{"role": ..., "content": ...}` */
  datatype Message = Message(role: Role, content: string)

  /** The `sender` of a display-history entry: `"user"` or `"bot"`. */
  datatype Sender = FromUser | FromBot

  /** `{"sender": ..., "text": ...}` */
  datatype Entry = Entry(sender: Sender, text: string)

  /** One session's record. Each list is a session key that may be absent
      (`None`) or present, possibly empty. */
  datatype Record = Record(messages: Option<seq<Message>>, history: Option<seq<Entry>>)

  /** The record of a session that has never been written. */
  const NewSession := Record(None, None)

  /** The fixed system instruction seeded at the start of a conversation. */
  const SystemPrompt: string :=
    "You are a warm, empathetic, supportive, and non-judgmental chatbot that ONLY talks about "
    + "love, relationships, emotions, romance, trust, heartbreak, and human connection. "
    + "You can understand any language the user writes in and always respond in the same language. "
    + "If a user asks anything unrelated (math, programming, politics, sports, etc.), politely refuse "
    + "and remind them that you only answer love and relationship topics. "
    + "If the user expresses self-harm or danger, advise them to seek professional help immediately, "
    + "and provide general safety guidance."

  const SystemMessage := Message(System, SystemPrompt)

  const MessageRequired: string := "message required"

  /** Prefix of the reply that stands in for any exception raised inside the
      completion/record/log block. */
  const OopsPrefix: string := "Oops! Something went wrong: "

  const ClearedStatus: string := "cleared"

  /** The `message` field of a `/chat` request body.
      - `Absent`: no `message` key, or a falsy JSON body (it becomes `{}`),
        so the text defaults to "";
      - `Text(raw)`: a JSON string;
      - `NotText`: any other JSON value (or a truthy body that is not an
        object): calling `strip`/`get` on it raises before anything is
        written, and the request fails with a server error. */
  datatype Input = Absent | Text(raw: string) | NotText

  /** What the completion call produced: the text of the first choice, or
      the description of the exception it raised. */
  datatype Completion = Completed(reply: string) | Failed(detail: string)

  /** Whether appending to the transcript log succeeded. */
  datatype LogOutcome = Logged | LogFailed(detail: string)

  /** The HTTP responses of the three handlers. */
  datatype Response =
    | Reply(text: string)              // 200 {"reply": text}
    | Rejected(error: string)          // 400 {"error": error}
    | Crashed                          // 500, an uncaught exception
    | Cleared(status: string)          // 200 {"status": status}
    | HistoryList(entries: seq<Entry>) // 200 [entries...]

  /** The HTTP status of a response. */
  function StatusCode(resp: Response): (code: nat)
    ensures code == 400 <==> resp.Rejected?
    ensures code == 500 <==> resp.Crashed?
    ensures code == 200 <==> !resp.Rejected? && !resp.Crashed?
  {
    match resp
    case Rejected(_) => 400
    case Crashed => 500
    case _ => 200
  }

  /** The result of one `/chat` request: the new record, the response, the
      payload handed to the completion call (if it was made) and the
      (user, bot) pair handed to the logger (if it was called). */
  datatype ChatResult = ChatResult(
    record: Record,
    response: Response,
    sent: Option<seq<Message>>,
    logged: Option<(string, string)>)

  /** The messages list, empty when the key is absent. */
  function Messages(rec: Record): seq<Message>
  {
    rec.messages.GetOr([])
  }

  /** `/history`: the history list, or `[]` when the key is absent. */
  function GetHistory(rec: Record): (h: seq<Entry>)
    ensures rec.history.None? ==> h == []
    ensures rec.history.Some? ==> h == rec.history.value
  {
    rec.history.GetOr([])
  }

  /** The outcome of input validation. */
  datatype Validated = Accepted(text: string) | Refused | Raises

  /** The `message` field, stripped; refused when that leaves nothing. */
  function Validate(input: Input): (v: Validated)
    ensures v.Raises? <==> input.NotText?
    ensures v.Refused? <==> input.Absent? || (input.Text? && Whitespace.Blank(input.raw))
    ensures v.Accepted? ==> v.text != [] && Whitespace.Trimmed(v.text)
    ensures v.Accepted? ==> input.Text? && v.text == Whitespace.Strip(input.raw)
  {
    match input
    case NotText => Raises
    case Absent => Refused
    case Text(raw) =>
      var text := Whitespace.Strip(raw);
      if text == [] then Refused else Accepted(text)
  }

  /** Creates the two lists if absent, seeds the system message into an
      empty messages list, and appends the user turn to both lists. */
  function AddUserTurn(rec: Record, text: string): (r: Record)
    ensures r.messages.Some? && r.history.Some?
    ensures Messages(rec) == [] ==> r.messages.value == [SystemMessage, Message(User, text)]
    ensures Messages(rec) != [] ==> r.messages.value == Messages(rec) + [Message(User, text)]
    ensures r.history.value == GetHistory(rec) + [Entry(FromUser, text)]
  {
    var messages := Messages(rec);
    var seeded := if messages == [] then [SystemMessage] else messages;
    Record(Some(seeded + [Message(User, text)]), Some(GetHistory(rec) + [Entry(FromUser, text)]))
  }

  /** Appends the assistant reply to the messages and the bot entry to the
      history, both of which exist by now. */
  function AddBotTurn(rec: Record, reply: string): (r: Record)
    requires rec.messages.Some? && rec.history.Some?
    ensures r.messages == Some(rec.messages.value + [Message(Assistant, reply)])
    ensures r.history == Some(rec.history.value + [Entry(FromBot, reply)])
  {
    Record(Some(rec.messages.value + [Message(Assistant, reply)]),
           Some(rec.history.value + [Entry(FromBot, reply)]))
  }

  /** The part of `/chat` after validation: the user turn is recorded and
      the whole messages list is sent; the bot turn is recorded only if the
      completion succeeds, and the pair is then logged. Any exception in
      the completion call or in logging becomes an "Oops" reply. */
  function Converse(rec: Record, text: string, completion: Completion, log: LogOutcome): (out: ChatResult)
    ensures out.response.Reply? && out.sent.Some?
    ensures out.record.messages.Some? && out.record.history.Some?
    ensures out.sent.value <= out.record.messages.value
    ensures completion.Failed? ==> out.record.messages == out.sent && out.logged.None?
    ensures completion.Completed? ==> out.logged == Some((text, completion.reply))
  {
    var asked := AddUserTurn(rec, text);
    var payload := asked.messages.value;
    match completion
    case Failed(detail) =>
      ChatResult(asked, Reply(OopsPrefix + detail), Some(payload), None)
    case Completed(reply) =>
      var answered := AddBotTurn(asked, reply);
      var response := match log
        case Logged => Reply(reply)
        case LogFailed(detail) => Reply(OopsPrefix + detail);
      ChatResult(answered, response, Some(payload), Some((text, reply)))
  }

  /** `/chat`. A missing or blank message is refused and a malformed one
      raises; neither changes the record or reaches the completion call. */
  function Submit(rec: Record, input: Input, completion: Completion, log: LogOutcome): (out: ChatResult)
    ensures out.response.Crashed? <==> input.NotText?
    ensures out.response.Rejected? <==> Validate(input).Refused?
    ensures out.response.Rejected? ==> out.response == Rejected(MessageRequired)
    ensures !Validate(input).Accepted? ==> out.record == rec && out.sent.None? && out.logged.None?
    ensures Validate(input).Accepted? ==> out == Converse(rec, Validate(input).text, completion, log)
  {
    match Validate(input)
    case Raises => ChatResult(rec, Crashed, None, None)
    case Refused => ChatResult(rec, Rejected(MessageRequired), None, None)
    case Accepted(text) => Converse(rec, text, completion, log)
  }

  /** `/clear`: drops the messages key and keeps the history. */
  function Clear(rec: Record): (r: Record)
    ensures r.messages.None?
    ensures r.history == rec.history
  {
    rec.(messages := None)
  }

  /** A request to one of the three handlers. */
  datatype Request =
    | PostChat(input: Input, completion: Completion, log: LogOutcome)
    | ClearChat
    | FetchHistory

  /** One request against the session record: the new record and the
      response. */
  function Step(rec: Record, req: Request): (r: (Record, Response))
    ensures req.PostChat? ==>
      var out := Submit(rec, req.input, req.completion, req.log);
      r == (out.record, out.response)
    ensures req.ClearChat? ==> r == (Clear(rec), Cleared(ClearedStatus))
    ensures req.FetchHistory? ==> r == (rec, HistoryList(GetHistory(rec)))
  {
    match req
    case PostChat(input, completion, log) =>
      var out := Submit(rec, input, completion, log);
      (out.record, out.response)
    case ClearChat => (Clear(rec), Cleared(ClearedStatus))
    case FetchHistory => (rec, HistoryList(GetHistory(rec)))
  }

  /** A sequence of requests against one session, served one at a time.
      Reading the history never changes the record, and a run that ends
      with `/clear` leaves no messages. */
  function Run(rec: Record, reqs: seq<Request>): (r: Record)
    ensures (forall i :: 0 <= i < |reqs| ==> reqs[i].FetchHistory?) ==> r == rec
    ensures reqs != [] && reqs[|reqs| - 1].ClearChat? ==> r.messages.None?
    decreases |reqs|
  {
    if reqs == [] then rec else Run(Step(rec, reqs[0]).0, reqs[1..])
  }
}
