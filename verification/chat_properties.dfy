/**
 What the three handlers of love.py keep true of a session record across
 requests: the system prompt heads every conversation exactly once, the
 messages since the last clear mirror the tail of the display history,
 every bot entry answers a user entry, and the history only grows.
 */
module ChatProperties {
  import opened Wrappers
  import opened Chat
  import Whitespace

  /** The history entry that a user or assistant message is displayed as. */
  function EntryOf(m: Message): Entry
  {
    Entry(if m.role == Assistant then FromBot else FromUser, m.content)
  }

  /** The display form of a list of user and assistant messages. */
  function Mirror(ms: seq<Message>): seq<Entry>
  {
    seq(|ms|, i requires 0 <= i < |ms| => EntryOf(ms[i]))
  }

  /** The message at `j` is not an assistant message, or it answers the
      user message right before it. */
  predicate AnswersUser(ms: seq<Message>, j: int)
    requires 0 < j < |ms|
  {
    ms[j].role == Assistant ==> ms[j - 1].role == User
  }

  /** The entry at `j` is not a bot entry, or it follows a user entry. */
  predicate FollowsUser(h: seq<Entry>, j: int)
    requires 0 < j < |h|
  {
    h[j].sender == FromBot ==> h[j - 1].sender == FromUser
  }

  /** A conversation in progress: the system message first and nowhere
      else, every assistant message answering a user message, and the
      turns after the system message displayed, in order, at the end of
      the history. */
  ghost predicate Seeded(ms: seq<Message>, h: seq<Entry>)
  {
    && |ms| > 0
    && ms[0] == SystemMessage
    && (forall i :: 0 < i < |ms| ==> ms[i].role != System)
    && (forall j :: 0 < j < |ms| ==> AnswersUser(ms, j))
    && |ms| - 1 <= |h|
    && Mirror(ms[1..]) == h[|h| - (|ms| - 1)..]
  }

  /** Every bot entry directly follows a user entry. */
  ghost predicate Paired(h: seq<Entry>)
  {
    && (|h| > 0 ==> h[0].sender == FromUser)
    && (forall j :: 0 < j < |h| ==> FollowsUser(h, j))
  }

  /** The invariant of every session record the handlers can produce. */
  ghost predicate Inv(rec: Record)
  {
    && (rec.messages.Some? ==> rec.history.Some?)
    && (Messages(rec) != [] ==> Seeded(Messages(rec), GetHistory(rec)))
    && Paired(GetHistory(rec))
  }

  lemma {:induction false} MirrorSnoc(ms: seq<Message>, m: Message)
    ensures Mirror(ms + [m]) == Mirror(ms) + [EntryOf(m)]
  {
    assert |Mirror(ms + [m])| == |Mirror(ms) + [EntryOf(m)]|;
    forall i | 0 <= i < |ms| + 1
      ensures Mirror(ms + [m])[i] == (Mirror(ms) + [EntryOf(m)])[i]
    {
      if i < |ms| {
        assert (ms + [m])[i] == ms[i];
      }
    }
  }

  /** Appending one user or assistant turn to both lists keeps a
      conversation in progress. */
  lemma SeededSnoc(ms: seq<Message>, h: seq<Entry>, m: Message)
    requires Seeded(ms, h)
    requires m.role != System
    requires m.role == Assistant ==> ms[|ms| - 1].role == User
    ensures Seeded(ms + [m], h + [EntryOf(m)])
  {
    var ms', h' := ms + [m], h + [EntryOf(m)];
    assert ms'[1..] == ms[1..] + [m];
    MirrorSnoc(ms[1..], m);
    assert h'[|h'| - (|ms'| - 1)..] == h[|h| - (|ms| - 1)..] + [EntryOf(m)];
    forall j | 0 < j < |ms'| ensures AnswersUser(ms', j) {
      if j < |ms| {
        assert AnswersUser(ms, j);
        assert ms'[j] == ms[j] && ms'[j - 1] == ms[j - 1];
      }
    }
  }

  /** A bot entry may be appended right after a user entry. */
  lemma PairedSnoc(h: seq<Entry>, e: Entry)
    requires Paired(h)
    requires e.sender == FromBot ==> |h| > 0 && h[|h| - 1].sender == FromUser
    ensures Paired(h + [e])
  {
    var h' := h + [e];
    forall j | 0 < j < |h'| ensures FollowsUser(h', j) {
      if j < |h| {
        assert FollowsUser(h, j);
        assert h'[j] == h[j] && h'[j - 1] == h[j - 1];
      }
    }
  }

  /** The system message alone starts a conversation. */
  lemma SeededStart(h: seq<Entry>)
    ensures Seeded([SystemMessage], h)
  {
    assert [SystemMessage][1..] == [];
    assert h[|h|..] == [];
  }

  /** The messages list a user turn is appended to: the existing list, or
      the system message alone when there is none. */
  function SeedOf(rec: Record): seq<Message>
  {
    if Messages(rec) == [] then [SystemMessage] else Messages(rec)
  }

  lemma SeedOfSeeded(rec: Record)
    requires Inv(rec)
    ensures Seeded(SeedOf(rec), GetHistory(rec))
  {
    if Messages(rec) == [] {
      SeededStart(GetHistory(rec));
    }
  }

  lemma AddUserTurnShape(rec: Record, text: string)
    ensures AddUserTurn(rec, text)
         == Record(Some(SeedOf(rec) + [Message(User, text)]), Some(GetHistory(rec) + [Entry(FromUser, text)]))
  {
  }

  /** Two lists that form a conversation in progress make a record that
      keeps the invariant. */
  lemma InvOfLists(ms: seq<Message>, h: seq<Entry>)
    requires Seeded(ms, h) && Paired(h)
    ensures Inv(Record(Some(ms), Some(h)))
  {
    ListsOf(ms, h);
  }

  lemma ListsOf(ms: seq<Message>, h: seq<Entry>)
    ensures Messages(Record(Some(ms), Some(h))) == ms
    ensures GetHistory(Record(Some(ms), Some(h))) == h
  {
  }

  /** Recording the user turn keeps the invariant and leaves a user entry
      and a user message at the ends of the two lists. */
  lemma AddUserTurnInv(rec: Record, text: string)
    requires Inv(rec)
    ensures var r := AddUserTurn(rec, text);
            && Inv(r)
            && r.messages.value[|r.messages.value| - 1].role == User
            && r.history.value[|r.history.value| - 1].sender == FromUser
  {
    var u := Message(User, text);
    var ms, h := SeedOf(rec), GetHistory(rec);
    assert EntryOf(u) == Entry(FromUser, text);
    SeedOfSeeded(rec);
    SeededSnoc(ms, h, u);
    PairedSnoc(h, Entry(FromUser, text));
    InvOfLists(ms + [u], h + [EntryOf(u)]);
    AddUserTurnShape(rec, text);
  }

  /** Recording the bot reply right after a user turn keeps the
      invariant. */
  lemma AddBotTurnInv(rec: Record, reply: string)
    requires Inv(rec)
    requires rec.messages.Some? && rec.history.Some?
    requires |rec.messages.value| > 0 && rec.messages.value[|rec.messages.value| - 1].role == User
    requires |rec.history.value| > 0 && rec.history.value[|rec.history.value| - 1].sender == FromUser
    ensures Inv(AddBotTurn(rec, reply))
  {
    var a := Message(Assistant, reply);
    assert EntryOf(a) == Entry(FromBot, reply);
    SeededSnoc(rec.messages.value, rec.history.value, a);
    PairedSnoc(rec.history.value, Entry(FromBot, reply));
  }

  /** The conversation part of `/chat` preserves the invariant, whatever
      the completion and logging outcomes. */
  lemma ConversePreservesInv(rec: Record, text: string, completion: Completion, log: LogOutcome)
    requires Inv(rec)
    ensures Inv(Converse(rec, text, completion, log).record)
  {
    var asked := AddUserTurn(rec, text);
    AddUserTurnInv(rec, text);
    match completion
    case Failed(_) =>
      assert Converse(rec, text, completion, log).record == asked;
    case Completed(reply) =>
      AddBotTurnInv(asked, reply);
      assert Converse(rec, text, completion, log).record == AddBotTurn(asked, reply);
  }

  /** `/chat` preserves the invariant. */
  lemma SubmitPreservesInv(rec: Record, input: Input, completion: Completion, log: LogOutcome)
    requires Inv(rec)
    ensures Inv(Submit(rec, input, completion, log).record)
  {
    if Validate(input).Accepted? {
      ConversePreservesInv(rec, Validate(input).text, completion, log);
    }
  }

  /** Every request preserves the invariant. */
  lemma StepPreservesInv(rec: Record, req: Request)
    requires Inv(rec)
    ensures Inv(Step(rec, req).0)
  {
    if req.PostChat? {
      SubmitPreservesInv(rec, req.input, req.completion, req.log);
    }
  }

  /** Every session record reachable from a new session satisfies the
      invariant. */
  lemma {:induction false} RunPreservesInv(rec: Record, reqs: seq<Request>)
    requires Inv(rec)
    ensures Inv(Run(rec, reqs))
    decreases |reqs|
  {
    if reqs != [] {
      StepPreservesInv(rec, reqs[0]);
      RunPreservesInv(Step(rec, reqs[0]).0, reqs[1..]);
    }
  }

  lemma ReachableInv(reqs: seq<Request>)
    ensures Inv(Run(NewSession, reqs))
  {
    RunPreservesInv(NewSession, reqs);
  }

  /** After an accepted message the messages list starts with the system
      message and holds it exactly once; it was seeded only if the list was
      empty or absent, and otherwise only grew at its end. */
  lemma SeedsSystemOnce(rec: Record, text: string, completion: Completion, log: LogOutcome)
    requires Inv(rec)
    ensures var ms := Messages(Converse(rec, text, completion, log).record);
            && |ms| >= 2
            && ms[0] == SystemMessage
            && (forall i :: 0 <= i < |ms| && ms[i].role == System ==> i == 0)
            && (Messages(rec) == [] ==> ms[..2] == [SystemMessage, Message(User, text)])
            && (Messages(rec) != [] ==> Messages(rec) < ms)
  {
    ConversePreservesInv(rec, text, completion, log);
  }

  /** The completion call is handed the whole conversation: the system
      message, the earlier turns and the new user message last, which is
      also what the record holds before any reply is added. */
  lemma PayloadIsConversation(rec: Record, text: string, completion: Completion, log: LogOutcome)
    requires Inv(rec)
    ensures var out := Converse(rec, text, completion, log);
            var sent := out.sent.value;
            && sent[0] == SystemMessage
            && sent[|sent| - 1] == Message(User, text)
            && (Messages(rec) != [] ==> sent == Messages(rec) + [Message(User, text)])
            && sent <= Messages(out.record)
  {
    AddUserTurnInv(rec, text);
  }

  /** A completed turn adds exactly the user and assistant messages (after
      the system message on a first turn) and exactly the user and bot
      entries; the pair is handed to the logger, and when logging succeeds
      the reply is returned. */
  lemma CompletedTurn(rec: Record, text: string, reply: string, log: LogOutcome)
    ensures var out := Converse(rec, text, Completed(reply), log);
            var before := if Messages(rec) == [] then [SystemMessage] else Messages(rec);
            && Messages(out.record) == before + [Message(User, text), Message(Assistant, reply)]
            && GetHistory(out.record) == GetHistory(rec) + [Entry(FromUser, text), Entry(FromBot, reply)]
            && out.logged == Some((text, reply))
            && (log.Logged? ==> out.response == Reply(reply))
  {
    var before := if Messages(rec) == [] then [SystemMessage] else Messages(rec);
    assert before + [Message(User, text)] + [Message(Assistant, reply)]
        == before + [Message(User, text), Message(Assistant, reply)];
    assert GetHistory(rec) + [Entry(FromUser, text)] + [Entry(FromBot, reply)]
        == GetHistory(rec) + [Entry(FromUser, text), Entry(FromBot, reply)];
  }

  /** When logging fails after a completed turn, the bot turn has already
      been recorded, yet the caller gets the "Oops" reply instead of the
      model's answer. */
  lemma LoggingFailureAfterReply(rec: Record, text: string, reply: string, detail: string)
    ensures var out := Converse(rec, text, Completed(reply), LogFailed(detail));
            && out.response == Reply(OopsPrefix + detail)
            && StatusCode(out.response) == 200
            && GetHistory(out.record)[|GetHistory(out.record)| - 1] == Entry(FromBot, reply)
            && Messages(out.record)[|Messages(out.record)| - 1] == Message(Assistant, reply)
  {
  }

  /** A failed completion records only the user turn, which stays
      unanswered at the end of the messages list; nothing is logged and the
      reply describes the failure. */
  lemma FailedTurn(rec: Record, text: string, detail: string, log: LogOutcome)
    ensures var out := Converse(rec, text, Failed(detail), log);
            var before := if Messages(rec) == [] then [SystemMessage] else Messages(rec);
            && Messages(out.record) == before + [Message(User, text)]
            && GetHistory(out.record) == GetHistory(rec) + [Entry(FromUser, text)]
            && out.logged.None?
            && out.response == Reply(OopsPrefix + detail)
            && StatusCode(out.response) == 200
  {
  }

  /** An accepted message is stored, stripped, as the new user entry of
      the history and as the last message of the payload sent for it. */
  lemma SubmitStoresStripped(rec: Record, raw: string, completion: Completion, log: LogOutcome)
    requires !Whitespace.Blank(raw)
    ensures var out := Submit(rec, Text(raw), completion, log);
            && |GetHistory(out.record)| > |GetHistory(rec)|
            && GetHistory(out.record)[|GetHistory(rec)|] == Entry(FromUser, Whitespace.Strip(raw))
            && out.sent.Some? && |out.sent.value| > 0
            && out.sent.value[|out.sent.value| - 1] == Message(User, Whitespace.Strip(raw))
  {
    var text := Whitespace.Strip(raw);
    assert Validate(Text(raw)) == Accepted(text);
    var asked := AddUserTurn(rec, text);
    assert GetHistory(asked)[|GetHistory(rec)|] == Entry(FromUser, text);
    assert GetHistory(asked) <= GetHistory(Converse(rec, text, completion, log).record);
  }

  /** A blank or missing message is refused with 400 and leaves the record
      exactly as it was, absent lists included. */
  lemma BlankMessageRefused(rec: Record, raw: string, completion: Completion, log: LogOutcome)
    requires Whitespace.Blank(raw)
    ensures var out := Submit(rec, Text(raw), completion, log);
            && out.record == rec
            && out.response == Rejected(MessageRequired)
            && StatusCode(out.response) == 400
    ensures Submit(rec, Absent, completion, log).record == rec
    ensures Submit(rec, Absent, completion, log).response == Rejected(MessageRequired)
  {
  }

  /** `/clear` keeps the history, drops the messages, and is idempotent;
      the next accepted message starts a new conversation with the system
      message, while the history carries on. */
  lemma ClearThenSubmit(rec: Record, text: string, completion: Completion, log: LogOutcome)
    ensures Clear(Clear(rec)) == Clear(rec)
    ensures GetHistory(Clear(rec)) == GetHistory(rec)
    ensures var ms := Messages(Converse(Clear(rec), text, completion, log).record);
            ms[..2] == [SystemMessage, Message(User, text)]
    ensures GetHistory(rec) < GetHistory(Converse(Clear(rec), text, completion, log).record)
  {
  }

  /** No request shortens the history, and `/history` reads it without
      changing the record (an absent history reads as `[]`). */
  lemma StepHistoryGrows(rec: Record, req: Request)
    ensures GetHistory(rec) <= GetHistory(Step(rec, req).0)
    ensures req.FetchHistory? ==> Step(rec, req) == (rec, HistoryList(GetHistory(rec)))
    ensures GetHistory(NewSession) == []
  {
  }

  lemma {:induction false} RunHistoryGrows(rec: Record, reqs: seq<Request>)
    ensures GetHistory(rec) <= GetHistory(Run(rec, reqs))
    decreases |reqs|
  {
    if reqs != [] {
      var next := Step(rec, reqs[0]).0;
      StepHistoryGrows(rec, reqs[0]);
      RunHistoryGrows(next, reqs[1..]);
    }
  }

  /** One user message and the reply the completion service gives it. */
  datatype Turn = Turn(said: string, reply: string)

  /** `/chat` requests for these turns, each completed and logged. */
  function AnsweredChats(turns: seq<Turn>): (reqs: seq<Request>)
    ensures |reqs| == |turns|
    ensures forall i :: 0 <= i < |turns| ==>
      reqs[i] == PostChat(Text(turns[i].said), Completed(turns[i].reply), Logged)
  {
    seq(|turns|, i requires 0 <= i < |turns| => PostChat(Text(turns[i].said), Completed(turns[i].reply), Logged))
  }

  /** The history entries of these turns: user then bot, in order. */
  function Transcript(turns: seq<Turn>): (h: seq<Entry>)
    ensures |h| == 2 * |turns|
  {
    if turns == [] then []
    else TurnEntries(turns[0]) + Transcript(turns[1..])
  }

  /** The messages of these turns: user then assistant, in order. */
  function Dialogue(turns: seq<Turn>): (ms: seq<Message>)
    ensures |ms| == 2 * |turns|
  {
    if turns == [] then []
    else TurnMessages(turns[0]) + Dialogue(turns[1..])
  }

  /** An answered `/chat` request for a non-blank message is the
      conversation step on the stripped message. */
  lemma AnsweredStep(rec: Record, t: Turn)
    requires !Whitespace.Blank(t.said)
    ensures Step(rec, PostChat(Text(t.said), Completed(t.reply), Logged)).0
         == Converse(rec, Whitespace.Strip(t.said), Completed(t.reply), Logged).record
  {
    assert Validate(Text(t.said)) == Accepted(Whitespace.Strip(t.said));
  }

  /** Running the answered requests of `turns` is one answered step
      followed by the rest. */
  lemma RunAnsweredUnfold(rec: Record, turns: seq<Turn>)
    requires turns != []
    ensures Run(rec, AnsweredChats(turns))
         == Run(Step(rec, PostChat(Text(turns[0].said), Completed(turns[0].reply), Logged)).0,
                AnsweredChats(turns[1..]))
  {
    var reqs := AnsweredChats(turns);
    assert reqs[1..] == AnsweredChats(turns[1..]);
  }

  /** The entries one answered turn adds to the history. */
  function TurnEntries(t: Turn): seq<Entry>
  {
    [Entry(FromUser, Whitespace.Strip(t.said)), Entry(FromBot, t.reply)]
  }

  /** The messages one answered turn adds to a conversation in progress. */
  function TurnMessages(t: Turn): seq<Message>
  {
    [Message(User, Whitespace.Strip(t.said)), Message(Assistant, t.reply)]
  }

  /** One answered `/chat` request on a conversation in progress. */
  lemma AnsweredTurn(rec: Record, t: Turn)
    requires Messages(rec) != []
    requires !Whitespace.Blank(t.said)
    ensures var next := Step(rec, PostChat(Text(t.said), Completed(t.reply), Logged)).0;
            && Messages(next) == Messages(rec) + TurnMessages(t)
            && GetHistory(next) == GetHistory(rec) + TurnEntries(t)
  {
    AnsweredStep(rec, t);
    CompletedTurn(rec, Whitespace.Strip(t.said), t.reply, Logged);
  }

  lemma DialogueCons(ms: seq<Message>, turns: seq<Turn>)
    requires turns != []
    ensures ms + TurnMessages(turns[0]) + Dialogue(turns[1..]) == ms + Dialogue(turns)
  {
  }

  lemma TranscriptCons(h: seq<Entry>, turns: seq<Turn>)
    requires turns != []
    ensures h + TurnEntries(turns[0]) + Transcript(turns[1..]) == h + Transcript(turns)
  {
  }

  /** Answered turns in a conversation in progress append their messages
      and their entries, in order. */
  lemma {:induction false} AnsweredTurnsAppend(rec: Record, turns: seq<Turn>)
    requires Messages(rec) != []
    requires forall i :: 0 <= i < |turns| ==> !Whitespace.Blank(turns[i].said)
    ensures Messages(Run(rec, AnsweredChats(turns))) == Messages(rec) + Dialogue(turns)
    ensures GetHistory(Run(rec, AnsweredChats(turns))) == GetHistory(rec) + Transcript(turns)
    decreases |turns|
  {
    if turns != [] {
      var t, rest := turns[0], turns[1..];
      var next := Step(rec, PostChat(Text(t.said), Completed(t.reply), Logged)).0;
      RunAnsweredUnfold(rec, turns);
      AnsweredTurn(rec, t);
      assert forall i :: 0 <= i < |rest| ==> rest[i] == turns[i + 1];
      AnsweredTurnsAppend(next, rest);
      DialogueCons(Messages(rec), turns);
      TranscriptCons(GetHistory(rec), turns);
    }
  }

  /** The first answered `/chat` request of a new session seeds the
      system message. */
  lemma FirstAnsweredTurn(t: Turn)
    requires !Whitespace.Blank(t.said)
    ensures var first := Step(NewSession, PostChat(Text(t.said), Completed(t.reply), Logged)).0;
            && Messages(first) == [SystemMessage] + TurnMessages(t)
            && GetHistory(first) == TurnEntries(t)
  {
    AnsweredStep(NewSession, t);
    CompletedTurn(NewSession, Whitespace.Strip(t.said), t.reply, Logged);
  }

  /** After N >= 1 answered messages in a new session, the history is the
      2N entries of those turns and the messages are the system message
      followed by their 2N messages. */
  lemma NewConversation(turns: seq<Turn>)
    requires |turns| > 0
    requires forall i :: 0 <= i < |turns| ==> !Whitespace.Blank(turns[i].said)
    ensures Messages(Run(NewSession, AnsweredChats(turns))) == [SystemMessage] + Dialogue(turns)
    ensures GetHistory(Run(NewSession, AnsweredChats(turns))) == Transcript(turns)
    ensures |Messages(Run(NewSession, AnsweredChats(turns)))| == 2 * |turns| + 1
    ensures |GetHistory(Run(NewSession, AnsweredChats(turns)))| == 2 * |turns|
  {
    var t, rest := turns[0], turns[1..];
    var first := Step(NewSession, PostChat(Text(t.said), Completed(t.reply), Logged)).0;
    RunAnsweredUnfold(NewSession, turns);
    FirstAnsweredTurn(t);
    assert forall i :: 0 <= i < |rest| ==> rest[i] == turns[i + 1];
    AnsweredTurnsAppend(first, rest);
    DialogueCons([SystemMessage], turns);
    TranscriptCons([], turns);
  }
}
