/** The earlier single-file bot.  It handles text messages only, from any
    source and without a mention check or a rate limit.  Its histories are
    keyed by the sender (a group's members each have their own), capped at
    ten, and trimmed by the same single removal of the two oldest entries.
    An exact `/reset` (any letter case) deletes the sender's history.  The
    reply token `test-reply-token` makes it return what it would have sent
    instead of sending it. */
module LegacyBot {
  import opened Wrappers
  import opened JsString
  import opened Constants
  import opened Protocol
  import opened ChatHandler

  const LEGACY_SYSTEM_PROMPT: string := "You are a helpful assistant in a LINE chat."
  const LEGACY_RESET_DONE: string := "🔄 Chat cleared!"
  const LEGACY_ERROR: string := "😅 Sorry, something went wrong!"
  const TEST_REPLY_TOKEN: string := "test-reply-token"

  /** What `handleEvent` resolves to: nothing for an ignored event, the
      reply it sent, or, for the test token, `{message}` or `{error}`. */
  datatype Response =
    | NoResponse
    | Sent(action: Action)
    | TestMessage(message: string)
    | TestError(error: string)

  /** The completion calls made, and the response. */
  datatype LegacyOutcome = LegacyOutcome(calls: seq<Call>, response: Response)

  /** Reply with `text`, or hand back `test` for the test token. */
  function Respond(token: string, text: string, test: Response): Response {
    if token == TEST_REPLY_TOKEN then test else Sent(TextReply(token, text))
  }

  predicate IsReset(text: string) {
    Lower(text) == "/reset"
  }

  /** The whole handling of one event, given the completion's answer; also
      the store's new contents. */
  function LegacyProcess(conversations: map<Id, seq<Entry>>, ev: Event, reply: Result<string, ErrorInfo>)
    : (LegacyOutcome, map<Id, seq<Entry>>)
  {
    if !IsTextMessage(ev) then (LegacyOutcome([], NoResponse), conversations)
    else
      var user := ev.source.userId;
      var text := ev.kind.message.text;
      var token := ev.replyToken;
      if IsReset(text) then
        (LegacyOutcome([], Respond(token, LEGACY_RESET_DONE, TestMessage(LEGACY_RESET_DONE))), conversations - {user})
      else
        var h := History(conversations, user);
        var sent := WithUserTurn(h, text, LEGACY_MAX_HISTORY);
        var response := match reply
          case Ok(r) => Respond(token, r, TestMessage(r))
          case Err(e) => Respond(token, LEGACY_ERROR, TestError(e.message));
        (LegacyOutcome([ChatCompletion(LEGACY_SYSTEM_PROMPT, sent)], response),
         conversations[user := Exchange(h, text, reply, LEGACY_MAX_HISTORY)])
  }

  /** `handleEvent` of the single-file bot over its store of ten-entry
      histories. */
  method LegacyHandleEvent(store: ConversationStore, ev: Event, reply: Result<string, ErrorInfo>)
    returns (out: LegacyOutcome)
    requires store.Valid() && store.cap == LEGACY_MAX_HISTORY
    modifies store
    ensures store.Valid()
    ensures (out, store.conversations) == LegacyProcess(old(store.conversations), ev, reply)
  {
    if !IsTextMessage(ev) {
      return LegacyOutcome([], NoResponse);
    }
    var user := ev.source.userId;
    var text := ev.kind.message.text;
    var token := ev.replyToken;
    if Lower(text) == "/reset" {
      store.Reset(user);
      return LegacyOutcome([], Respond(token, LEGACY_RESET_DONE, TestMessage(LEGACY_RESET_DONE)));
    }
    var sent := store.PushUserTurn(user, text);
    var response;
    match reply {
      case Ok(r) =>
        store.PushAssistantTurn(user, r);
        response := Respond(token, r, TestMessage(r));
      case Err(e) =>
        response := Respond(token, LEGACY_ERROR, TestError(e.message));
    }
    out := LegacyOutcome([ChatCompletion(LEGACY_SYSTEM_PROMPT, sent)], response);
    assert store.conversations == old(store.conversations)[user := Exchange(History(old(store.conversations), user), text, reply, LEGACY_MAX_HISTORY)];
    assert sent == WithUserTurn(History(old(store.conversations), user), text, LEGACY_MAX_HISTORY);
  }

  // -----------------------------------------------------------------------
  // Properties

  /** Events other than text messages change nothing and get no response. */
  lemma LegacyIgnoresNonText(conversations: map<Id, seq<Entry>>, ev: Event, reply: Result<string, ErrorInfo>)
    requires !IsTextMessage(ev)
    ensures LegacyProcess(conversations, ev, reply) == (LegacyOutcome([], NoResponse), conversations)
  {
  }

  /** Every text message is answered on its own reply token, whatever its
      source, unless the token is the test token; the test token sends
      nothing. */
  lemma LegacyAnswersEveryText(conversations: map<Id, seq<Entry>>, ev: Event, reply: Result<string, ErrorInfo>)
    requires IsTextMessage(ev)
    ensures var r := LegacyProcess(conversations, ev, reply).0.response;
            (ev.replyToken == TEST_REPLY_TOKEN <==> !r.Sent?)
            && (r.Sent? ==> r.action.ReplyTo? && r.action.replyToken == ev.replyToken && |r.action.messages| == 1)
            && r != NoResponse
  {
  }

  /** An exact `/reset` calls nothing, answers with the fixed text, and
      deletes only the sender's history. */
  lemma LegacyReset(conversations: map<Id, seq<Entry>>, ev: Event, reply: Result<string, ErrorInfo>)
    requires IsTextMessage(ev) && IsReset(ev.kind.message.text)
    ensures var (out, c) := LegacyProcess(conversations, ev, reply);
            out.calls == [] && c == conversations - {ev.source.userId}
            && out.response == Respond(ev.replyToken, LEGACY_RESET_DONE, TestMessage(LEGACY_RESET_DONE))
  {
  }

  /** Any other text makes exactly one completion call, with the legacy
      system instruction and the sender's history trimmed to at most ten
      entries and ending in the message. */
  lemma LegacyChatCall(conversations: map<Id, seq<Entry>>, ev: Event, reply: Result<string, ErrorInfo>)
    requires IsTextMessage(ev) && !IsReset(ev.kind.message.text)
    requires |History(conversations, ev.source.userId)| <= LEGACY_MAX_HISTORY + 1
    ensures var sent := WithUserTurn(History(conversations, ev.source.userId), ev.kind.message.text, LEGACY_MAX_HISTORY);
            LegacyProcess(conversations, ev, reply).0.calls == [ChatCompletion(LEGACY_SYSTEM_PROMPT, sent)]
            && |sent| <= LEGACY_MAX_HISTORY && |sent| > 0 && sent[|sent| - 1] == Entry(UserRole, ev.kind.message.text)
  {
    var h := History(conversations, ev.source.userId);
    var text := ev.kind.message.text;
    assert LegacyProcess(conversations, ev, reply).0.calls
           == [ChatCompletion(LEGACY_SYSTEM_PROMPT, WithUserTurn(h, text, LEGACY_MAX_HISTORY))];
    SentHistory(h, text);
  }

  lemma SentHistory(h: seq<Entry>, text: string)
    requires |h| <= LEGACY_MAX_HISTORY + 1
    ensures var sent := WithUserTurn(h, text, LEGACY_MAX_HISTORY);
            |sent| <= LEGACY_MAX_HISTORY && |sent| > 0 && sent[|sent| - 1] == Entry(UserRole, text)
  {
    UserTurnTrimsOnce(h, text, LEGACY_MAX_HISTORY);
    ChatTurnBound(h, text, Err(ErrorInfo("", None, None)), LEGACY_MAX_HISTORY);
  }

  /** The sender's history ends with the answer after the history sent, or
      is the history sent when the completion failed; the response carries
      the answer, or the fixed apology (the error's message for the test
      token). */
  lemma LegacyChatAnswer(conversations: map<Id, seq<Entry>>, ev: Event, reply: Result<string, ErrorInfo>)
    requires IsTextMessage(ev) && !IsReset(ev.kind.message.text)
    ensures var sent := WithUserTurn(History(conversations, ev.source.userId), ev.kind.message.text, LEGACY_MAX_HISTORY);
            var (out, c) := LegacyProcess(conversations, ev, reply);
            match reply
            case Ok(r) =>
              c[ev.source.userId] == sent + [Entry(AssistantRole, r)]
              && out.response == Respond(ev.replyToken, r, TestMessage(r))
            case Err(e) =>
              c[ev.source.userId] == sent
              && out.response == Respond(ev.replyToken, LEGACY_ERROR, TestError(e.message))
  {
  }

  /** Histories are the sender's own: a turn changes no other key. */
  lemma LegacyKeyedBySender(conversations: map<Id, seq<Entry>>, ev: Event, reply: Result<string, ErrorInfo>)
    ensures var c := LegacyProcess(conversations, ev, reply).1;
            forall u :: u != ev.source.userId ==> (u in c <==> u in conversations)
    ensures var c := LegacyProcess(conversations, ev, reply).1;
            forall u :: u in conversations && u != ev.source.userId ==> c[u] == conversations[u]
  {
  }

  /** The stored histories stay within eleven entries. */
  lemma LegacyKeepsBound(conversations: map<Id, seq<Entry>>, ev: Event, reply: Result<string, ErrorInfo>)
    requires forall u :: u in conversations ==> |conversations[u]| <= LEGACY_MAX_HISTORY + 1
    ensures var c := LegacyProcess(conversations, ev, reply).1;
            forall u :: u in c ==> |c[u]| <= LEGACY_MAX_HISTORY + 1
  {
    if IsTextMessage(ev) && !IsReset(ev.kind.message.text) {
      ChatTurnBound(History(conversations, ev.source.userId), ev.kind.message.text, reply, LEGACY_MAX_HISTORY);
    }
  }
}
