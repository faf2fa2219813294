/** The default chat path and the conversation store behind it.  Each room
    has a history of `{role, content}` entries.  A chat turn creates the
    room's history if it is missing, pushes the user's entry, removes the two
    oldest entries once if the history is then longer than the cap, hands the
    history to the chat-completion service, and on success pushes the
    assistant's reply.  A reset deletes the room's history. */
module ChatHandler {
  import opened Wrappers
  import opened JsString
  import opened Constants
  import opened Protocol
  import opened ErrorRules

  /** The system instruction the chat-completion service puts first. */
  const SYSTEM_PROMPT: string := "You are a helpful assistant. Keep responses concise and friendly."

  // -----------------------------------------------------------------------
  // Histories

  /** `history.splice(0, 2)`: the history without its first two entries. */
  function DropTwo(h: seq<Entry>): seq<Entry> {
    if |h| < 2 then [] else h[2..]
  }

  /** The history after the user's entry is pushed and the single trim. */
  function WithUserTurn(h: seq<Entry>, content: string, cap: nat): seq<Entry> {
    var pushed := h + [Entry(UserRole, content)];
    if |pushed| > cap then DropTwo(pushed) else pushed
  }

  /** The history after a whole chat turn whose completion gave `reply`. */
  function Exchange(h: seq<Entry>, content: string, reply: Result<string, ErrorInfo>, cap: nat): seq<Entry> {
    var sent := WithUserTurn(h, content, cap);
    if reply.Ok? then sent + [Entry(AssistantRole, reply.value)] else sent
  }

  /** A room's current history, empty when it has none yet. */
  function History(conversations: map<Id, seq<Entry>>, room: Id): seq<Entry> {
    if room in conversations then conversations[room] else []
  }

  /** What the user's entry says: the message itself in a one-to-one chat;
      in a group or room, the message attributed to the sender, named by the
      profile lookup or "User" when the lookup failed. */
  function UserContent(room: Id, user: Id, message: string, profile: Option<string>): string {
    if room == user then message
    else
      var name := match profile case Some(n) => n case None => "User";
      "UserID " + ShowId(user) + "(" + name + ") says: " + message
  }

  // -----------------------------------------------------------------------
  // Errors

  const CHAT_CONFIG_ERROR: string := "⚙️ Groq API configuration error. Please contact admin."
  const CHAT_TIMEOUT: string := "⏱️ AI request timed out. Please try again."
  const CHAT_RATE_LIMITED: string := "🚦 Rate limit exceeded. Please try again in a moment."
  const CHAT_UNAVAILABLE: string := "🔧 AI service is temporarily unavailable. Please try again later."
  const CHAT_FALLBACK: string := "😅 Sorry, something went wrong with AI!"

  const CHAT_ERROR_RULES: seq<Rule> := [
    Rule([MessageHas("API key"), MessageHas("api_key")], CHAT_CONFIG_ERROR),
    Rule([CodeIs("ECONNABORTED"), CodeIs("ETIMEDOUT")], CHAT_TIMEOUT),
    Rule([StatusIs(429)], CHAT_RATE_LIMITED),
    Rule([StatusIs(500), StatusIs(503)], CHAT_UNAVAILABLE)
  ]

  function ChatErrorText(e: ErrorInfo): string {
    Classify(CHAT_ERROR_RULES, e, CHAT_FALLBACK)
  }

  /** `error.message.includes('API key') || error.message.includes('api_key')`. */
  predicate IsConfigError(e: ErrorInfo) {
    Contains(e.message, "API key") || Contains(e.message, "api_key")
  }

  predicate IsTimeoutCode(code: Option<string>) {
    code == Some("ECONNABORTED") || code == Some("ETIMEDOUT")
  }

  /** The chat error texts follow the handler's chain of tests, in its order:
      configuration, then timeout, then 429, then 500 or 503, else generic. */
  lemma ChatErrorChain(e: ErrorInfo)
    ensures IsConfigError(e) ==> ChatErrorText(e) == CHAT_CONFIG_ERROR
    ensures !IsConfigError(e) && IsTimeoutCode(e.code) ==> ChatErrorText(e) == CHAT_TIMEOUT
    ensures !IsConfigError(e) && !IsTimeoutCode(e.code) && e.status == Some(429) ==>
              ChatErrorText(e) == CHAT_RATE_LIMITED
    ensures !IsConfigError(e) && !IsTimeoutCode(e.code) && (e.status == Some(500) || e.status == Some(503)) ==>
              ChatErrorText(e) == CHAT_UNAVAILABLE
    ensures !IsConfigError(e) && !IsTimeoutCode(e.code)
            && e.status != Some(429) && e.status != Some(500) && e.status != Some(503) ==>
              ChatErrorText(e) == CHAT_FALLBACK
  {
    var r := CHAT_ERROR_RULES;
    assert Applies(r[0], e) <==> Holds(r[0].anyOf[0], e) || Holds(r[0].anyOf[1], e);
    assert Applies(r[1], e) <==> Holds(r[1].anyOf[0], e) || Holds(r[1].anyOf[1], e);
    assert Applies(r[2], e) <==> Holds(r[2].anyOf[0], e);
    assert Applies(r[3], e) <==> Holds(r[3].anyOf[0], e) || Holds(r[3].anyOf[1], e);
    if !IsConfigError(e) && !IsTimeoutCode(e.code)
       && e.status != Some(429) && e.status != Some(500) && e.status != Some(503)
    {
      assert forall j :: 0 <= j < |r| ==> !Applies(r[j], e) by {
        forall j | 0 <= j < |r| ensures !Applies(r[j], e) {
          assert j == 0 || j == 1 || j == 2 || j == 3;
        }
      }
    }
  }

  // -----------------------------------------------------------------------
  // The store

  class ConversationStore {
    /** The history length above which the two oldest entries are dropped. */
    const cap: nat
    /** `conversations`: room to history. */
    var conversations: map<Id, seq<Entry>>

    /** A stored history is at most one entry over the cap: the cap holds
        when the history is handed to the model, and one reply is added. */
    ghost predicate Valid()
      reads this
    {
      cap >= 1 && forall k :: k in conversations ==> |conversations[k]| <= cap + 1
    }

    constructor (cap: nat)
      requires cap >= 1
      ensures Valid() && this.cap == cap && conversations == map[]
    {
      this.cap := cap;
      conversations := map[];
    }

    /** Create the room's history if needed, push the user's entry, trim
        once; returns the history as it is handed to the model. */
    method PushUserTurn(room: Id, content: string) returns (history: seq<Entry>)
      requires Valid()
      modifies this
      ensures Valid()
      ensures history == WithUserTurn(History(old(conversations), room), content, cap)
      ensures conversations == old(conversations)[room := history]
      ensures |history| <= cap
    {
      if room !in conversations {
        conversations := conversations[room := []];
      }
      history := conversations[room];
      history := history + [Entry(UserRole, content)];
      if |history| > cap {
        history := DropTwo(history);
      }
      conversations := conversations[room := history];
    }

    /** Push the assistant's reply onto the room's history. */
    method PushAssistantTurn(room: Id, reply: string)
      requires Valid() && room in conversations && |conversations[room]| <= cap
      modifies this
      ensures Valid()
      ensures conversations == old(conversations)[room := old(conversations)[room] + [Entry(AssistantRole, reply)]]
    {
      conversations := conversations[room := conversations[room] + [Entry(AssistantRole, reply)]];
    }

    /** `resetConversation(roomId)`: forget the room's history. */
    method Reset(room: Id)
      requires Valid()
      modifies this
      ensures Valid()
      ensures conversations == old(conversations) - {room}
    {
      conversations := conversations - {room};
    }
  }

  /** What the chat turn calls and sends. */
  function ChatOutcome(token: string, room: Id, user: Id, sent: seq<Entry>,
                       reply: Result<string, ErrorInfo>): Outcome {
    var lookups := if room == user then [] else [ProfileLookup(user)];
    var text := match reply case Ok(r) => r case Err(e) => ChatErrorText(e);
    Outcome(lookups + [ChatCompletion(SYSTEM_PROMPT, sent)], [TextReply(token, text)])
  }

  /** `handleGroqChat`: `profile` is the profile lookup's answer (None when it
      failed) and `reply` the chat completion's. */
  method HandleGroqChat(store: ConversationStore, token: string, room: Id, user: Id, message: string,
                        profile: Option<string>, reply: Result<string, ErrorInfo>)
    returns (out: Outcome)
    requires store.Valid() && store.cap == MAX_HISTORY
    modifies store
    ensures store.Valid()
    ensures store.conversations
            == old(store.conversations)[room := Exchange(History(old(store.conversations), room),
                                                         UserContent(room, user, message, profile), reply, MAX_HISTORY)]
    ensures out == ChatOutcome(token, room, user,
                               WithUserTurn(History(old(store.conversations), room),
                                            UserContent(room, user, message, profile), MAX_HISTORY), reply)
  {
    var content := UserContent(room, user, message, profile);
    var lookups := if room == user then [] else [ProfileLookup(user)];
    var sent := store.PushUserTurn(room, content);
    var text;
    match reply {
      case Ok(r) =>
        store.PushAssistantTurn(room, r);
        text := r;
      case Err(e) =>
        text := ChatErrorText(e);
    }
    out := Outcome(lookups + [ChatCompletion(SYSTEM_PROMPT, sent)], [TextReply(token, text)]);
  }

  // -----------------------------------------------------------------------
  // Properties of a chat turn

  /** The user's turn removes nothing, or exactly the two oldest entries,
      and the user's entry is last (with a cap of one, a trim could remove
      the entry just pushed; the store's cap is MAX_HISTORY). */
  lemma UserTurnTrimsOnce(h: seq<Entry>, content: string, cap: nat)
    requires cap >= 2
    ensures var r := WithUserTurn(h, content, cap);
            var pushed := h + [Entry(UserRole, content)];
            |r| > 0 && r[|r| - 1] == Entry(UserRole, content)
            && pushed == pushed[..|pushed| - |r|] + r
            && |pushed| - |r| == (if |h| + 1 > cap then 2 else 0)
  {
    var pushed := h + [Entry(UserRole, content)];
    var r := WithUserTurn(h, content, cap);
    if |pushed| > cap {
      assert |pushed| >= 2;
      assert r == pushed[2..];
      assert |pushed| - |r| == 2;
      assert pushed[..|pushed| - |r|] == pushed[..2];
      assert pushed == pushed[..2] + pushed[2..];
    } else {
      assert r == pushed;
      assert pushed[..0] + r == r;
    }
  }

  /** If a history is at most one over the cap, the model is given at most
      `cap` entries and the turn leaves at most `cap + 1`. */
  lemma ChatTurnBound(h: seq<Entry>, content: string, reply: Result<string, ErrorInfo>, cap: nat)
    requires cap >= 1 && |h| <= cap + 1
    ensures |WithUserTurn(h, content, cap)| <= cap
    ensures |Exchange(h, content, reply, cap)| <= cap + 1
  {
  }

  /** The bound `cap + 1` is reached: a history one short of the cap, as a
      failed turn leaves it, is not trimmed and grows to `cap + 1`. */
  lemma ChatTurnBoundIsTight(h: seq<Entry>, content: string, r: string, cap: nat)
    requires cap >= 1 && |h| == cap - 1
    ensures |Exchange(h, content, Ok(r), cap)| == cap + 1
  {
  }

  /** A failed completion keeps the user's entry and adds no reply; a
      successful one appends the reply after it. */
  lemma ChatTurnReply(h: seq<Entry>, content: string, reply: Result<string, ErrorInfo>, cap: nat)
    requires cap >= 2
    ensures var x := Exchange(h, content, reply, cap);
            var sent := WithUserTurn(h, content, cap);
            match reply
            case Ok(r) => x == sent + [Entry(AssistantRole, r)]
            case Err(_) => x == sent && |x| > 0 && x[|x| - 1] == Entry(UserRole, content)
  {
    UserTurnTrimsOnce(h, content, cap);
  }

  /** A history of complete user/assistant pairs. */
  ghost predicate Paired(h: seq<Entry>) {
    |h| % 2 == 0
    && forall q :: 0 <= q < |h| ==> h[q].role == (if q % 2 == 0 then UserRole else AssistantRole)
  }

  /** As long as every completion succeeds, an even cap is never exceeded and
      the history stays a sequence of complete pairs. */
  lemma SuccessfulTurnsStayPaired(h: seq<Entry>, content: string, r: string, cap: nat)
    requires cap >= 2 && cap % 2 == 0 && |h| <= cap && Paired(h)
    ensures Paired(Exchange(h, content, Ok(r), cap))
    ensures |Exchange(h, content, Ok(r), cap)| <= cap
  {
    var pushed := h + [Entry(UserRole, content)];
    var x := Exchange(h, content, Ok(r), cap);
    if |pushed| > cap {
      assert x == pushed[2..] + [Entry(AssistantRole, r)];
      forall q | 0 <= q < |x|
        ensures x[q].role == (if q % 2 == 0 then UserRole else AssistantRole)
      {
        if q < |x| - 1 { assert x[q] == pushed[q + 2]; }
      }
    } else {
      assert x == h + [Entry(UserRole, content), Entry(AssistantRole, r)];
    }
  }

  /** In a one-to-one chat the entry is the message itself; in a group or
      room the message follows a non-empty attribution. */
  lemma UserContentAttribution(room: Id, user: Id, message: string, profile: Option<string>)
    ensures var c := UserContent(room, user, message, profile);
            |c| >= |message| && c[|c| - |message|..] == message
            && (room == user <==> c == message)
  {
    var c := UserContent(room, user, message, profile);
    if room != user {
      var name := match profile case Some(n) => n case None => "User";
      var prefix := "UserID " + ShowId(user) + "(" + name + ") says: ";
      assert c == prefix + message;
      assert c[|c| - |message|..] == message;
    }
  }

  /** A first "hello" in a one-to-one chat: the model sees `[user "hello"]`,
      and the history afterwards is that entry followed by the reply. */
  lemma HelloExample(user: Id, r: string)
    ensures WithUserTurn([], UserContent(user, user, "hello", None), MAX_HISTORY) == [Entry(UserRole, "hello")]
    ensures Exchange([], UserContent(user, user, "hello", None), Ok(r), MAX_HISTORY)
            == [Entry(UserRole, "hello"), Entry(AssistantRole, r)]
  {
  }
}
