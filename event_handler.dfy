/** The event pipeline of the modular bot.  A non-text event is ignored.  A
    text message from a one-to-one chat is processed as typed, with the
    sender as the room.  One from a group or room is processed only when it
    addresses the bot, by a mention of the bot's id or by the text
    `@<display name>` in any letter case; it is then processed with that
    text cut out and the rest trimmed, and the group (else the room) as the
    room.  Processing answers a blank message without using the sender's
    rate budget; otherwise it checks the sender's rate limit, and when
    admitted routes on the lower-cased text: exactly `/reset`, then the
    prefixes `/help`, `/image `, `/google ` and `/tts `, else the chat. */
module EventHandler {
  import opened Wrappers
  import opened JsString
  import opened Constants
  import opened Protocol
  import opened RateLimit
  import opened ChatHandler
  import opened SearchHandler
  import opened TtsHandler
  import opened HelpHandler
  import opened ImageHandler

  const BLANK_REPLY: string := "幹嘛? 有事嗎你"
  const RATE_DENIED: string := "你問題太多了!"
  const RESET_DONE: string := "🔄 Conversation history cleared!"

  /** The bot's own id and display name as fetched at start-up; each is
      None when the fetch failed. */
  datatype BotInfo = BotInfo(userId: Id, displayName: Id)

  /** What the collaborators answer, should the event reach them. */
  datatype Answers = Answers(
    profile: Option<string>,
    chat: Result<string, ErrorInfo>,
    image: Result<string, ErrorInfo>,
    search: Result<seq<SearchItem>, ErrorInfo>,
    speech: Result<string, ErrorInfo>)

  // -----------------------------------------------------------------------
  // Addressing

  /** `@${displayName}`; a name that was never fetched renders as "null". */
  function MentionTag(name: Id): string {
    "@" + match name case Some(n) => n case None => "null"
  }

  /** Some mentionee carries the bot's id; never so when the id is unknown. */
  predicate MentionedById(mentionees: seq<Mentionee>, botId: Id) {
    botId.Some? && exists q :: 0 <= q < |mentionees| && mentionees[q].userId == botId
  }

  /** The text contains the tag, ignoring letter case. */
  predicate MentionedByName(text: string, name: Id) {
    Contains(Lower(text), Lower(MentionTag(name)))
  }

  /** `text.replace(new RegExp(tag, 'i'), '')`: the first occurrence of the
      tag, ignoring letter case, cut out. */
  function RemoveTag(text: string, tag: string): (r: string)
    ensures IndexOf(Lower(text), Lower(tag)).None? ==> r == text
    ensures IndexOf(Lower(text), Lower(tag)).Some? ==>
              var i := IndexOf(Lower(text), Lower(tag)).value;
              i + |tag| <= |text| && Lower(text[i..i + |tag|]) == Lower(tag)
              && r == text[..i] + text[i + |tag|..]
  {
    match IndexOf(Lower(text), Lower(tag))
    case None => text
    case Some(i) =>
      LowerSlice(text, i, i + |tag|);
      text[..i] + text[i + |tag|..]
  }

  /** The room, sender and text an addressed message is processed with. */
  datatype Addressed = Addressed(room: Id, sender: Id, text: string)

  /** `handleEvent`'s filter: None for an event that is ignored. */
  function Gate(ev: Event, bot: BotInfo): Option<Addressed> {
    if !IsTextMessage(ev) then None
    else
      var text := ev.kind.message.text;
      var src := ev.source;
      match src.kind
      case FromUser => Some(Addressed(src.userId, src.userId, text))
      case FromOther => None
      case _ =>
        if MentionedById(ev.kind.message.mentionees, bot.userId) || MentionedByName(text, bot.displayName) then
          Some(Addressed(Or(src.groupId, src.roomId), src.userId, Trim(RemoveTag(text, MentionTag(bot.displayName)))))
        else None
  }

  // -----------------------------------------------------------------------
  // Routing

  datatype Route = ResetRoute | HelpRoute | ImageRoute | GoogleRoute | TtsRoute | ChatRoute

  predicate StartsWith(s: string, p: string) {
    |p| <= |s| && s[..|p|] == p
  }

  /** The command a message selects, chosen by its lower-cased text. */
  function RouteOf(text: string): Route {
    var l := Lower(text);
    if l == "/reset" then ResetRoute
    else if StartsWith(l, "/help") then HelpRoute
    else if StartsWith(l, "/image ") then ImageRoute
    else if StartsWith(l, "/google ") then GoogleRoute
    else if StartsWith(l, "/tts ") then TtsRoute
    else ChatRoute
  }

  // -----------------------------------------------------------------------
  // One event

  /** What one event leads to: what was called and sent, and the new state
      of the rate limiter and of the conversation store. */
  datatype Step = Step(out: Outcome, windows: map<Id, seq<int>>, conversations: map<Id, seq<Entry>>)

  /** `processMessage` after the rate check admitted the sender. */
  function Dispatch(conversations: map<Id, seq<Entry>>, ev: Event, a: Addressed, answers: Answers)
    : (Outcome, map<Id, seq<Entry>>)
  {
    var token := ev.replyToken;
    match RouteOf(a.text)
    case ResetRoute => (Outcome([], [TextReply(token, RESET_DONE)]), conversations - {a.room})
    case HelpRoute => (HelpOutcome(token, a.text), conversations)
    case ImageRoute => (ImageOutcome(token, a.text, answers.image), conversations)
    case GoogleRoute => (SearchOutcome(token, a.text, answers.search), conversations)
    case TtsRoute => (TtsOutcome(token, ev.source, a.text, answers.speech), conversations)
    case ChatRoute =>
      var h := History(conversations, a.room);
      var content := UserContent(a.room, a.sender, a.text, answers.profile);
      (ChatOutcome(token, a.room, a.sender, WithUserTurn(h, content, MAX_HISTORY), answers.chat),
       conversations[a.room := Exchange(h, content, answers.chat, MAX_HISTORY)])
  }

  /** The whole handling of one event at time `now`. */
  function Process(windows: map<Id, seq<int>>, conversations: map<Id, seq<Entry>>,
                   bot: BotInfo, ev: Event, now: int, answers: Answers): Step
  {
    match Gate(ev, bot)
    case None => Step(Outcome([], []), windows, conversations)
    case Some(a) =>
      if Trim(a.text) == [] then Step(Outcome([], [TextReply(ev.replyToken, BLANK_REPLY)]), windows, conversations)
      else if !Admits(Stored(windows, a.sender), now) then
        Step(Outcome([], [TextReply(ev.replyToken, RATE_DENIED)]), windows, conversations)
      else
        var (out, conv) := Dispatch(conversations, ev, a, answers);
        Step(out, AfterCheck(windows, a.sender, now), conv)
  }

  /** `handleEvent` over the shared rate limiter and conversation store. */
  method HandleEvent(limiter: RateLimiter, store: ConversationStore, bot: BotInfo, ev: Event, now: int,
                     answers: Answers)
    returns (out: Outcome)
    requires limiter.Valid() && store.Valid() && store.cap == MAX_HISTORY
    modifies limiter, store
    ensures limiter.Valid() && store.Valid()
    ensures Step(out, limiter.windows, store.conversations)
            == Process(old(limiter.windows), old(store.conversations), bot, ev, now, answers)
  {
    var gate := Gate(ev, bot);
    if gate.None? {
      return Outcome([], []);
    }
    var a := gate.value;
    var token := ev.replyToken;
    if Trim(a.text) == [] {
      return Outcome([], [TextReply(token, BLANK_REPLY)]);
    }
    var admitted := limiter.Check(a.sender, now);
    if !admitted {
      return Outcome([], [TextReply(token, RATE_DENIED)]);
    }
    var route := RouteOf(a.text);
    match route {
      case ResetRoute =>
        store.Reset(a.room);
        out := Outcome([], [TextReply(token, RESET_DONE)]);
      case HelpRoute =>
        out := HelpOutcome(token, a.text);
      case ImageRoute =>
        out := ImageOutcome(token, a.text, answers.image);
      case GoogleRoute =>
        out := HandleGoogleCommand(token, a.text, answers.search);
      case TtsRoute =>
        out := HandleTtsCommand(token, ev.source, a.text, answers.speech);
      case ChatRoute =>
        out := HandleGroqChat(store, token, a.room, a.sender, a.text, answers.profile, answers.chat);
    }
  }

  // -----------------------------------------------------------------------
  // Who is answered

  /** Events other than text messages change nothing and send nothing. */
  lemma NonTextIgnored(windows: map<Id, seq<int>>, conversations: map<Id, seq<Entry>>,
                       bot: BotInfo, ev: Event, now: int, answers: Answers)
    requires !IsTextMessage(ev)
    ensures Process(windows, conversations, bot, ev, now, answers) == Step(Outcome([], []), windows, conversations)
  {
  }

  /** A text message from a source that is neither a one-to-one chat, a group
      nor a room is ignored: nothing is sent and no state changes. */
  lemma OtherSourceIgnored(windows: map<Id, seq<int>>, conversations: map<Id, seq<Entry>>,
                           bot: BotInfo, ev: Event, now: int, answers: Answers)
    requires ev.source.kind == FromOther
    ensures Gate(ev, bot).None?
    ensures Process(windows, conversations, bot, ev, now, answers) == Step(Outcome([], []), windows, conversations)
  {
  }

  /** Every handler's first send answers the event's reply token. */
  lemma DispatchAnswersFirst(conversations: map<Id, seq<Entry>>, ev: Event, a: Addressed, answers: Answers)
    ensures var out := Dispatch(conversations, ev, a, answers).0;
            |out.actions| > 0 && out.actions[0].ReplyTo? && out.actions[0].replyToken == ev.replyToken
  {
    match RouteOf(a.text)
    case GoogleRoute => SearchCallsAndReplies(ev.replyToken, a.text, answers.search);
    case TtsRoute =>
      if ParseTts(a.text).text != [] { TtsSends(ev.replyToken, ev.source, a.text, answers.speech); }
    case _ =>
  }

  /** An event that passes the gate is answered, first on its reply token. */
  lemma AddressedIsAnswered(windows: map<Id, seq<int>>, conversations: map<Id, seq<Entry>>,
                            bot: BotInfo, ev: Event, now: int, answers: Answers)
    requires Gate(ev, bot).Some?
    ensures var out := Process(windows, conversations, bot, ev, now, answers).out;
            |out.actions| > 0 && out.actions[0].ReplyTo? && out.actions[0].replyToken == ev.replyToken
  {
    var a := Gate(ev, bot).value;
    if Trim(a.text) != [] && Admits(Stored(windows, a.sender), now) {
      DispatchAnswersFirst(conversations, ev, a, answers);
      assert Process(windows, conversations, bot, ev, now, answers).out == Dispatch(conversations, ev, a, answers).0;
    }
  }

  /** A text message in a one-to-one chat is always answered, first on its
      reply token, as typed and with the sender as the room. */
  lemma DirectMessagesAnswered(windows: map<Id, seq<int>>, conversations: map<Id, seq<Entry>>,
                               bot: BotInfo, ev: Event, now: int, answers: Answers)
    requires IsTextMessage(ev) && ev.source.kind == FromUser
    ensures Gate(ev, bot) == Some(Addressed(ev.source.userId, ev.source.userId, ev.kind.message.text))
    ensures var out := Process(windows, conversations, bot, ev, now, answers).out;
            |out.actions| > 0 && out.actions[0].ReplyTo? && out.actions[0].replyToken == ev.replyToken
  {
    AddressedIsAnswered(windows, conversations, bot, ev, now, answers);
  }

  /** The bot is addressed in a group or room by an id mention or by its tag
      in the text. */
  ghost predicate AddressedInGroup(ev: Event, bot: BotInfo)
    requires IsTextMessage(ev)
  {
    MentionedById(ev.kind.message.mentionees, bot.userId) || MentionedByName(ev.kind.message.text, bot.displayName)
  }

  /** A text message in a group or room is answered exactly when it
      addresses the bot; when it does not, nothing changes. */
  lemma GroupMessagesNeedMention(windows: map<Id, seq<int>>, conversations: map<Id, seq<Entry>>,
                                 bot: BotInfo, ev: Event, now: int, answers: Answers)
    requires IsTextMessage(ev) && (ev.source.kind == FromGroup || ev.source.kind == FromRoom)
    ensures var s := Process(windows, conversations, bot, ev, now, answers);
            (s.out.actions != [] <==> AddressedInGroup(ev, bot))
            && (!AddressedInGroup(ev, bot) ==> s == Step(Outcome([], []), windows, conversations))
  {
    if AddressedInGroup(ev, bot) {
      assert Gate(ev, bot).Some?;
      AddressedIsAnswered(windows, conversations, bot, ev, now, answers);
    } else {
      assert Gate(ev, bot).None?;
    }
  }

  /** In a group the room is the group, else the room id, the sender is the
      event's user, and the text has the bot's tag cut out and is trimmed. */
  lemma GroupAddressing(ev: Event, bot: BotInfo)
    requires IsTextMessage(ev) && (ev.source.kind == FromGroup || ev.source.kind == FromRoom)
    requires AddressedInGroup(ev, bot)
    ensures Gate(ev, bot) == Some(Addressed(Or(ev.source.groupId, ev.source.roomId), ev.source.userId,
                                            Trim(RemoveTag(ev.kind.message.text, MentionTag(bot.displayName)))))
  {
  }

  /** A message that starts with the bot's tag and a space is processed as
      the rest of the message, trimmed. */
  lemma LeadingTagIsCut(text: string, name: Id, rest: string)
    requires text == MentionTag(name) + " " + rest
    ensures MentionedByName(text, name)
    ensures Trim(RemoveTag(text, MentionTag(name))) == Trim(rest)
  {
    var tag := MentionTag(name);
    LowerOfThree(tag, " ", rest);
    assert Lower(text)[..|tag|] == Lower(tag);
    assert OccursAt(Lower(text), Lower(tag), 0);
    assert IndexOf(Lower(text), Lower(tag)) == Some(0);
    assert RemoveTag(text, tag) == " " + rest by {
      assert text[..0] + text[|tag|..] == " " + rest;
    }
    TrimLeadingSpace(rest);
  }

  lemma TrimLeadingSpace(rest: string)
    ensures Trim(" " + rest) == Trim(rest)
  {
    assert (" " + rest)[1..] == rest;
    assert TrimStart(" " + rest) == TrimStart(rest);
  }

  /** When the bot's name could not be fetched, the literal text "@null" in
      any letter case counts as addressing it. */
  lemma UnknownNameMatchesNull(ev: Event, bot: BotInfo, before: string, mid: string, after: string)
    requires IsTextMessage(ev) && (ev.source.kind == FromGroup || ev.source.kind == FromRoom)
    requires bot.displayName.None? && |mid| == 5 && Lower(mid) == "@null"
    requires ev.kind.message.text == before + mid + after
    ensures Gate(ev, bot).Some?
  {
    var text := ev.kind.message.text;
    var tag := MentionTag(bot.displayName);
    assert tag == "@null";
    assert Lower(tag) == "@null";
    LowerOfThree(before, mid, after);
    assert Lower(text)[|before|..|before| + |tag|] == Lower(mid);
    assert OccursAt(Lower(text), Lower(tag), |before|);
    ContainsIff(Lower(text), Lower(tag));
  }

  /** Without a fetched id, the id mentions never address the bot. */
  lemma UnknownIdNeverMentioned(mentionees: seq<Mentionee>)
    ensures !MentionedById(mentionees, None)
  {
  }

  // -----------------------------------------------------------------------
  // Budget and state

  /** A blank message gets the fixed reply and uses none of the sender's
      rate budget. */
  lemma BlankUsesNoBudget(windows: map<Id, seq<int>>, conversations: map<Id, seq<Entry>>,
                          bot: BotInfo, ev: Event, now: int, answers: Answers)
    requires Gate(ev, bot).Some? && Trim(Gate(ev, bot).value.text) == []
    ensures Process(windows, conversations, bot, ev, now, answers)
            == Step(Outcome([], [TextReply(ev.replyToken, BLANK_REPLY)]), windows, conversations)
  {
  }

  /** A non-blank addressed message is refused, changing nothing, when the
      sender's window is full; otherwise the sender's admission is recorded
      and the message dispatched. */
  lemma AdmissionDecides(windows: map<Id, seq<int>>, conversations: map<Id, seq<Entry>>,
                         bot: BotInfo, ev: Event, now: int, answers: Answers)
    requires Gate(ev, bot).Some? && Trim(Gate(ev, bot).value.text) != []
    ensures var s := Process(windows, conversations, bot, ev, now, answers);
            var a := Gate(ev, bot).value;
            (!Admits(Stored(windows, a.sender), now) ==>
               s == Step(Outcome([], [TextReply(ev.replyToken, RATE_DENIED)]), windows, conversations))
            && (Admits(Stored(windows, a.sender), now) ==>
                  s.windows == windows[a.sender := Recent(Stored(windows, a.sender), now) + [now]]
                  && (s.out, s.conversations) == Dispatch(conversations, ev, a, answers))
  {
  }

  /** The rate budget is the sender's, not the room's: only the sender's
      entry of the limiter can change. */
  lemma OnlySenderWindowChanges(windows: map<Id, seq<int>>, conversations: map<Id, seq<Entry>>,
                                bot: BotInfo, ev: Event, now: int, answers: Answers)
    ensures var s := Process(windows, conversations, bot, ev, now, answers);
            (Gate(ev, bot).None? ==> s.windows == windows)
            && (Gate(ev, bot).Some? ==>
                  s.windows.Keys <= windows.Keys + {Gate(ev, bot).value.sender}
                  && forall u :: u in windows && u != Gate(ev, bot).value.sender ==> s.windows[u] == windows[u])
  {
    if Gate(ev, bot).Some? {
      CheckFrame(windows, Gate(ev, bot).value.sender, now);
    }
  }

  /** Only the chat and the reset touch the store, and only the room's
      history: the chat sets it to the turn's result, the reset deletes it. */
  lemma OnlyRoomHistoryChanges(conversations: map<Id, seq<Entry>>, ev: Event, a: Addressed, answers: Answers)
    ensures var c := Dispatch(conversations, ev, a, answers).1;
            (RouteOf(a.text) == ResetRoute ==> c == conversations - {a.room})
            && (RouteOf(a.text) == ChatRoute ==>
                  c == conversations[a.room := Exchange(History(conversations, a.room),
                                                        UserContent(a.room, a.sender, a.text, answers.profile),
                                                        answers.chat, MAX_HISTORY)])
            && (RouteOf(a.text) != ResetRoute && RouteOf(a.text) != ChatRoute ==> c == conversations)
  {
  }

  /** Every stored history is at most MAX_HISTORY + 1 entries long. */
  ghost predicate HistoriesBounded(conversations: map<Id, seq<Entry>>) {
    forall k :: k in conversations ==> |conversations[k]| <= MAX_HISTORY + 1
  }

  /** Dispatching keeps the histories within MAX_HISTORY + 1 entries. */
  lemma DispatchKeepsBound(conversations: map<Id, seq<Entry>>, ev: Event, a: Addressed, answers: Answers)
    requires HistoriesBounded(conversations)
    ensures HistoriesBounded(Dispatch(conversations, ev, a, answers).1)
  {
    OnlyRoomHistoryChanges(conversations, ev, a, answers);
    if RouteOf(a.text) == ChatRoute {
      ChatTurnBound(History(conversations, a.room), UserContent(a.room, a.sender, a.text, answers.profile),
                    answers.chat, MAX_HISTORY);
    }
  }

  /** All histories stay within MAX_HISTORY + 1 entries, and all rate
      windows within MAX_REQUESTS times. */
  lemma ProcessKeepsBounds(windows: map<Id, seq<int>>, conversations: map<Id, seq<Entry>>,
                           bot: BotInfo, ev: Event, now: int, answers: Answers)
    requires WithinCap(windows) && HistoriesBounded(conversations)
    ensures var s := Process(windows, conversations, bot, ev, now, answers);
            WithinCap(s.windows) && HistoriesBounded(s.conversations)
  {
    if Gate(ev, bot).Some? {
      var a := Gate(ev, bot).value;
      if Trim(a.text) != [] && Admits(Stored(windows, a.sender), now) {
        CheckKeepsCap(windows, a.sender, now);
        DispatchKeepsBound(conversations, ev, a, answers);
        assert Process(windows, conversations, bot, ev, now, answers)
               == Step(Dispatch(conversations, ev, a, answers).0, AfterCheck(windows, a.sender, now),
                       Dispatch(conversations, ev, a, answers).1);
      }
    }
  }

  // -----------------------------------------------------------------------
  // Routing facts

  /** Routing ignores letter case. */
  lemma RouteIgnoresCase(text: string)
    ensures RouteOf(Lower(text)) == RouteOf(text)
  {
    LowerIdempotent(text);
  }

  /** `/image` with nothing after it is not the image command: it goes to
      the chat, as do `/google` and `/tts` alone. */
  lemma BareCommandsChat(c: string)
    requires c == "/image" || c == "/google" || c == "/tts"
    ensures RouteOf(c) == ChatRoute
  {
    var l := Lower(c);
    forall k | 0 <= k < |c| ensures l[k] == c[k] { }
    assert l == c;
    assert l != "/reset";
    assert !StartsWith(l, "/help") by { assert |l| < 5 || l[1] != 'h'; }
    assert !StartsWith(l, "/image ") by { assert |l| < 7 || l[1] != 'i'; }
    assert !StartsWith(l, "/google ");
    assert !StartsWith(l, "/tts ") by { assert |l| < 5 || l[1] != 't'; }
  }

  /** `/reset` must be the whole message: with anything after it, even a
      space, the message goes to the chat. */
  lemma ResetIsExact(rest: string)
    requires rest != []
    ensures RouteOf("/reset" + rest) != ResetRoute
  {
    assert |Lower("/reset" + rest)| > |"/reset"|;
  }

  /** Every `/help...` message goes to the help command, `/helpme` too. */
  lemma HelpPrefixRoutes(rest: string)
    ensures RouteOf("/help" + rest) == HelpRoute
  {
    var l := Lower("/help" + rest);
    LowerAppend("/help", rest);
    assert Lower("/help") == "/help";
    assert l[..5] == "/help";
    assert l != "/reset" by { assert l[1] == 'h'; }
  }

  /** The reset in a group clears the group's history, shared by all of its
      members, whoever sent it. */
  lemma GroupResetIsShared(windows: map<Id, seq<int>>, conversations: map<Id, seq<Entry>>,
                           bot: BotInfo, ev: Event, now: int, answers: Answers)
    requires Gate(ev, bot).Some? && Trim(Gate(ev, bot).value.text) != []
    requires Admits(Stored(windows, Gate(ev, bot).value.sender), now)
    requires RouteOf(Gate(ev, bot).value.text) == ResetRoute
    ensures Process(windows, conversations, bot, ev, now, answers).conversations
            == conversations - {Gate(ev, bot).value.room}
    ensures ev.source.kind != FromUser ==> Gate(ev, bot).value.room == Or(ev.source.groupId, ev.source.roomId)
  {
  }
}
