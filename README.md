# LINE chat bot: event pipeline, session state and command parsers

This project models the part of the LINE chat bot that decides what to do
with one webhook event, together with the state that decision reads and
writes. It also proves properties of that model.

- **Gating.** Only text messages are handled. A one-to-one chat is always
  answered. A group or room message is answered only when the bot is
  mentioned. It counts as mentioned when a mentionee's id is the bot's id,
  or when the text contains `@<display name>` in any letter case. The
  mention is then cut out of the text and the rest trimmed.
- **Processing order.** For every addressed message:
  1. A blank text gets a fixed nudge, before the rate limit.
  2. Otherwise the sender's sliding-window rate limit is checked.
  3. Then the text is routed, on its lower-case form, to the first match of:
     exact `/reset`; the prefixes `/help`, `/image `, `/google ` and `/tts `;
     and finally the chat path.
- **State.** Two maps are updated in place:
  - the rate limiter's admission times per sender;
  - the conversation store's history per room.

  A chat turn pushes the user's entry, drops the two oldest entries once if
  the history is then over the cap, and on success pushes the assistant's
  reply.
- **Commands.** Each command handler is modelled:
  - `/google` parses `-n <digits>`, clamps the count and formats the results;
  - `/tts` parses `-v` and `-l` and picks the target of the audio or error push;
  - `/image` extracts the prompt;
  - `/help` looks up the topic.
- **Errors.** Each handler maps an error to text by an ordered chain of tests.
- **Legacy bot.** The earlier single-file bot in `index.js` is modelled as a
  second instance. Its histories are keyed by sender and capped at ten. It
  also has a `test-reply-token` branch that returns the result as a value
  instead of sending it.

The outside world enters only as values:
- `now` stands for the clock;
- the bot's id and display name form a `BotInfo` record;
- every service answer (profile lookup, chat completion, image, search,
  speech) is an `Answers` record of results or errors.

An operation's effect is an `Outcome`: the list of service calls it makes and
the list of reply or push actions, so "no call is made" can be stated.
JavaScript's `undefined`/`null` ids are `None`. `a || b` on ids follows
JavaScript truthiness, where the empty string is false.

Modules, one file each:
- `wrappers`, `constants`, `protocol`: event and message types, calls, actions.
- `js_string`: `trim`, ASCII `toLowerCase`, `indexOf`/`includes`,
  `substring`, decimal digits.
- `flag_pattern`: the regexes `flag\s+(class+)` as a greedy matcher. It is
  linked to a declarative "leftmost, then longest" reference.
- `error_rules`: the ordered first-match error table.
- `rate_limit`: the class `RateLimiter`.
- `chat_handler`: the class `ConversationStore` and the chat path.
- `search_handler`, `tts_handler`, `help_handler`, `image_handler`.
- `event_handler`: gating, routing, the pure `Process` and the imperative
  `HandleEvent` over both classes.
- `legacy_bot`.

`HandleEvent`, `RateLimiter.Check`, the `ConversationStore` methods,
`HandleGroqChat`, `BuildResultsText`, `HandleGoogleCommand`,
`HandleTtsCommand` and `LegacyHandleEvent` are methods. Each is proved equal
to a pure function of the old state, and the properties are proved as lemmas
about those functions. `HandleTtsCommand` follows the handler's reassignment
of its locals `voice`, `language` and `text` one statement at a time, and is
proved equal to `TtsOutcome`.

Three behaviours of the code are easy to misread:
- **History length.** A stored history can hold `MAX_HISTORY + 1` entries.
  After the user's entry is pushed, the code removes two entries once, and
  only when the history is over the cap (`src/handlers/chatHandler.js:31-33`).
  The assistant's reply is pushed after that. So the history sent holds at
  most 20 entries but the stored one can hold 21 (`ChatTurnBound`,
  `ChatTurnBoundIsTight`). In the legacy bot the figures are 10 and 11.
- **Failed bot-info fetch.** When the bot's info could not be fetched, the
  name pattern is built from a `null` name. So the text `@null`, in any
  letter case, addresses the bot (`UnknownNameMatchesNull`). Mention by id
  never matches then (`UnknownIdNeverMentioned`).
- **The `-l` option of `/tts`.** The code matches `-l` on the arguments as
  typed, but cuts it from the text left after `-v` was cut. So
  `/tts -v -l x hello` speaks "x hello" with voice "-l" and language "x"
  (`VoiceSwallowsLanguageFlag`, `OverlappingOptions`).

## Model

| member | source | states |
|---|---|---|
| RateLimit.RateLimiter.constructor | src/middleware/rateLimit.js:3 | The limiter starts with no stored times. |
| RateLimit.RateLimiter.Check | src/middleware/rateLimit.js:5-29 | The request is admitted iff fewer than MAX_REQUESTS stored times are strictly inside the window. On admission the sender's list becomes the kept times followed by `now`. On denial nothing changes. The cap on every list is kept. |
| RateLimit.RecentIsFilter | src/middleware/rateLimit.js:16 | The window filter keeps order, distributes over concatenation, and keeps exactly the times in the list that are greater than `now - TIME_WINDOW`. |
| RateLimit.WindowIsStrict | src/middleware/rateLimit.js:7-16 | A time exactly TIME_WINDOW old is dropped, and one a millisecond younger is kept. |
| RateLimit.FirstCheckAdmits | src/middleware/rateLimit.js:9-26 | An unseen sender is admitted and its list becomes `[now]`. |
| RateLimit.CheckFrame | src/middleware/rateLimit.js:9-26 | A check adds at most the sender's key and leaves every other sender's list unchanged. |
| RateLimit.CheckKeepsCap | src/middleware/rateLimit.js:19-26 | If every list holds at most MAX_REQUESTS times before a check, that still holds after it. |
| RateLimit.AdmittedAgainAfterWindow | src/middleware/rateLimit.js:16-19 | A sender at the cap is admitted again once one of its stored times has left the window. |
| RateLimit.ReplayCounts | src/middleware/rateLimit.js:16-26 | Over checks all inside one window, the stored times from the window's start grow by exactly the number admitted, and the list stays within the cap. |
| RateLimit.AtMostMaxPerWindow | src/middleware/rateLimit.js:5-29 | Over any run of checks of one sender inside one window, at most MAX_REQUESTS are admitted. |
| RateLimit.ReplayStepIsCheck | src/middleware/rateLimit.js:13-26 | A replay whose first time is `now` admits it exactly when the limiter's check admits it. The rest of the run starts from the list the check stores for the sender. |
| ChatHandler.ConversationStore.constructor | src/handlers/chatHandler.js:4 | The store starts with no histories. |
| ChatHandler.ConversationStore.PushUserTurn | src/handlers/chatHandler.js:9-33 | Creates the room's history if missing, pushes the user's entry, drops the first two entries once if the history is over the cap, and returns the history sent, which has at most `cap` entries. No other room changes. |
| ChatHandler.ConversationStore.PushAssistantTurn | src/handlers/chatHandler.js:37 | Appends `{assistant, reply}` to the room's history. No other room changes. |
| ChatHandler.ConversationStore.Reset | src/handlers/chatHandler.js:70-73 | Deletes the room's key only. |
| ChatHandler.HandleGroqChat | src/handlers/chatHandler.js:6-68 | The new store and the outcome are those of one chat turn. The user entry is attributed in groups. On success the reply is appended and sent. On failure the user entry stays and the classified error text is sent. |
| ChatHandler.UserContentAttribution | src/handlers/chatHandler.js:15-28 | The user's entry ends with the message. It is the message unchanged exactly when the room is the sender. |
| ChatHandler.UserTurnTrimsOnce | src/handlers/chatHandler.js:17-33 | The history sent ends with the user's entry and is a suffix of the pushed history. Exactly two entries are dropped if the pushed history is over the cap, else none. |
| ChatHandler.ChatTurnBound | src/handlers/chatHandler.js:30-37 | From a history of at most cap+1 entries, at most `cap` are sent and at most cap+1 are stored after the turn. |
| ChatHandler.ChatTurnBoundIsTight | src/handlers/chatHandler.js:30-37 | A history of cap-1 entries holds cap+1 after a successful turn. |
| ChatHandler.ChatTurnReply | src/handlers/chatHandler.js:36-44 | After a success the history is the history sent plus the assistant's reply. After a failure it is the history sent, ending with the user's entry. |
| ChatHandler.SuccessfulTurnsStayPaired | src/handlers/chatHandler.js:17-37 | With an even cap, a history of alternating user/assistant pairs stays so after a successful turn, and stays within the cap. |
| ChatHandler.HelloExample | src/handlers/chatHandler.js:9-37 | In a new one-to-one chat, "hello" is sent alone and stored followed by the reply. |
| ChatHandler.ChatErrorChain | src/handlers/chatHandler.js:51-61 | The error text follows the chain in order: API key text, timeout code, status 429, status 500 or 503, else the generic text. |
| ErrorRules.FirstApplicable | src/handlers/chatHandler.js:53-61 | Finds the first rule, from a position on, one of whose tests holds. None is found only when no rule applies. |
| ErrorRules.Classify | src/handlers/searchHandler.js:51-57 | The text of the first applicable rule, or the fallback when none applies. |
| FlagPattern.SpaceRun | src/handlers/ttsHandler.js:12 | The length of the maximal run of `\s` characters from a position. |
| FlagPattern.ClassRun | src/handlers/ttsHandler.js:12 | The length of the maximal run of `\S` (or `\d`) characters from a position. |
| FlagPattern.MatchAtSound | src/handlers/ttsHandler.js:12 | A greedy match at a position is a word of `flag\s+class+` there, with its white space and group where the span says. |
| FlagPattern.MatchAtComplete | src/handlers/ttsHandler.js:12 | Every word of the pattern starting at a position is covered by the greedy match there. |
| FlagPattern.FirstMatchFromSpec | src/handlers/ttsHandler.js:12-19 | The search from a position returns the greedy match at the first matching position, or none when no position matches. |
| FlagPattern.FirstMatchIsLeftmostLongest | src/handlers/searchHandler.js:10 | `match` returns the leftmost word of the pattern, longest at that position. It returns nothing exactly when no slice of the text is a word of the pattern. |
| FlagPattern.FoundIsFirst | src/handlers/ttsHandler.js:12 | A greedy match with no match at any earlier position is the leftmost-longest one. |
| FlagPattern.NoneIsNoMatch | src/handlers/ttsHandler.js:12 | With no greedy match anywhere, no slice of the text is a word of the pattern. |
| FlagPattern.FirstMatchInRange | src/handlers/ttsHandler.js:12 | A match found lies within the text, with the flag, white space and group in that order. |
| FlagPattern.RemoveFirstMatch | src/handlers/ttsHandler.js:15-22 | `replace` cuts out exactly the first match, or leaves the text when there is none. |
| FlagPattern.Captured | src/handlers/ttsHandler.js:14-21 | The captured group is the non-empty class run that ends the match. |
| JsString.Trim | src/handlers/eventHandler.js:48 | `trim` leaves no white space at either end and never lengthens. |
| JsString.TrimSlices | src/handlers/eventHandler.js:48 | `trim` keeps one slice of the text, and what it drops on either side is white space. |
| JsString.TrimAround | src/handlers/eventHandler.js:48 | A trimmed word surrounded by white space trims to itself. |
| JsString.TrimOfTrimmed | src/handlers/searchHandler.js:5 | A text with no white space at its ends is its own trim. |
| JsString.TrimIdempotent | src/handlers/searchHandler.js:15 | Trimming twice is trimming once. |
| JsString.TrimKeepsPrefix | src/handlers/searchHandler.js:36 | A text starting with a non-space keeps its start under `trim`, up to its last non-space. |
| JsString.Lower | src/handlers/eventHandler.js:80 | `toLowerCase` keeps the length and lowers each ASCII letter. |
| JsString.LowerAppend | src/handlers/eventHandler.js:41 | Lower-casing distributes over concatenation. |
| JsString.LowerIdempotent | src/handlers/eventHandler.js:80-104 | Lower-casing twice is lower-casing once. |
| JsString.LowerKeepsSpace | src/handlers/helpHandler.js:2 | Lower-casing neither creates nor removes white space. |
| JsString.TrimLower | src/handlers/helpHandler.js:2 | Trimming and lower-casing commute. |
| JsString.IndexOfFrom | src/handlers/eventHandler.js:48 | The first occurrence from a position, or none when there is no later occurrence. |
| JsString.ContainsIff | src/handlers/eventHandler.js:41 | `includes` holds exactly when the pattern occurs somewhere. |
| JsString.Substring | src/handlers/searchHandler.js:5 | `substring(n)` is the rest after the first `n` characters, or empty for a shorter text. |
| JsString.ShowNatRoundTrip | src/handlers/searchHandler.js:12-31 | Reading back the decimal text of a number gives the number. |
| JsString.Or | src/handlers/eventHandler.js:29 | `a \|\| b` is `a` when `a` is truthy, else `b`. |
| SearchHandler.Clamp | src/handlers/searchHandler.js:13 | The count lies in [1, 10], and equals its input exactly when the input already lies there. |
| SearchHandler.CountDigits | src/handlers/searchHandler.js:12 | The captured group of `-n\s+(\d+)` is a non-empty run of digits inside the arguments. |
| SearchHandler.ParseSearchBounds | src/handlers/searchHandler.js:5-15 | The count always lies in [1, 10] and the query is trimmed. |
| SearchHandler.ParseSearchWithoutOption | src/handlers/searchHandler.js:5-7 | With no `-n` option, the query is the trimmed arguments and the count is 3. |
| SearchHandler.ParseSearchWithOption | src/handlers/searchHandler.js:10-15 | With an `-n` option, its leftmost-longest occurrence is cut out, the rest is trimmed, and the count is the clamped value of its digits. |
| SearchHandler.ParseSearchOfMatch | src/handlers/searchHandler.js:10-15 | For the first match, the query is the arguments without it, trimmed, and the count the clamped value of its digits. |
| SearchHandler.SearchTextOf | src/handlers/searchHandler.js:5 | The arguments of `/google <rest>` are `rest` when it is already trimmed. |
| SearchHandler.OptionAtStart | src/handlers/searchHandler.js:10 | Arguments `-n <digits><tail>` match at position 0, with the whole digit run as the group. |
| SearchHandler.CountIsClampedValue | src/handlers/searchHandler.js:10-13 | `/google -n <n> news` searches for min(max(n, 1), 10) results, so 15 gives 10 and 0 gives 1. |
| SearchHandler.ClampOfShown | src/handlers/searchHandler.js:12-13 | The count read from a number's decimal text is that number clamped. |
| SearchHandler.OptionMessageCount | src/handlers/searchHandler.js:10-13 | A message whose arguments start with `-n <digits>` searches for the clamped value of those digits. |
| SearchHandler.BuildResultsText | src/handlers/searchHandler.js:28-32 | The loop builds the header plus one numbered block per item, in order. |
| SearchHandler.ResultsTextLayout | src/handlers/searchHandler.js:30-32 | The text for the first k items is a prefix of the whole text, and item k's block, numbered k+1, comes right after it. |
| SearchHandler.ResultsTextStartsWithHeader | src/handlers/searchHandler.js:28 | Every result text starts with the header naming the query. |
| SearchHandler.ReplyKeepsHeader | src/handlers/searchHandler.js:28-37 | Trimming a non-empty result text keeps the whole header and the first block's number. |
| SearchHandler.HandleGoogleCommand | src/handlers/searchHandler.js:4-64 | The handler's outcome is the command's outcome for the search answer. |
| SearchHandler.SearchCallsAndReplies | src/handlers/searchHandler.js:17-37 | Exactly one reply, on the event's token. An empty query makes no call and gets the usage reply. Otherwise exactly one search is made, for the query and the clamped count. |
| SearchHandler.SearchReplyText | src/handlers/searchHandler.js:27-42 | No results gives the fixed "no results" text. Some results give a text that starts with the header. |
| SearchHandler.SearchErrorChain | src/handlers/searchHandler.js:51-57 | The error text follows the chain in order: credentials text, timeout code, else the generic text. |
| TtsHandler.ParseTtsVoice | src/handlers/ttsHandler.js:7-14 | The voice is "henry" when the arguments have no `-v` option. Otherwise it is the group of its leftmost-longest occurrence. |
| TtsHandler.ParseTtsLanguage | src/handlers/ttsHandler.js:8-21 | A language is set exactly when the arguments as typed have an `-l` option, and it is that occurrence's group. |
| TtsHandler.ParseTtsText | src/handlers/ttsHandler.js:6-22 | The text is trimmed, and it is the whole trimmed arguments when neither option occurs. |
| TtsHandler.ParseTtsTextCuts | src/handlers/ttsHandler.js:9-22 | The text is the arguments with their leftmost-longest `-v` occurrence cut and trimmed. Then, if the arguments as typed have an `-l` option, the leftmost-longest `-l` occurrence of that text is cut and the result trimmed. |
| TtsHandler.PlainSpeaks | src/handlers/ttsHandler.js:6-23 | A trimmed text without options is spoken as typed, with voice "henry" and no language. |
| TtsHandler.HelloSpeaks | src/handlers/ttsHandler.js:6-23 | `/tts hello` speaks "hello" with voice "henry" and no language. |
| TtsHandler.VoiceSwallowsLanguageFlag | src/handlers/ttsHandler.js:12-23 | For `/tts -v -l w t` the voice is "-l" and the language is `w`, which is still spoken. |
| TtsHandler.OverlappingOptions | src/handlers/ttsHandler.js:12-23 | `/tts -v -l x hello` speaks "x hello" with voice "-l" and language "x". |
| TtsHandler.NoOptionIn | src/handlers/ttsHandler.js:12-19 | A text without `-` matches no option. |
| TtsHandler.HandleTtsCommand | src/handlers/ttsHandler.js:5-83 | The handler's outcome is the command's outcome for the speech answer. |
| TtsHandler.TtsUsage | src/handlers/ttsHandler.js:25-30 | An empty text makes no call and gets only the usage reply. |
| TtsHandler.TtsSends | src/handlers/ttsHandler.js:32-81 | A non-empty text makes one synthesis call with the parsed text, voice and language, replies with the interim text, then pushes the audio or the classified error text. |
| TtsHandler.TtsTargets | src/handlers/ttsHandler.js:53-77 | The audio goes to `groupId \|\| roomId \|\| userId` and the error text to `userId \|\| groupId \|\| roomId`. |
| TtsHandler.VoiceInfoNames | src/handlers/ttsHandler.js:33 | The interim text names the voice, followed by `, language` exactly when one is set. |
| TtsHandler.TtsErrorChain | src/handlers/ttsHandler.js:63-75 | The error text follows the chain in order: API key text, upload text, timeout code, status 401, status 429, else the generic text. |
| TtsHandler.TtsRuleTests | src/handlers/ttsHandler.js:65-73 | The five rules, in order, test exactly the handler's five conditions. |
| HelpHandler.TopicNames | src/handlers/helpHandler.js:5-92 | Each topic is chosen exactly by its bare or slashed name. Every other argument chooses the general list. |
| HelpHandler.HelpBothSpellings | src/handlers/helpHandler.js:2-5 | `/help <w>` and `/help/<w>` choose the same specific topic for each of image, google, tts and reset. |
| HelpHandler.HelpArgOfWord | src/handlers/helpHandler.js:2 | After `/help `, a trimmed lower-case word is its own argument. |
| HelpHandler.HelpArgOfSlashWord | src/handlers/helpHandler.js:2 | After `/help`, a slashed word keeps its slash. |
| HelpHandler.HelpIgnoresCase | src/handlers/helpHandler.js:2 | The argument does not depend on the letter case of the message. |
| HelpHandler.HelpTextStarts | src/handlers/helpHandler.js:8-106 | Each topic's text starts with that topic's icon. |
| HelpHandler.HelpTextsDiffer | src/handlers/helpHandler.js:5-106 | Different topics give different texts. |
| HelpHandler.HelpReplies | src/handlers/helpHandler.js:1-112 | Help makes no call and sends exactly one text reply, the chosen topic's text. |
| ImageHandler.ImageSends | src/handlers/imageHandler.js:3-41 | The prompt is trimmed. An empty prompt gets only the usage reply. Otherwise one generation call is made, and the reply is the caption then the image (original and preview both the URL), or the one fixed error text. |
| ImageHandler.CaptionQuotes | src/handlers/imageHandler.js:20 | The caption quotes the prompt exactly. |
| ImageHandler.EmptyPromptIsBlank | src/handlers/imageHandler.js:4-6 | The prompt is empty exactly when the message after `/image` is all white space. |
| EventHandler.RemoveTag | src/handlers/eventHandler.js:48 | Cuts the first case-insensitive occurrence of the tag, or leaves the text when there is none. |
| EventHandler.HandleEvent | src/handlers/eventHandler.js:9-110 | The handler's outcome and the new limiter and store are exactly those of the pure pipeline, and both classes' invariants are kept. |
| EventHandler.NonTextIgnored | src/handlers/eventHandler.js:13-15 | A non-text event gets no call, no action and no state change. |
| EventHandler.OtherSourceIgnored | src/handlers/eventHandler.js:58 | An event from a source that is neither a user, a group nor a room is not addressed, and gets no call, no action and no state change. |
| EventHandler.DirectMessagesAnswered | src/handlers/eventHandler.js:17-24 | A direct text is passed on with room and sender both the user's id and the text untouched, and is answered. |
| EventHandler.GroupMessagesNeedMention | src/handlers/eventHandler.js:27-56 | A group or room text is answered iff the bot is mentioned by id or by name. Otherwise nothing happens. |
| EventHandler.GroupAddressing | src/handlers/eventHandler.js:29-50 | A mentioned group text is passed on with room `groupId \|\| roomId`, the sender's id, and the tag cut and trimmed. |
| EventHandler.LeadingTagIsCut | src/handlers/eventHandler.js:41-48 | `@name rest` addresses the bot and is cleaned to the trimmed `rest`. |
| EventHandler.UnknownNameMatchesNull | src/handlers/eventHandler.js:41 | With no display name, a group or room text containing `@null` in any letter case addresses the bot. |
| EventHandler.UnknownIdNeverMentioned | src/handlers/eventHandler.js:34-37 | With no bot id, no mentionee matches. |
| EventHandler.AddressedIsAnswered | src/handlers/eventHandler.js:61-110 | An addressed message is always answered first with a reply on the event's own token. |
| EventHandler.DispatchAnswersFirst | src/handlers/eventHandler.js:80-109 | Each route's first action is a reply on the event's token. |
| EventHandler.BlankUsesNoBudget | src/handlers/eventHandler.js:64-69 | A blank text gets the fixed nudge before the rate check, and nothing else changes. |
| EventHandler.AdmissionDecides | src/handlers/eventHandler.js:71-77 | A denied sender gets only the refusal and nothing changes. An admitted one has its time recorded and the text dispatched. |
| EventHandler.OnlySenderWindowChanges | src/handlers/eventHandler.js:72 | Only the sender's rate window can change. |
| EventHandler.OnlyRoomHistoryChanges | src/handlers/eventHandler.js:80-109 | Reset deletes the room's history, chat replaces it by one chat turn, and every other route leaves the store unchanged. |
| EventHandler.DispatchKeepsBound | src/handlers/eventHandler.js:80-109 | Every route keeps every stored history within MAX_HISTORY+1 entries. |
| EventHandler.ProcessKeepsBounds | src/handlers/eventHandler.js:61-110 | Handling an event keeps both the rate cap and the history bound. |
| EventHandler.RouteIgnoresCase | src/handlers/eventHandler.js:80-104 | Routing does not depend on letter case. |
| EventHandler.BareCommandsChat | src/handlers/eventHandler.js:94-109 | `/image`, `/google` and `/tts` without a trailing space go to chat. |
| EventHandler.ResetIsExact | src/handlers/eventHandler.js:80 | `/reset` followed by anything is not a reset. |
| EventHandler.HelpPrefixRoutes | src/handlers/eventHandler.js:89 | Any text starting with `/help` goes to help. |
| EventHandler.GroupResetIsShared | src/handlers/eventHandler.js:29-81 | A reset deletes the room's history, and in a group that is the group's key, not the sender's. |
| LegacyBot.LegacyHandleEvent | index.js:40-112 | The handler's response and new store are exactly those of the pure legacy step. |
| LegacyBot.LegacyIgnoresNonText | index.js:41-43 | A non-text event gets no response and no state change. |
| LegacyBot.LegacyAnswersEveryText | index.js:45-111 | Every text gets a response. It is sent as a single reply on its token exactly when that token is not the test token. |
| LegacyBot.LegacyReset | index.js:50-58 | An exact `/reset` makes no call, deletes the sender's history only and answers "🔄 Chat cleared!". |
| LegacyBot.LegacyChatCall | index.js:62-83 | Any other text makes one completion call with the legacy instruction and at most ten entries ending with the message. |
| LegacyBot.LegacyChatAnswer | index.js:85-111 | On success the reply is appended and returned. On failure the user entry stays and the apology is sent, or the error's message is returned for the test token. |
| LegacyBot.LegacyKeyedBySender | index.js:45-66 | Only the sender's history can change. |
| LegacyBot.LegacyKeepsBound | index.js:67-86 | Stored histories stay within eleven entries. |

## Left out

- HTTP plumbing is not part of this model: the webhook routes, signature
  middleware, `listen` and static files in `src/server.js` and `index.js`;
  `src/config/storage.js`; `test.js`.
- Concurrency: a batch's events run under `Promise.all` over the shared maps.
  The model handles one event at a time, so read-modify-write races are not
  captured.
- External services (completion, image, search, speech, upload, profile)
  and the LINE client are not part of this model. Their answers are inputs
  and their calls are recorded as values. The URL building inside the
  service files is not modelled.
- The bot-info fetch at start-up is not modelled. The bot's id and display
  name are parameters.
- The display name is assumed to contain no regular-expression
  metacharacters. The code builds the pattern from it unescaped.
- TTS duration estimate: floating point. The audio message carries only its URL.
- `toLowerCase` is modelled on ASCII letters only. Unicode case folding is
  not modelled.
- Logging (`console.log`/`console.error`) is not modelled.
- Failures of `replyMessage`/`pushMessage` themselves (the promise they
  return) are not modelled. Actions are assumed delivered. So is the
  ordering between a handler's awaited reply and its later push.
- Errors that are not `Error` objects (a thrown value without `message`) are
  not modelled. Every error has a message text, an optional code and an
  optional status.
- A profile lookup that succeeds is taken to give a string name. A profile
  without `displayName` is not modelled.
- LegacyBot.LegacyChatCall: requires the sender's history to hold at most
  eleven entries, the bound `LegacyKeepsBound` maintains. The code itself
  accepts any history.
- LegacyBot.LegacyProcess: a chat completion is taken to answer a string or
  to throw. A `null` `choices[0].message.content` is not modelled. The code
  would push that `null` into the history and return or send it.
- ChatHandler.HandleGroqChat: the same holds for the answer of
  `generateChatResponse`. A `null` answer is not modelled.
