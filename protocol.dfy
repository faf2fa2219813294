/** What the bot exchanges with the messaging platform and with the services
    it calls: the messages it sends, where it sends them, the conversation
    entries it keeps, the calls it makes and the errors those calls raise. */
module Protocol {
  import opened Wrappers
  import opened JsString

  /** An entry of `message.mention.mentionees`. */
  datatype Mentionee = Mentionee(userId: Id)

  /** `event.message`: a text message (its mentionees, empty when the event
      carries no `mention`), or a message of another type. */
  datatype MessageContent =
    | TextContent(text: string, mentionees: seq<Mentionee>)
    | OtherContent

  /** `event.type`: a message event, or any other kind of event. */
  datatype EventKind = MessageEvent(message: MessageContent) | OtherEvent

  datatype SourceKind = FromUser | FromGroup | FromRoom | FromOther

  /** `event.source`: its `type` and the ids it may carry. */
  datatype Source = Source(kind: SourceKind, userId: Id, groupId: Id, roomId: Id)

  /** One webhook event. */
  datatype Event = Event(kind: EventKind, source: Source, replyToken: string)

  /** `event.type === 'message' && event.message.type === 'text'`. */
  predicate IsTextMessage(ev: Event) {
    ev.kind.MessageEvent? && ev.kind.message.TextContent?
  }

  /** A message object handed to `replyMessage` or `pushMessage`. */
  datatype Message =
    | Text(text: string)
    | Image(originalContentUrl: string, previewImageUrl: string)
    | Audio(originalContentUrl: string)

  /** One send: answering a reply token, or pushing to a user, group or room. */
  datatype Action =
    | ReplyTo(replyToken: string, messages: seq<Message>)
    | PushTo(to: Id, messages: seq<Message>)

  datatype Role = UserRole | AssistantRole

  /** One `{role, content}` entry of a conversation history. */
  datatype Entry = Entry(role: Role, content: string)

  /** A call to a collaborator: profile lookup, chat completion (a system
      instruction and the history), image generation, web search, speech
      synthesis with upload. */
  datatype Call =
    | ProfileLookup(userId: Id)
    | ChatCompletion(system: string, history: seq<Entry>)
    | ImageGeneration(prompt: string)
    | WebSearch(query: string, count: nat)
    | SpeechSynthesis(text: string, voice: string, language: Option<string>)

  /** What a handler did: the calls it made, in order, and what it sent. */
  datatype Outcome = Outcome(calls: seq<Call>, actions: seq<Action>)

  /** The parts of a thrown error the handlers look at: `error.message`,
      `error.code`, and `error.response?.status`. */
  datatype ErrorInfo = ErrorInfo(message: string, code: Option<string>, status: Option<int>)

  /** One search hit as the search service returns it. */
  datatype SearchItem = SearchItem(title: string, link: string, snippet: string)

  /** A reply of one text message. */
  function TextReply(token: string, text: string): Action {
    ReplyTo(token, [Text(text)])
  }
}
