/** The `/help` command.  The text after `/help` is trimmed and lower-cased;
    `image`, `google`, `tts` and `reset`, with or without a leading slash,
    select that command's detailed help, and anything else the general list
    of commands.  The reply is one text message and nothing is called. */
module HelpHandler {
  import opened JsString
  import opened Protocol

  datatype HelpTopic = ImageHelp | GoogleHelp | TtsHelp | ResetHelp | GeneralHelp

  /** `userMessage.substring(5).trim().toLowerCase()`. */
  function HelpArg(message: string): string {
    Lower(Trim(Substring(message, 5)))
  }

  /** The topic an argument selects. */
  function TopicOf(arg: string): HelpTopic {
    if arg == "/image" || arg == "image" then ImageHelp
    else if arg == "/google" || arg == "google" then GoogleHelp
    else if arg == "/tts" || arg == "tts" then TtsHelp
    else if arg == "/reset" || arg == "reset" then ResetHelp
    else GeneralHelp
  }

  /** The lines after the heading. */
  function BodyLines(t: HelpTopic): seq<string> {
    match t
    case ImageHelp => [
      "",
      "Usage: /image <prompt>",
      "",
      "Generate AI images from text descriptions.",
      "",
      "Examples:",
      "  /image a beautiful sunset",
      "  /image cyberpunk city at night",
      "  /image cute cat wearing glasses",
      "",
      "Powered by Pollinations.ai"]
    case GoogleHelp => [
      "",
      "Usage: /google [-n <num>] <query>",
      "",
      "Search Google and get results.",
      "",
      "Options:",
      "  -n <num>  Number of results (1-10, default: 3)",
      "",
      "Examples:",
      "  /google latest AI news",
      "  /google -n 5 best restaurants",
      "  /google weather Tokyo"]
    case TtsHelp => [
      "",
      "Usage: /tts [-v <voice>] [-l <lang>] <text>",
      "",
      "Convert text to speech audio.",
      "",
      "Options:",
      "  -v <voice>  Voice name (default: henry)",
      "  -l <lang>   Language code",
      "",
      "Popular voices:",
      "  henry, mrbeast, snoop, morgan",
      "",
      "Languages:",
      "  en (English), zh-CN (Chinese)",
      "  ja-JP (Japanese), ko-KR (Korean)",
      "  es-ES (Spanish), fr-FR (French)",
      "  de-DE (German), pt-BR (Portuguese)",
      "",
      "Examples:",
      "  /tts Hello world",
      "  /tts -v mrbeast Hey everyone!",
      "  /tts -l zh-CN 你好世界",
      "  /tts -v snoop -l en What's up"]
    case ResetHelp => [
      "",
      "Usage: /reset",
      "",
      "Clear the conversation history for AI chat.",
      "Use this to start a fresh conversation."]
    case GeneralHelp => [
      "",
      "/image - Generate AI images",
      "/google - Search Google",
      "/tts - Text to speech",
      "/reset - Clear chat history",
      "/help - Show this message",
      "",
      "ℹ️ For detailed help, use:",
      "/help/image, /help/google, /help/tts",
      "",
      "💡 In groups, mention me to chat!"]
  }

  /** The first line of a topic's text. */
  function Heading(t: HelpTopic): string {
    match t
    case ImageHelp => "🎨 IMAGE GENERATION"
    case GoogleHelp => "🔍 GOOGLE SEARCH"
    case TtsHelp => "🎙️ TEXT TO SPEECH"
    case ResetHelp => "🔄 RESET CONVERSATION"
    case GeneralHelp => "🤖 BOT COMMANDS"
  }

  function HelpLines(t: HelpTopic): seq<string> {
    [Heading(t)] + BodyLines(t)
  }

  /** The help text of a topic, its lines joined by line breaks. */
  function HelpText(t: HelpTopic): string {
    JoinLines(HelpLines(t))
  }

  /** `handleHelpCommand`: one text reply, no calls. */
  function HelpOutcome(token: string, message: string): Outcome {
    Outcome([], [TextReply(token, HelpText(TopicOf(HelpArg(message))))])
  }

  /** The heading icon that starts each topic's text. */
  function Icon(t: HelpTopic): char {
    match t
    case ImageHelp => '🎨'
    case GoogleHelp => '🔍'
    case TtsHelp => '🎙'
    case ResetHelp => '🔄'
    case GeneralHelp => '🤖'
  }

  /** Each topic's text starts with its own icon. */
  lemma HelpTextStarts(t: HelpTopic)
    ensures |HelpText(t)| > 0 && HelpText(t)[0] == Icon(t)
  {
    HelpTextJoins(t);
    HeadingStarts(t);
    JoinLinesHead(Heading(t), BodyLines(t));
  }

  lemma HelpTextJoins(t: HelpTopic)
    ensures HelpText(t) == JoinLines([Heading(t)] + BodyLines(t))
  {
  }

  lemma HeadingStarts(t: HelpTopic)
    ensures |Heading(t)| > 0 && Heading(t)[0] == Icon(t)
  {
  }

  lemma JoinLinesHead(h: string, body: seq<string>)
    requires |h| > 0
    ensures |JoinLines([h] + body)| > 0 && JoinLines([h] + body)[0] == h[0]
  {
    JoinLinesStarts([h] + body);
  }

  /** No two topics share an icon. */
  lemma IconsDiffer(t: HelpTopic, u: HelpTopic)
    requires t != u
    ensures Icon(t) != Icon(u)
  {
  }

  /** So the five texts differ. */
  lemma HelpTextsDiffer(t: HelpTopic, u: HelpTopic)
    requires t != u
    ensures HelpText(t) != HelpText(u)
  {
    HelpTextStarts(t);
    HelpTextStarts(u);
    IconsDiffer(t, u);
  }

  /** The detailed topics are reached by the command's name, with or without
      a slash, by exactly those names, and every other argument gets the
      general list. */
  lemma TopicNames(arg: string)
    ensures TopicOf(arg) == ImageHelp <==> arg in {"/image", "image"}
    ensures TopicOf(arg) == GoogleHelp <==> arg in {"/google", "google"}
    ensures TopicOf(arg) == TtsHelp <==> arg in {"/tts", "tts"}
    ensures TopicOf(arg) == ResetHelp <==> arg in {"/reset", "reset"}
    ensures TopicOf(arg) == GeneralHelp <==>
              arg !in {"/image", "image", "/google", "google", "/tts", "tts", "/reset", "reset"}
  {
  }

  /** `/help <name>` and `/help/<name>` give the same topic. */
  lemma HelpBothSpellings(w: string)
    requires w in {"image", "google", "tts", "reset"}
    ensures TopicOf(HelpArg("/help " + w)) == TopicOf(HelpArg("/help/" + w)) == TopicOf(w) != GeneralHelp
  {
    PlainWord(w);
    HelpArgOfWord(w);
    HelpArgOfSlashWord(w);
    SlashTopic(w);
  }

  lemma SlashTopic(w: string)
    requires w in {"image", "google", "tts", "reset"}
    ensures TopicOf("/" + w) == TopicOf(w) != GeneralHelp
  {
    if w == "image" {
      assert "/" + w == "/image";
    } else if w == "google" {
      assert "/" + w == "/google";
    } else if w == "tts" {
      assert "/" + w == "/tts";
    } else {
      assert "/" + w == "/reset";
    }
  }

  lemma PlainWord(w: string)
    requires w in {"image", "google", "tts", "reset"}
    ensures w != [] && Trimmed(w) && Lower(w) == w && w[0] != '/'
  {
  }

  /** A lower-case word with no white space at its ends is its own
      argument after `/help `. */
  lemma HelpArgOfWord(w: string)
    requires w != [] && Trimmed(w) && Lower(w) == w
    ensures HelpArg("/help " + w) == w
  {
    var p := "/help";
    assert |p| == 5;
    assert "/help " + w == p + (" " + w);
    assert AllSpace(" ");
    TrimAround(" ", w, []);
    assert " " + w + [] == " " + w;
    HelpArgAfter(p, " " + w, w);
  }

  /** Such a word behind a slash keeps the slash. */
  lemma HelpArgOfSlashWord(w: string)
    requires w != [] && Trimmed(w) && Lower(w) == w
    ensures HelpArg("/help/" + w) == "/" + w
  {
    var p := "/help";
    var x := "/" + w;
    assert |p| == 5;
    assert "/help/" + w == p + x;
    assert Trimmed(x) by { assert x[0] == '/' && x[|x| - 1] == w[|w| - 1]; }
    TrimOfTrimmed(x);
    LowerAppend("/", w);
    assert Lower("/") == "/";
    HelpArgAfter(p, x, x);
  }

  /** Past a five-character command, the argument is the rest trimmed and
      lowered. */
  lemma HelpArgAfter(prefix: string, x: string, y: string)
    requires |prefix| == 5 && Trim(x) == y && Lower(y) == y
    ensures HelpArg(prefix + x) == y
  {
    assert (prefix + x)[5..] == x;
  }

  /** The topic does not depend on the letter case of the message. */
  lemma HelpIgnoresCase(message: string)
    ensures HelpArg(Lower(message)) == HelpArg(message)
  {
    var rest := Substring(message, 5);
    if 5 <= |message| {
      LowerSlice(message, 5, |message|);
      assert Substring(Lower(message), 5) == Lower(rest);
    } else {
      assert Substring(Lower(message), 5) == [] == Lower(rest);
    }
    TrimLower(rest);
    LowerIdempotent(Trim(rest));
  }

  /** The reply is one text message and nothing is called. */
  lemma HelpReplies(token: string, message: string)
    ensures var out := HelpOutcome(token, message);
            out.calls == [] && |out.actions| == 1
            && out.actions[0] == ReplyTo(token, [Text(HelpText(TopicOf(HelpArg(message))))])
  {
  }
}
