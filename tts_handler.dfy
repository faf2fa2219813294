/** The `/tts` command.  The text after the command word is trimmed; an
    option `-v <voice>` picks the voice and `-l <lang>` a language, each cut
    out of the text to speak.  Both options are looked for in the trimmed
    text as typed, but the language option is cut from the text left after
    the voice option was cut.  With nothing left to speak the command
    replies with its usage.  Otherwise it replies that speech is being
    generated, synthesises and uploads the audio, and pushes it to the
    group, room or user; when either step fails it pushes an error text to
    the user, group or room instead. */
module TtsHandler {
  import opened Wrappers
  import opened JsString
  import opened Constants
  import opened Protocol
  import opened ErrorRules
  import opened FlagPattern

  const TTS_USAGE: string := "Please provide text to convert to speech. Usage: /tts [-v voice] [-l lang] <text>"
  const TTS_NOT_CONFIGURED: string := "⚙️ Speechify TTS is not configured properly."
  const TTS_UPLOAD_FAILED: string := "☁️ Failed to upload audio. Please check cloud storage configuration."
  const TTS_TIMEOUT: string := "⏱️ TTS generation timed out. Please try again."
  const TTS_INVALID_KEY: string := "🔐 Invalid API key."
  const TTS_RATE_LIMITED: string := "🚦 Rate limit exceeded. Please try again in a moment."
  const TTS_FALLBACK: string := "😅 Failed to generate speech. Please try again later."

  const TTS_ERROR_RULES: seq<Rule> := [
    Rule([MessageHas("API key not configured")], TTS_NOT_CONFIGURED),
    Rule([MessageHas("Cloudinary"), MessageHas("Google Cloud Storage")], TTS_UPLOAD_FAILED),
    Rule([CodeIs("ECONNABORTED"), CodeIs("ETIMEDOUT")], TTS_TIMEOUT),
    Rule([StatusIs(401)], TTS_INVALID_KEY),
    Rule([StatusIs(429)], TTS_RATE_LIMITED)
  ]

  function TtsErrorText(e: ErrorInfo): string {
    Classify(TTS_ERROR_RULES, e, TTS_FALLBACK)
  }

  // -----------------------------------------------------------------------
  // Arguments

  /** The text to speak, the voice and the optional language. */
  datatype TtsArgs = TtsArgs(text: string, voice: string, language: Option<string>)

  /** The text after `/tts `, trimmed. */
  function TtsText(message: string): string {
    Trim(Substring(message, 5))
  }

  /** The voice, and the text with the voice option cut out. */
  function VoiceAndText(args: string): (string, string) {
    match FirstMatch(args, "-v", NonSpace)
    case None => (DEFAULT_VOICE, args)
    case Some(m) => (Captured(args, "-v", NonSpace, m), Trim(RemoveFirstMatch(args, "-v", NonSpace)))
  }

  /** The arguments of a `/tts` message. */
  function ParseTts(message: string): TtsArgs {
    var args := TtsText(message);
    var (voice, text) := VoiceAndText(args);
    match FirstMatch(args, "-l", NonSpace)
    case None => TtsArgs(text, voice, None)
    case Some(m) => TtsArgs(Trim(RemoveFirstMatch(text, "-l", NonSpace)), voice, Some(Captured(args, "-l", NonSpace, m)))
  }

  /** The voice is the default when the typed text has no `-v` option, and
      otherwise the group of its leftmost one, taken greedily. */
  lemma ParseTtsVoice(message: string)
    ensures var args := TtsText(message);
            var v := ParseTts(message).voice;
            (NoMatch(args, "-v", NonSpace) ==> v == DEFAULT_VOICE)
            && (!NoMatch(args, "-v", NonSpace) ==>
                  FirstMatch(args, "-v", NonSpace).Some?
                  && IsFirst(args, "-v", NonSpace, FirstMatch(args, "-v", NonSpace).value)
                  && v == args[FirstMatch(args, "-v", NonSpace).value.group..FirstMatch(args, "-v", NonSpace).value.end]
                  && v != [] && AllInClass(v, NonSpace))
  {
    FirstMatchIsLeftmostLongest(TtsText(message), "-v", NonSpace);
  }

  /** A language is set exactly when the typed text has a `-l` option, and
      it is the group of the leftmost one, even when that option overlaps
      the voice option and so stays in the text to speak. */
  lemma ParseTtsLanguage(message: string)
    ensures var args := TtsText(message);
            var l := ParseTts(message).language;
            (l.None? <==> NoMatch(args, "-l", NonSpace))
            && (l.Some? ==>
                  FirstMatch(args, "-l", NonSpace).Some?
                  && IsFirst(args, "-l", NonSpace, FirstMatch(args, "-l", NonSpace).value)
                  && l.value == args[FirstMatch(args, "-l", NonSpace).value.group..FirstMatch(args, "-l", NonSpace).value.end]
                  && l.value != [] && AllInClass(l.value, NonSpace))
  {
    FirstMatchIsLeftmostLongest(TtsText(message), "-l", NonSpace);
  }

  /** The text to speak is trimmed, and is the whole typed text when it
      carries neither option. */
  lemma ParseTtsText(message: string)
    ensures Trimmed(ParseTts(message).text)
    ensures NoMatch(TtsText(message), "-v", NonSpace) && NoMatch(TtsText(message), "-l", NonSpace) ==>
              ParseTts(message).text == TtsText(message)
  {
    FirstMatchIsLeftmostLongest(TtsText(message), "-v", NonSpace);
    FirstMatchIsLeftmostLongest(TtsText(message), "-l", NonSpace);
  }

  /** The text to speak, step by step: the typed arguments with the leftmost
      `-v` option cut and trimmed; then, when the typed arguments have an `-l`
      option, that text with its own leftmost `-l` option cut and trimmed. */
  lemma ParseTtsTextCuts(message: string)
    ensures var args := TtsText(message);
            var t := VoiceAndText(args).1;
            (NoMatch(args, "-v", NonSpace) ==> t == args)
            && (!NoMatch(args, "-v", NonSpace) ==>
                  FirstMatch(args, "-v", NonSpace).Some?
                  && IsFirst(args, "-v", NonSpace, FirstMatch(args, "-v", NonSpace).value)
                  && t == Trim(args[..FirstMatch(args, "-v", NonSpace).value.start]
                               + args[FirstMatch(args, "-v", NonSpace).value.end..]))
    ensures var args := TtsText(message);
            var t := VoiceAndText(args).1;
            var r := ParseTts(message).text;
            (NoMatch(args, "-l", NonSpace) ==> r == t)
            && (!NoMatch(args, "-l", NonSpace) && NoMatch(t, "-l", NonSpace) ==> r == Trim(t))
            && (!NoMatch(args, "-l", NonSpace) && !NoMatch(t, "-l", NonSpace) ==>
                  FirstMatch(t, "-l", NonSpace).Some?
                  && IsFirst(t, "-l", NonSpace, FirstMatch(t, "-l", NonSpace).value)
                  && r == Trim(t[..FirstMatch(t, "-l", NonSpace).value.start]
                               + t[FirstMatch(t, "-l", NonSpace).value.end..]))
  {
    var args := TtsText(message);
    FirstMatchIsLeftmostLongest(args, "-v", NonSpace);
    FirstMatchIsLeftmostLongest(args, "-l", NonSpace);
    FirstMatchIsLeftmostLongest(VoiceAndText(args).1, "-l", NonSpace);
  }

  // -----------------------------------------------------------------------
  // The handler

  /** The voice, with the language after a comma when there is one. */
  function VoiceInfo(voice: string, language: Option<string>): string {
    match language
    case Some(l) => voice + ", " + l
    case None => voice
  }

  function GeneratingText(a: TtsArgs): string {
    "🎙️ Generating speech (" + VoiceInfo(a.voice, a.language) + ")... Please wait."
  }

  /** What the command does, given the answer of synthesis and upload: the
      audio's URL or the error raised by either step. */
  function TtsOutcome(token: string, source: Source, message: string, answer: Result<string, ErrorInfo>): Outcome {
    var a := ParseTts(message);
    if a.text == [] then Outcome([], [TextReply(token, TTS_USAGE)])
    else
      var push := match answer
        case Ok(url) => PushTo(Or(Or(source.groupId, source.roomId), source.userId), [Audio(url)])
        case Err(e) => PushTo(Or(Or(source.userId, source.groupId), source.roomId), [Text(TtsErrorText(e))]);
      Outcome([SpeechSynthesis(a.text, a.voice, a.language)], [TextReply(token, GeneratingText(a)), push])
  }

  /** `handleTTSCommand`, with the answer of synthesis and upload as `answer`. */
  method HandleTtsCommand(token: string, source: Source, message: string, answer: Result<string, ErrorInfo>)
    returns (out: Outcome)
    ensures out == TtsOutcome(token, source, message, answer)
  {
    var args := TtsText(message);
    var voice := DEFAULT_VOICE;
    var language: Option<string> := None;
    var text := args;
    match FirstMatch(args, "-v", NonSpace) {
      case Some(m) =>
        voice := Captured(args, "-v", NonSpace, m);
        text := Trim(RemoveFirstMatch(text, "-v", NonSpace));
      case None =>
    }
    match FirstMatch(args, "-l", NonSpace) {
      case Some(m) =>
        language := Some(Captured(args, "-l", NonSpace, m));
        text := Trim(RemoveFirstMatch(text, "-l", NonSpace));
      case None =>
    }
    if text == [] {
      return Outcome([], [TextReply(token, TTS_USAGE)]);
    }
    var info := VoiceInfo(voice, language);
    var interim := TextReply(token, "🎙️ Generating speech (" + info + ")... Please wait.");
    var push;
    match answer {
      case Ok(url) =>
        var target := Or(Or(source.groupId, source.roomId), source.userId);
        push := PushTo(target, [Audio(url)]);
      case Err(e) =>
        var target := Or(Or(source.userId, source.groupId), source.roomId);
        push := PushTo(target, [Text(TtsErrorText(e))]);
    }
    out := Outcome([SpeechSynthesis(text, voice, language)], [interim, push]);
  }

  /** With nothing to speak the command only replies with its usage. */
  lemma TtsUsage(token: string, source: Source, message: string, answer: Result<string, ErrorInfo>)
    requires ParseTts(message).text == []
    ensures TtsOutcome(token, source, message, answer) == Outcome([], [TextReply(token, TTS_USAGE)])
  {
  }

  /** Otherwise it makes one synthesis call with the parsed arguments, first
      replies that speech is being generated, and then makes exactly one
      push: the audio alone on success, one error text on failure. */
  lemma TtsSends(token: string, source: Source, message: string, answer: Result<string, ErrorInfo>)
    requires ParseTts(message).text != []
    ensures var out := TtsOutcome(token, source, message, answer);
            var a := ParseTts(message);
            out.calls == [SpeechSynthesis(a.text, a.voice, a.language)]
            && |out.actions| == 2 && out.actions[0] == TextReply(token, GeneratingText(a))
            && out.actions[1].PushTo?
            && out.actions[1].messages
               == (match answer case Ok(url) => [Audio(url)] case Err(e) => [Text(TtsErrorText(e))])
  {
  }

  /** The audio goes to the group, else the room, else the user; an error
      goes to the user, else the group, else the room.  So in a one-to-one
      chat both go to the user, and in a group whose event names the sender
      the audio goes to the group but the error to the sender. */
  lemma TtsTargets(token: string, source: Source, message: string, answer: Result<string, ErrorInfo>)
    requires ParseTts(message).text != []
    ensures var to := TtsOutcome(token, source, message, answer).actions[1].to;
            (answer.Ok? && Truthy(source.groupId) ==> to == source.groupId)
            && (answer.Ok? && !Truthy(source.groupId) && Truthy(source.roomId) ==> to == source.roomId)
            && (answer.Ok? && !Truthy(source.groupId) && !Truthy(source.roomId) ==> to == source.userId)
            && (answer.Err? && Truthy(source.userId) ==> to == source.userId)
            && (answer.Err? && !Truthy(source.userId) && Truthy(source.groupId) ==> to == source.groupId)
            && (answer.Err? && !Truthy(source.userId) && !Truthy(source.groupId) ==> to == source.roomId)
  {
  }

  /** The interim reply names the voice, and the language after a comma
      exactly when one was given. */
  lemma VoiceInfoNames(voice: string, language: Option<string>)
    ensures var info := VoiceInfo(voice, language);
            |voice| <= |info| && info[..|voice|] == voice
            && (language.None? <==> info == voice)
            && (language.Some? ==> info[|voice|..] == ", " + language.value)
  {
    if language.Some? {
      assert VoiceInfo(voice, language) == voice + (", " + language.value);
    }
  }

  /** `/tts hello` speaks "hello" with the default voice and no language. */
  lemma HelloSpeaks()
    ensures ParseTts("/tts hello") == TtsArgs("hello", DEFAULT_VOICE, None)
  {
    assert "/tts " + "hello" == "/tts hello";
    assert PlainText("hello") by {
      var h := "hello";
      assert Trimmed(h) by { assert h[0] == 'h' && h[|h| - 1] == 'o'; }
    }
    PlainSpeaks("hello");
  }

  /** A plain text without options is spoken as typed, with the default
      voice and no language. */
  lemma PlainSpeaks(t: string)
    requires PlainText(t)
    ensures ParseTts("/tts " + t) == TtsArgs(t, DEFAULT_VOICE, None)
  {
    TtsTextOf(t);
    NoOptionIn(t, "-v", NonSpace);
    NoOptionIn(t, "-l", NonSpace);
  }

  /** `/tts <rest>` with `rest` already trimmed has `rest` as its text. */
  lemma TtsTextOf(rest: string)
    requires Trimmed(rest)
    ensures TtsText("/tts " + rest) == rest
  {
    assert Substring("/tts " + rest, 5) == rest;
    TrimOfTrimmed(rest);
  }

  /** A word: non-empty, without white space or `-`. */
  ghost predicate PlainWord(w: string) {
    w != [] && forall q :: 0 <= q < |w| ==> !IsSpace(w[q]) && w[q] != '-'
  }

  /** A trimmed, non-empty text without `-`. */
  ghost predicate PlainText(t: string) {
    t != [] && Trimmed(t) && forall q :: 0 <= q < |t| ==> t[q] != '-'
  }

  /** When the voice option swallows the language flag, as in
      `/tts -v -l w t`, the voice is "-l", the language is still read as `w`
      from the typed text, and `w` stays in the text to speak. */
  lemma VoiceSwallowsLanguageFlag(w: string, t: string)
    requires PlainWord(w) && PlainText(t)
    ensures ParseTts("/tts -v -l " + w + " " + t) == TtsArgs(w + " " + t, "-l", Some(w))
  {
    var rest := w + " " + t;
    var args := "-v -l " + rest;
    MessageShape(w, t);
    PlainRest(w, t);
    OverlapArgs(args, rest);
    OverlapVoice(args, rest);
    OverlapLanguage(args, rest, w, t);
    ParseTtsWhen("/tts " + args, args, "-l", rest, Span(3, 6, 6 + |w|), w);
  }

  lemma MessageShape(w: string, t: string)
    ensures "/tts -v -l " + w + " " + t == "/tts " + ("-v -l " + (w + " " + t))
  {
  }

  /** `w t` is trimmed and matches no option. */
  lemma PlainRest(w: string, t: string)
    requires PlainWord(w) && PlainText(t)
    ensures Trimmed(w + " " + t)
    ensures Trim(RemoveFirstMatch(w + " " + t, "-l", NonSpace)) == w + " " + t
  {
    var rest := w + " " + t;
    assert Trimmed(rest) by { assert rest[0] == w[0] && rest[|rest| - 1] == t[|t| - 1]; }
    forall q | 0 <= q < |rest| ensures rest[q] != '-' {
      if q > |w| { assert rest[q] == t[q - |w| - 1]; }
    }
    NoOptionIn(rest, "-l", NonSpace);
    TrimOfTrimmed(rest);
  }

  /** `ParseTts` from the parts it is built of. */
  lemma ParseTtsWhen(message: string, args: string, voice: string, rest: string, m: Span, language: string)
    requires TtsText(message) == args && VoiceAndText(args) == (voice, rest)
    requires FirstMatch(args, "-l", NonSpace) == Some(m) && Captured(args, "-l", NonSpace, m) == language
    ensures ParseTts(message) == TtsArgs(Trim(RemoveFirstMatch(rest, "-l", NonSpace)), voice, Some(language))
  {
  }

  /** The instance `/tts -v -l x hello`. */
  lemma OverlappingOptions()
    ensures ParseTts("/tts -v -l x hello") == TtsArgs("x hello", "-l", Some("x"))
  {
    assert "/tts -v -l " + "x" + " " + "hello" == "/tts -v -l x hello";
    assert "x" + " " + "hello" == "x hello";
    assert PlainText("hello") by {
      var h := "hello";
      assert Trimmed(h) by { assert h[0] == 'h' && h[|h| - 1] == 'o'; }
    }
    VoiceSwallowsLanguageFlag("x", "hello");
  }

  lemma OverlapArgs(args: string, rest: string)
    requires args == "-v -l " + rest && Trimmed(rest) && rest != []
    ensures TtsText("/tts " + args) == args
  {
    assert Substring("/tts " + args, 5) == args;
    assert Trimmed(args) by { assert args[0] == '-' && args[|args| - 1] == rest[|rest| - 1]; }
    TrimOfTrimmed(args);
  }

  lemma OverlapVoice(args: string, rest: string)
    requires args == "-v -l " + rest && Trimmed(rest) && rest != []
    ensures VoiceAndText(args) == ("-l", rest)
  {
    OverlapVoiceMatch(args);
    assert args[3..5] == "-l";
    assert args[..0] + args[5..] == " " + rest;
    assert AllSpace(" ");
    TrimAround(" ", rest, []);
    assert " " + rest + [] == " " + rest;
  }

  lemma OverlapLanguage(args: string, rest: string, w: string, t: string)
    requires args == "-v -l " + rest && rest == w + " " + t && PlainWord(w) && t != []
    ensures FirstMatch(args, "-l", NonSpace) == Some(Span(3, 6, 6 + |w|))
    ensures Captured(args, "-l", NonSpace, Span(3, 6, 6 + |w|)) == w
  {
    var e := 6 + |w|;
    assert args[6..e] == w by {
      assert args[6..] == rest;
      assert rest[..|w|] == w;
      SliceOfSlice(args, 6, |args|, 0, |w|);
    }
    assert args[e] == ' ' by { assert args[e] == rest[|w|]; }
    forall q | 6 <= q < e ensures !IsSpace(args[q]) {
      assert args[q] == args[6..e][q - 6];
    }
    OverlapLanguageMatch(args, e);
  }

  /** `-v`, a space, `-l`, a space: the voice option's match is `-v -l`. */
  lemma OverlapVoiceMatch(args: string)
    requires |args| >= 6 && args[0] == '-' && args[1] == 'v' && args[2] == ' '
    requires args[3] == '-' && args[4] == 'l' && args[5] == ' '
    ensures FirstMatch(args, "-v", NonSpace) == Some(Span(0, 3, 5))
  {
    assert args[0..2] == "-v";
    RunsAt(args, 2, 3, 5);
    MatchAtIs(args, "-v", NonSpace, 0);
  }

  /** After `-v `, the first `-l`, a space and a word ended by a space at
      `e`: the language option's match starts at 3. */
  lemma OverlapLanguageMatch(args: string, e: nat)
    requires 6 < e < |args| && args[0] == '-' && args[1] == 'v' && args[2] == ' '
    requires args[3] == '-' && args[4] == 'l' && args[5] == ' ' && IsSpace(args[e])
    requires forall q :: 6 <= q < e ==> !IsSpace(args[q])
    ensures FirstMatch(args, "-l", NonSpace) == Some(Span(3, 6, e))
  {
    var flag := "-l";
    assert |flag| == 2 && flag[0] == '-' && flag[1] == 'l';
    FlagAtThree(args, flag, e);
  }

  /** The same for any two-character flag `-l`, kept symbolic. */
  lemma FlagAtThree(args: string, flag: string, e: nat)
    requires |flag| == 2 && flag[0] == '-' && flag[1] == 'l'
    requires 6 < e < |args| && args[0] == '-' && args[1] == 'v' && args[2] == ' '
    requires args[3] == '-' && args[4] == 'l' && args[5] == ' ' && IsSpace(args[e])
    requires forall q :: 6 <= q < e ==> !IsSpace(args[q])
    ensures FirstMatch(args, flag, NonSpace) == Some(Span(3, 6, e))
  {
    MatchAtThree(args, flag, e);
    FoundAt(args, flag, NonSpace, 3, Span(3, 6, e));
    SkipMismatch(args, flag, NonSpace, 0, 1);
    SkipMismatch(args, flag, NonSpace, 1, 0);
    SkipMismatch(args, flag, NonSpace, 2, 0);
  }

  lemma MatchAtThree(args: string, flag: string, e: nat)
    requires |flag| == 2 && flag[0] == '-' && flag[1] == 'l'
    requires 6 < e < |args| && args[3] == '-' && args[4] == 'l' && args[5] == ' ' && IsSpace(args[e])
    requires forall q :: 6 <= q < e ==> !IsSpace(args[q])
    ensures MatchAt(args, flag, NonSpace, 3) == Some(Span(3, 6, e))
  {
    assert args[3..5] == flag;
    RunsAt(args, 5, 6, e);
    MatchAtIs(args, flag, NonSpace, 3);
  }

  /** White space on `[a, b)` and a word on `[b, c)` ended by white space:
      the runs from `a` and `b` are exactly those. */
  lemma RunsAt(s: string, a: nat, b: nat, c: nat)
    requires a < b < c < |s| && IsSpace(s[c])
    requires forall q :: a <= q < b ==> IsSpace(s[q])
    requires forall q :: b <= q < c ==> !IsSpace(s[q])
    ensures SpaceRun(s, a) == b - a && ClassRun(s, b, NonSpace) == c - b
  {
    SpacesThenClassAt(s, a, b, c, NonSpace);
    NonSpaceRunStops(s, b, c);
  }

  lemma {:induction false} NonSpaceRunStops(s: string, i: nat, j: nat)
    requires i <= j < |s|
    requires forall q :: i <= q < j ==> !IsSpace(s[q])
    requires IsSpace(s[j])
    ensures i + ClassRun(s, i, NonSpace) == j
    decreases j - i
  {
    if i < j { NonSpaceRunStops(s, i + 1, j); }
  }

  /** A text without the character `-` matches no option. */
  lemma NoOptionIn(s: string, flag: string, k: RunClass)
    requires |flag| > 0 && flag[0] == '-'
    requires forall q :: 0 <= q < |s| ==> s[q] != '-'
    ensures FirstMatch(s, flag, k).None?
  {
    FirstMatchIsLeftmostLongest(s, flag, k);
    assert NoMatch(s, flag, k);
  }

  /** The error texts follow the handler's tests in order: missing key,
      failed upload, timeout code, status 401, status 429, else generic. */
  lemma TtsErrorChain(e: ErrorInfo)
    ensures Contains(e.message, "API key not configured") ==> TtsErrorText(e) == TTS_NOT_CONFIGURED
    ensures !Contains(e.message, "API key not configured")
            && (Contains(e.message, "Cloudinary") || Contains(e.message, "Google Cloud Storage")) ==>
              TtsErrorText(e) == TTS_UPLOAD_FAILED
    ensures !Contains(e.message, "API key not configured")
            && !Contains(e.message, "Cloudinary") && !Contains(e.message, "Google Cloud Storage")
            && (e.code == Some("ECONNABORTED") || e.code == Some("ETIMEDOUT")) ==>
              TtsErrorText(e) == TTS_TIMEOUT
    ensures !Contains(e.message, "API key not configured")
            && !Contains(e.message, "Cloudinary") && !Contains(e.message, "Google Cloud Storage")
            && e.code != Some("ECONNABORTED") && e.code != Some("ETIMEDOUT") && e.status == Some(401) ==>
              TtsErrorText(e) == TTS_INVALID_KEY
    ensures !Contains(e.message, "API key not configured")
            && !Contains(e.message, "Cloudinary") && !Contains(e.message, "Google Cloud Storage")
            && e.code != Some("ECONNABORTED") && e.code != Some("ETIMEDOUT") && e.status == Some(429) ==>
              TtsErrorText(e) == TTS_RATE_LIMITED
    ensures !Contains(e.message, "API key not configured")
            && !Contains(e.message, "Cloudinary") && !Contains(e.message, "Google Cloud Storage")
            && e.code != Some("ECONNABORTED") && e.code != Some("ETIMEDOUT")
            && e.status != Some(401) && e.status != Some(429) ==>
              TtsErrorText(e) == TTS_FALLBACK
  {
    var r := TTS_ERROR_RULES;
    TtsRuleTests(e);
    if !Applies(r[0], e) && !Applies(r[1], e) && !Applies(r[2], e) && !Applies(r[3], e) && !Applies(r[4], e) {
      assert forall j :: 0 <= j < |r| ==> !Applies(r[j], e) by {
        forall j | 0 <= j < |r| ensures !Applies(r[j], e) {
          assert j == 0 || j == 1 || j == 2 || j == 3 || j == 4;
        }
      }
    }
  }

  /** What each rule of the chain tests. */
  lemma TtsRuleTests(e: ErrorInfo)
    ensures |TTS_ERROR_RULES| == 5
    ensures Applies(TTS_ERROR_RULES[0], e) <==> Contains(e.message, "API key not configured")
    ensures Applies(TTS_ERROR_RULES[1], e) <==> Contains(e.message, "Cloudinary") || Contains(e.message, "Google Cloud Storage")
    ensures Applies(TTS_ERROR_RULES[2], e) <==> e.code == Some("ECONNABORTED") || e.code == Some("ETIMEDOUT")
    ensures Applies(TTS_ERROR_RULES[3], e) <==> e.status == Some(401)
    ensures Applies(TTS_ERROR_RULES[4], e) <==> e.status == Some(429)
  {
    var r := TTS_ERROR_RULES;
    assert Applies(r[0], e) <==> Holds(r[0].anyOf[0], e);
    assert Applies(r[1], e) <==> Holds(r[1].anyOf[0], e) || Holds(r[1].anyOf[1], e);
    assert Applies(r[2], e) <==> Holds(r[2].anyOf[0], e) || Holds(r[2].anyOf[1], e);
    assert Applies(r[3], e) <==> Holds(r[3].anyOf[0], e);
    assert Applies(r[4], e) <==> Holds(r[4].anyOf[0], e);
  }
}
