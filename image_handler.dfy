/** The `/image` command.  The text after `/image ` is trimmed into a
    prompt.  An empty prompt gets a usage reply and no generation; otherwise
    the image is generated and the reply holds a caption and the image, or
    one fixed text when generation failed. */
module ImageHandler {
  import opened Wrappers
  import opened JsString
  import opened Protocol

  const IMAGE_USAGE: string := "Please provide a prompt for image generation."
  const IMAGE_FAILED: string := "😅 Failed to generate image. Please try again later."

  /** `userMessage.substring(7).trim()`. */
  function ImagePrompt(message: string): string {
    Trim(Substring(message, 7))
  }

  function Caption(prompt: string): string {
    "🎨 Generated: \"" + prompt + "\""
  }

  /** `handleImageCommand`, with the generator's answer as `answer`: the
      image's URL, or the error it raised. */
  function ImageOutcome(token: string, message: string, answer: Result<string, ErrorInfo>): Outcome {
    var prompt := ImagePrompt(message);
    if prompt == [] then Outcome([], [TextReply(token, IMAGE_USAGE)])
    else
      var messages := match answer
        case Ok(url) => [Text(Caption(prompt)), Image(url, url)]
        case Err(_) => [Text(IMAGE_FAILED)];
      Outcome([ImageGeneration(prompt)], [ReplyTo(token, messages)])
  }

  /** An empty prompt only gets the usage reply.  Otherwise one generation is
      asked for with the trimmed prompt, and one reply is sent: the caption
      quoting the prompt and the image shown and previewed by the same URL,
      or the failure text. */
  lemma ImageSends(token: string, message: string, answer: Result<string, ErrorInfo>)
    ensures var out := ImageOutcome(token, message, answer);
            var p := ImagePrompt(message);
            Trimmed(p)
            && (p == [] ==> out == Outcome([], [TextReply(token, IMAGE_USAGE)]))
            && (p != [] ==>
                  out.calls == [ImageGeneration(p)] && |out.actions| == 1
                  && out.actions[0].ReplyTo? && out.actions[0].replyToken == token
                  && (answer.Ok? ==>
                        out.actions[0].messages == [Text(Caption(p)), Image(answer.value, answer.value)])
                  && (answer.Err? ==> out.actions[0].messages == [Text(IMAGE_FAILED)]))
  {
  }

  /** The caption quotes the prompt whole. */
  lemma CaptionQuotes(prompt: string)
    ensures var c := Caption(prompt);
            var head := "🎨 Generated: \"";
            |c| == |head| + |prompt| + 1 && c[|head|..|head| + |prompt|] == prompt && c[|c| - 1] == '"'
  {
  }

  /** Only white space after the command word is an empty prompt. */
  lemma EmptyPromptIsBlank(message: string)
    ensures ImagePrompt(message) == [] <==> AllSpace(Substring(message, 7))
  {
    var rest := Substring(message, 7);
    if AllSpace(rest) {
      TrimAround(rest, [], []);
      assert rest + [] + [] == rest;
    }
  }
}
