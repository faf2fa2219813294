/** The `/google` command.  The text after the command word is trimmed; an
    option `-n <digits>` sets how many results to ask for, clamped to
    `1..MAX_RESULTS`, and is cut out of the query.  An empty query gets a
    usage reply and no search; otherwise the search runs and its hits are
    listed, numbered from 1, under a header naming the query. */
module SearchHandler {
  import opened Wrappers
  import opened JsString
  import opened Constants
  import opened Protocol
  import opened ErrorRules
  import opened FlagPattern

  const SEARCH_EMPTY_QUERY: string := "Please provide a search query."
  const SEARCH_NO_RESULTS: string := "🤷 No results found for your search."
  const SEARCH_NOT_CONFIGURED: string := "⚙️ Google search is not configured properly."
  const SEARCH_TIMEOUT: string := "⏱️ Search timed out. Please try again."
  const SEARCH_FALLBACK: string := "😅 Failed to perform search. Please try again later."

  const SEARCH_ERROR_RULES: seq<Rule> := [
    Rule([MessageHas("credentials not configured")], SEARCH_NOT_CONFIGURED),
    Rule([CodeIs("ECONNABORTED"), CodeIs("ETIMEDOUT")], SEARCH_TIMEOUT)
  ]

  function SearchErrorText(e: ErrorInfo): string {
    Classify(SEARCH_ERROR_RULES, e, SEARCH_FALLBACK)
  }

  // -----------------------------------------------------------------------
  // Arguments

  /** The query and the number of results asked for. */
  datatype SearchArgs = SearchArgs(query: string, count: nat)

  /** `Math.min(Math.max(n, 1), MAX_RESULTS)`. */
  function Clamp(n: int): (r: nat)
    ensures 1 <= r <= MAX_RESULTS
    ensures 1 <= n <= MAX_RESULTS <==> r == n
  {
    if n < 1 then 1 else if n > MAX_RESULTS then MAX_RESULTS else n
  }

  /** The text after `/google `, trimmed. */
  function SearchText(message: string): string {
    Trim(Substring(message, 8))
  }

  /** The digits captured by the first `-n` option of `args`. */
  function CountDigits(args: string, m: Span): (d: string)
    requires FirstMatch(args, "-n", Digits) == Some(m)
    ensures m.start < m.group <= m.end <= |args| && d == args[m.group..m.end] && AllDigits(d) && d != []
  {
    Captured(args, "-n", Digits, m)
  }

  /** The arguments of a `/google` message. */
  function ParseSearch(message: string): SearchArgs {
    var args := SearchText(message);
    match FirstMatch(args, "-n", Digits)
    case None => SearchArgs(args, DEFAULT_RESULTS)
    case Some(m) =>
      SearchArgs(Trim(RemoveFirstMatch(args, "-n", Digits)), Clamp(DigitsValue(CountDigits(args, m))))
  }

  /** The count is between 1 and MAX_RESULTS and the query is trimmed. */
  lemma ParseSearchBounds(message: string)
    ensures 1 <= ParseSearch(message).count <= MAX_RESULTS
    ensures Trimmed(ParseSearch(message).query)
  {
  }

  /** Without an `-n` option the whole trimmed text is the query and
      DEFAULT_RESULTS hits are asked for. */
  lemma ParseSearchWithoutOption(message: string)
    requires NoMatch(SearchText(message), "-n", Digits)
    ensures ParseSearch(message) == SearchArgs(SearchText(message), DEFAULT_RESULTS)
  {
    FirstMatchIsLeftmostLongest(SearchText(message), "-n", Digits);
  }

  /** With an `-n` option, the count is the clamped value of the digits of
      its leftmost occurrence, taken greedily, and the query is the rest of
      the text, trimmed. */
  lemma ParseSearchWithOption(message: string)
    requires !NoMatch(SearchText(message), "-n", Digits)
    ensures FirstMatch(SearchText(message), "-n", Digits).Some?
    ensures var args := SearchText(message);
            var m := FirstMatch(args, "-n", Digits).value;
            IsFirst(args, "-n", Digits, m) && AllDigits(args[m.group..m.end])
            && ParseSearch(message)
               == SearchArgs(Trim(args[..m.start] + args[m.end..]), Clamp(DigitsValue(args[m.group..m.end])))
  {
    var args := SearchText(message);
    FirstMatchIsLeftmostLongest(args, "-n", Digits);
    var m := FirstMatch(args, "-n", Digits).value;
    ParseSearchOfMatch(message, m);
  }

  lemma ParseSearchOfMatch(message: string, m: Span)
    requires FirstMatch(SearchText(message), "-n", Digits) == Some(m)
    ensures var args := SearchText(message);
            m.start <= m.group <= m.end <= |args| && AllDigits(args[m.group..m.end])
            && ParseSearch(message)
               == SearchArgs(Trim(args[..m.start] + args[m.end..]), Clamp(DigitsValue(args[m.group..m.end])))
  {
    var d := CountDigits(SearchText(message), m);
  }

  /** `/google <rest>` with `rest` already trimmed searches with `rest`. */
  lemma SearchTextOf(rest: string)
    requires Trimmed(rest)
    ensures SearchText("/google " + rest) == rest
  {
    assert Substring("/google " + rest, 8) == rest;
    TrimAround([], rest, []);
    assert [] + rest + [] == rest;
  }

  /** An option at the very start of `args`, its digits followed by the end
      of the text or by a non-digit, is the first match. */
  lemma OptionAtStart(args: string, d: string, tail: string)
    requires d != [] && AllDigits(d) && args == "-n " + d + tail
    requires tail == [] || !IsDigit(tail[0])
    ensures FirstMatch(args, "-n", Digits) == Some(Span(0, 3, 3 + |d|))
  {
    var e := 3 + |d|;
    assert args[0] == '-' && args[1] == 'n' && args[2] == ' ';
    forall q | 3 <= q < e ensures IsDigit(args[q]) {
      assert args[q] == d[q - 3];
    }
    if tail != [] {
      assert args[e] == tail[0];
    }
    OptionAtZero(args, e);
  }

  /** `-n`, a space, digits up to `e` and then none: the first match. */
  lemma OptionAtZero(args: string, e: nat)
    requires 3 < e <= |args| && args[0] == '-' && args[1] == 'n' && args[2] == ' '
    requires forall q :: 3 <= q < e ==> IsDigit(args[q])
    requires e == |args| || !IsDigit(args[e])
    ensures FirstMatch(args, "-n", Digits) == Some(Span(0, 3, e))
  {
    assert args[..2] == "-n";
    SpacesThenClassAt(args, 2, 3, e, Digits);
    if e < |args| {
      ClassRunStops(args, 3, e);
    }
    MatchAtIs(args, "-n", Digits, 0);
  }

  /** `/google -n <n> news` asks for `n` results when `1 <= n <= MAX_RESULTS`,
      for one when `n` is 0 and for MAX_RESULTS when `n` is larger. */
  lemma CountIsClampedValue(n: nat)
    ensures ParseSearch("/google " + ("-n " + ShowNat(n) + " news")).count
            == (if n == 0 then 1 else if n > MAX_RESULTS then MAX_RESULTS else n)
  {
    var d := ShowNat(n);
    var tail := " news";
    assert !IsDigit(tail[0]) && !IsSpace(tail[|tail| - 1]);
    OptionMessageCount("-n " + d + tail, d, tail);
    ClampOfShown(n);
  }

  lemma ClampOfShown(n: nat)
    ensures Clamp(DigitsValue(ShowNat(n))) == (if n == 0 then 1 else if n > MAX_RESULTS then MAX_RESULTS else n)
  {
    ShowNatRoundTrip(n);
  }

  /** `/google -n <d><tail>` asks for the clamped value of `d`. */
  lemma OptionMessageCount(rest: string, d: string, tail: string)
    requires d != [] && AllDigits(d) && rest == "-n " + d + tail
    requires tail != [] && !IsDigit(tail[0]) && !IsSpace(tail[|tail| - 1])
    ensures ParseSearch("/google " + rest).count == Clamp(DigitsValue(d))
  {
    assert Trimmed(rest) by {
      assert rest[0] == '-';
      assert rest[|rest| - 1] == tail[|tail| - 1];
    }
    SearchTextOf(rest);
    OptionAtStart(rest, d, tail);
    ParseSearchOfMatch("/google " + rest, Span(0, 3, 3 + |d|));
    assert rest[3..3 + |d|] == d;
  }

  /** A digit run followed by a non-digit ends exactly there. */
  lemma {:induction false} ClassRunStops(s: string, i: nat, j: nat)
    requires i <= j < |s|
    requires forall q :: i <= q < j ==> IsDigit(s[q])
    requires !IsDigit(s[j])
    ensures i + ClassRun(s, i, Digits) == j
    decreases j - i
  {
    if i < j { ClassRunStops(s, i + 1, j); }
  }

  // -----------------------------------------------------------------------
  // The result list

  /** The header line of a result list. */
  function ResultsHeader(query: string): string {
    "🔍 Search results for \"" + query + "\":\n\n"
  }

  /** One numbered hit: its number, title, link and snippet. */
  function ResultBlock(index: nat, item: SearchItem): string {
    ShowNat(index + 1) + ". " + item.title + "\n" + item.link + "\n" + item.snippet + "\n\n"
  }

  /** The list text before the final trim: the header, then the blocks of
      the hits in order. */
  function ResultsText(query: string, items: seq<SearchItem>): string {
    if items == [] then ResultsHeader(query)
    else ResultsText(query, items[..|items| - 1]) + ResultBlock(|items| - 1, items[|items| - 1])
  }

  /** The `forEach` that appends one block per hit. */
  method BuildResultsText(query: string, items: seq<SearchItem>) returns (text: string)
    ensures text == ResultsText(query, items)
  {
    text := ResultsHeader(query);
    var i := 0;
    while i < |items|
      invariant 0 <= i <= |items|
      invariant text == ResultsText(query, items[..i])
    {
      assert items[..i + 1][..i] == items[..i];
      text := text + ResultBlock(i, items[i]);
      i := i + 1;
    }
    assert items[..i] == items;
  }

  /** The text for the first `k` hits is a prefix of the whole list, and the
      `k`-th hit's block, numbered `k + 1`, comes right after it. */
  lemma {:induction false} ResultsTextLayout(query: string, items: seq<SearchItem>, k: nat)
    requires k < |items|
    ensures |ResultsText(query, items[..k])| < |ResultsText(query, items)|
    ensures ResultsText(query, items)[..|ResultsText(query, items[..k])|] == ResultsText(query, items[..k])
    ensures OccursAt(ResultsText(query, items), ResultBlock(k, items[k]), |ResultsText(query, items[..k])|)
    decreases |items|
  {
    var n := |items|;
    var init := items[..n - 1];
    var a, b := ResultsText(query, init), ResultBlock(n - 1, items[n - 1]);
    assert ResultsText(query, items) == a + b;
    if k == n - 1 {
      assert items[..k] == init;
      BlockStartsWithDigit(n - 1, items[n - 1]);
      AppendLayout(a, b);
    } else {
      assert init[..k] == items[..k];
      assert init[k] == items[k];
      ResultsTextLayout(query, init, k);
      PrefixLayoutExtends(a, b, ResultsText(query, items[..k]), ResultBlock(k, items[k]));
    }
  }

  /** Every list starts with its header. */
  lemma {:induction false} ResultsTextStartsWithHeader(query: string, items: seq<SearchItem>)
    ensures |ResultsHeader(query)| <= |ResultsText(query, items)|
    ensures ResultsText(query, items)[..|ResultsHeader(query)|] == ResultsHeader(query)
    decreases |items|
  {
    if items != [] {
      ResultsTextStartsWithHeader(query, items[..|items| - 1]);
    }
  }

  /** The trim of a non-empty list keeps the header and the first number. */
  lemma ReplyKeepsHeader(query: string, items: seq<SearchItem>)
    requires items != []
    ensures var t := Trim(ResultsText(query, items));
            |ResultsHeader(query)| < |t| && t[..|ResultsHeader(query)|] == ResultsHeader(query)
  {
    var s := ResultsText(query, items);
    var h := ResultsHeader(query);
    ResultsTextLayout(query, items, 0);
    ResultsTextStartsWithHeader(query, items);
    assert items[..0] == [];
    var b := ResultBlock(0, items[0]);
    BlockStartsWithDigit(0, items[0]);
    HeaderStartsWithIcon(query);
    assert s[|h|] == b[0];
    assert s[0] == h[0];
    DigitIsNotSpace(b[0]);
    TrimKeepsPrefix(s, |h|);
  }

  lemma HeaderStartsWithIcon(query: string)
    ensures |ResultsHeader(query)| > 0 && !IsSpace(ResultsHeader(query)[0])
  {
    assert ResultsHeader(query)[0] == '🔍';
  }

  lemma BlockStartsWithDigit(index: nat, item: SearchItem)
    ensures |ResultBlock(index, item)| > 0 && IsDigit(ResultBlock(index, item)[0])
  {
    var d := ShowNat(index + 1);
    assert ResultBlock(index, item)[0] == d[0];
  }

  // -----------------------------------------------------------------------
  // The handler

  /** What the command does, given the search service's answer. */
  function SearchOutcome(token: string, message: string, answer: Result<seq<SearchItem>, ErrorInfo>): Outcome {
    var a := ParseSearch(message);
    if a.query == [] then Outcome([], [TextReply(token, SEARCH_EMPTY_QUERY)])
    else
      var text := match answer
        case Ok(items) => if |items| > 0 then Trim(ResultsText(a.query, items)) else SEARCH_NO_RESULTS
        case Err(e) => SearchErrorText(e);
      Outcome([WebSearch(a.query, a.count)], [TextReply(token, text)])
  }

  /** `handleGoogleCommand`, with the search service's answer as `answer`. */
  method HandleGoogleCommand(token: string, message: string, answer: Result<seq<SearchItem>, ErrorInfo>)
    returns (out: Outcome)
    ensures out == SearchOutcome(token, message, answer)
  {
    var args := SearchText(message);
    var query := args;
    var num := DEFAULT_RESULTS;
    match FirstMatch(args, "-n", Digits) {
      case Some(m) =>
        num := Clamp(DigitsValue(CountDigits(args, m)));
        query := Trim(RemoveFirstMatch(args, "-n", Digits));
      case None =>
    }
    if query == [] {
      return Outcome([], [TextReply(token, SEARCH_EMPTY_QUERY)]);
    }
    var text;
    match answer {
      case Ok(items) =>
        if |items| > 0 {
          text := BuildResultsText(query, items);
          text := Trim(text);
        } else {
          text := SEARCH_NO_RESULTS;
        }
      case Err(e) =>
        text := SearchErrorText(e);
    }
    out := Outcome([WebSearch(query, num)], [TextReply(token, text)]);
  }

  /** An empty query searches nothing and gets the usage reply; any other
      query makes exactly one search, for between one and MAX_RESULTS hits,
      and sends exactly one reply. */
  lemma SearchCallsAndReplies(token: string, message: string, answer: Result<seq<SearchItem>, ErrorInfo>)
    ensures var out := SearchOutcome(token, message, answer);
            var a := ParseSearch(message);
            |out.actions| == 1 && out.actions[0].ReplyTo? && out.actions[0].replyToken == token
            && (a.query == [] <==> out.calls == [])
            && (a.query == [] ==> out.actions[0] == TextReply(token, SEARCH_EMPTY_QUERY))
            && (a.query != [] ==> out.calls == [WebSearch(a.query, a.count)] && 1 <= a.count <= MAX_RESULTS)
  {
    ParseSearchBounds(message);
  }

  /** A successful search with hits replies with the header naming the query;
      one with no hits says so. */
  lemma SearchReplyText(token: string, message: string, items: seq<SearchItem>)
    requires ParseSearch(message).query != []
    ensures var out := SearchOutcome(token, message, Ok(items));
            var q := ParseSearch(message).query;
            var t := out.actions[0].messages[0].text;
            (items == [] ==> t == SEARCH_NO_RESULTS)
            && (items != [] ==> |ResultsHeader(q)| < |t| && t[..|ResultsHeader(q)|] == ResultsHeader(q))
  {
    if items != [] {
      ReplyKeepsHeader(ParseSearch(message).query, items);
    }
  }

  /** The error texts follow the handler's tests in order: missing
      credentials, then a timeout code, else the generic text. */
  lemma SearchErrorChain(e: ErrorInfo)
    ensures Contains(e.message, "credentials not configured") ==> SearchErrorText(e) == SEARCH_NOT_CONFIGURED
    ensures !Contains(e.message, "credentials not configured")
            && (e.code == Some("ECONNABORTED") || e.code == Some("ETIMEDOUT")) ==>
              SearchErrorText(e) == SEARCH_TIMEOUT
    ensures !Contains(e.message, "credentials not configured")
            && e.code != Some("ECONNABORTED") && e.code != Some("ETIMEDOUT") ==>
              SearchErrorText(e) == SEARCH_FALLBACK
  {
    var r := SEARCH_ERROR_RULES;
    assert Applies(r[0], e) <==> Holds(r[0].anyOf[0], e);
    assert Applies(r[1], e) <==> Holds(r[1].anyOf[0], e) || Holds(r[1].anyOf[1], e);
    if !Applies(r[0], e) && !Applies(r[1], e) {
      assert forall j :: 0 <= j < |r| ==> !Applies(r[j], e) by {
        forall j | 0 <= j < |r| ensures !Applies(r[j], e) {
          assert j == 0 || j == 1;
        }
      }
    }
  }
}
