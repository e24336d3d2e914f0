/** The conversation state of the DeepSeek bot (bot_core.py): a rolling history of turns
    replayed to a remote chat-completion service, the shaping of the service's reply or
    failure into a display string, and the formatting of web-search and Wikipedia lookups.

    Every collaborator is an input. The chat service is a total function from the request
    the bot builds to `Success(reply)` or `Failure(text of the exception)`; transport errors,
    non-2xx statuses and a reply missing `choices[0].message.content` all arrive as `Failure`.
 */
module BotCore {
  import opened Results
  import opened Text

  /** Number of turns kept before a request is built (bot_core.py keeps `[-6:]`). */
  const Window: nat := 6
  /** The `max_tokens` field of every request. */
  const MaxTokens: nat := 1000
  /** The model used when the constructor is given none. */
  const DefaultModel: String := "deepseek/deepseek-chat"
  /** How many characters of an exception's text a failed chat reply shows. */
  const ErrorLimit: nat := 100
  /** How many characters of a search hit's body are shown. */
  const SnippetLimit: nat := 150
  /** How many characters of a Wikipedia summary are shown. */
  const SummaryLimit: nat := 500

  const MissingKeyMessage: String := "OPENROUTER_API_KEY not set in .env file"
  const Apology: String := "Sorry, I encountered an issue. Error: "
  const SearchHeader: String := "**Search Results:**\n\n"
  const NoSearchResults: String := "No search results found."
  const SearchUnavailable: String := "Search module not available."
  const SearchErrorPrefix: String := "Search error: "
  const NoArticle: String := "No Wikipedia article found."
  const WikiUnavailable: String := "Wikipedia module not available."
  const WikiErrorPrefix: String := "Wikipedia error: "
  const Ellipsis: String := "..."

  datatype Role = User | Assistant

  /** One `{"role": ..., "content": ...}` entry of `conversation_history`. */
  datatype Turn = Turn(role: Role, content: String)

  /** A `DeepSeekBot` instance: credential, model name and the history it replays. */
  datatype Bot = Bot(apiKey: String, model: String, history: seq<Turn>)

  /** The JSON body posted to `/chat/completions`. */
  datatype Request = Request(model: String, messages: seq<Turn>, maxTokens: nat)

  /** What one `chat` call produced: the request it sent, the bot afterwards, and the
      string it returned. */
  datatype Exchange = Exchange(request: Request, bot: Bot, response: String)

  /** The constructor: the credential comes from the environment and may be unset; an unset
      or empty credential raises `ValueError` before any bot exists. */
  function NewBot(apiKey: Option<String>, model: String := DefaultModel): (r: Result<Bot, String>)
    ensures r.Success? <==> apiKey.Some? && apiKey.value != []
    ensures r.Success? ==> r.value.apiKey == apiKey.value && r.value.model == model && r.value.history == []
    ensures r.Failure? ==> r.error == MissingKeyMessage
  {
    match apiKey
    case Some(key) => if key == [] then Failure(MissingKeyMessage) else Success(Bot(key, model, []))
    case None => Failure(MissingKeyMessage)
  }

  /** `history[-6:]` when the history has grown past the window, the history itself otherwise. */
  function Trim(h: seq<Turn>): (r: seq<Turn>)
    ensures |r| == if |h| > Window then Window else |h|
    ensures r == h[|h| - (if |h| > Window then Window else |h|)..]
  {
    if |h| > Window then h[|h| - Window..] else h
  }

  /** The apology shown when the chat service fails, quoting at most `ErrorLimit` characters
      of the error. */
  function ApologyFor(error: String): (r: String)
    ensures StartsWith(r, Apology) && r[|Apology|..] <= error
    ensures |r| == |Apology| + (if |error| < ErrorLimit then |error| else ErrorLimit)
    ensures |error| <= ErrorLimit ==> r == Apology + error
  {
    Apology + Take(error, ErrorLimit)
  }

  /** `chat(user_message)`: append the user turn, keep the last `Window` turns, send them,
      then either append the reply and return it or leave the history as trimmed and return
      an apology. */
  function Chat(bot: Bot, message: String, service: Request -> Result<String, String>): (ex: Exchange)
    // the request carries the bot's model, the token cap, and the most recent turns in order
    ensures ex.request.model == bot.model && ex.request.maxTokens == MaxTokens
    ensures var appended := bot.history + [Turn(User, message)];
            && |ex.request.messages| == (if |appended| > Window then Window else |appended|)
            && ex.request.messages == appended[|appended| - (if |appended| > Window then Window else |appended|)..]
    ensures |ex.request.messages| <= Window
    ensures ex.request.messages[|ex.request.messages| - 1] == Turn(User, message)
    // only the history changes
    ensures ex.bot.apiKey == bot.apiKey && ex.bot.model == bot.model
    ensures |ex.bot.history| <= Window + 1
    ensures service(ex.request).Success? ==>
              && ex.bot.history == ex.request.messages + [Turn(Assistant, service(ex.request).value)]
              && ex.response == service(ex.request).value
    ensures service(ex.request).Failure? ==>
              && ex.bot.history == ex.request.messages
              && ex.response == ApologyFor(service(ex.request).error)
  {
    var pending := Trim(bot.history + [Turn(User, message)]);
    var request := Request(bot.model, pending, MaxTokens);
    match service(request)
    case Success(reply) => Exchange(request, bot.(history := pending + [Turn(Assistant, reply)]), reply)
    case Failure(error) => Exchange(request, bot.(history := pending), ApologyFor(error))
  }

  /** `clear_memory()`. */
  function ClearMemory(bot: Bot): (r: Bot)
    ensures r.history == []
    ensures r.apiKey == bot.apiKey && r.model == bot.model
  {
    bot.(history := [])
  }

  /** The history never exceeds one more turn than the window between calls. */
  predicate Valid(bot: Bot) {
    |bot.history| <= Window + 1
  }

  /** Once the history has reached the window, each call drops exactly the oldest turns:
      the request is the last `Window - 1` turns followed by the new user turn. */
  lemma FifoEviction(bot: Bot, message: String, service: Request -> Result<String, String>)
    requires |bot.history| >= Window
    ensures Chat(bot, message, service).request.messages
            == bot.history[|bot.history| - (Window - 1)..] + [Turn(User, message)]
  {
    var h := bot.history;
    var appended := h + [Turn(User, message)];
    assert appended[|appended| - Window..] == h[|h| - (Window - 1)..] + [Turn(User, message)];
  }

  /** After `clear_memory`, the next request carries the new message and nothing older. */
  lemma ClearForgetsContext(bot: Bot, message: String, service: Request -> Result<String, String>)
    ensures Chat(ClearMemory(bot), message, service).request.messages == [Turn(User, message)]
  {
    assert ClearMemory(bot).history + [Turn(User, message)] == [Turn(User, message)];
  }

  /** A failed turn leaves its user message as silent context: the next request carries it,
      unanswered, right before the new message. */
  lemma FailedTurnLingers(bot: Bot, m1: String, m2: String,
                          s1: Request -> Result<String, String>, s2: Request -> Result<String, String>)
    requires s1(Chat(bot, m1, s1).request).Failure?
    ensures var next := Chat(Chat(bot, m1, s1).bot, m2, s2).request.messages;
            next[|next| - 2..] == [Turn(User, m1), Turn(User, m2)]
  {
    var b1 := Chat(bot, m1, s1).bot;
    assert b1.history != [] && b1.history[|b1.history| - 1] == Turn(User, m1);
    RequestTail(b1, m2, s2);
    var next := Chat(b1, m2, s2).request.messages;
    assert next[|next| - 2..] == [next[|next| - 2], next[|next| - 1]];
  }

  /** A request always keeps the turn before the new message. */
  lemma RequestTail(bot: Bot, message: String, service: Request -> Result<String, String>)
    requires bot.history != []
    ensures var msgs := Chat(bot, message, service).request.messages;
            && |msgs| >= 2
            && msgs[|msgs| - 2] == bot.history[|bot.history| - 1]
            && msgs[|msgs| - 1] == Turn(User, message)
  {
    var h := bot.history;
    var appended := h + [Turn(User, message)];
    var msgs := Chat(bot, message, service).request.messages;
    var n := if |appended| > Window then Window else |appended|;
    assert msgs == appended[|appended| - n..];
    assert msgs[|msgs| - 2] == appended[|appended| - 2];
  }

  function Succeed(reply: String): Request -> Result<String, String> {
    _ => Success(reply)
  }

  /** Four successful turns from an empty history leave seven turns, the oldest of which is
      the first reply: the first user message was evicted when the fourth one arrived, and
      the fourth reply was appended after the trim. */
  lemma FourTurnTrace(bot: Bot, u1: String, a1: String, u2: String, a2: String,
                      u3: String, a3: String, u4: String, a4: String)
    requires bot.history == []
    ensures var b1 := Chat(bot, u1, Succeed(a1)).bot;
            var b2 := Chat(b1, u2, Succeed(a2)).bot;
            var b3 := Chat(b2, u3, Succeed(a3)).bot;
            var b4 := Chat(b3, u4, Succeed(a4)).bot;
            b4.history == [Turn(Assistant, a1), Turn(User, u2), Turn(Assistant, a2), Turn(User, u3),
                           Turn(Assistant, a3), Turn(User, u4), Turn(Assistant, a4)]
  {
    var t1, r1 := Turn(User, u1), Turn(Assistant, a1);
    var t2, r2 := Turn(User, u2), Turn(Assistant, a2);
    var t3, r3 := Turn(User, u3), Turn(Assistant, a3);
    var t4, r4 := Turn(User, u4), Turn(Assistant, a4);
    var b1 := Chat(bot, u1, Succeed(a1)).bot;
    ShortTurn(bot, u1, a1);
    assert b1.history == [t1, r1];
    var b2 := Chat(b1, u2, Succeed(a2)).bot;
    ShortTurn(b1, u2, a2);
    assert b2.history == [t1, r1, t2, r2];
    var b3 := Chat(b2, u3, Succeed(a3)).bot;
    ShortTurn(b2, u3, a3);
    assert b3.history == [t1, r1, t2, r2, t3, r3];
    SuccessfulTurn(b3, u4, a4);
    var h := b3.history + [t4];
    assert Trim(h) == [r1, t2, r2, t3, r3, t4] by {
      assert h == [t1, r1, t2, r2, t3, r3, t4];
    }
  }

  /** While the history is shorter than the window, a successful call just appends the
      user turn and the reply. */
  lemma ShortTurn(bot: Bot, message: String, reply: String)
    requires |bot.history| < Window
    ensures Chat(bot, message, Succeed(reply)).bot.history
            == bot.history + [Turn(User, message), Turn(Assistant, reply)]
  {
    SuccessfulTurn(bot, message, reply);
  }

  /** One successful call: the trimmed history, then the user turn and the reply. */
  lemma SuccessfulTurn(bot: Bot, message: String, reply: String)
    ensures Chat(bot, message, Succeed(reply)).bot.history
            == Trim(bot.history + [Turn(User, message)]) + [Turn(Assistant, reply)]
  {
  }

  function Other(role: Role): Role {
    if role == User then Assistant else User
  }

  /** The role at position `i` of an `n`-turn history whose last turn has role `last` and
      whose roles alternate. */
  function RoleAt(n: nat, i: nat, last: Role): Role
    requires i < n
  {
    if (n - 1 - i) % 2 == 0 then last else Other(last)
  }

  /** Roles alternate and the last turn has role `last`. A history built from successful
      turns only alternates and ends with a reply. */
  predicate AlternatesTo(h: seq<Turn>, last: Role) {
    forall i | 0 <= i < |h| :: h[i].role == RoleAt(|h|, i, last)
  }

  lemma AlternatesSuffix(h: seq<Turn>, k: nat, last: Role)
    requires AlternatesTo(h, last) && k <= |h|
    ensures AlternatesTo(h[k..], last)
  {
    forall i | 0 <= i < |h[k..]|
      ensures h[k..][i].role == RoleAt(|h[k..]|, i, last)
    {
      assert h[k..][i] == h[k + i];
    }
  }

  lemma AlternatesAppend(h: seq<Turn>, last: Role, t: Turn)
    requires AlternatesTo(h, last) && t.role == Other(last)
    ensures AlternatesTo(h + [t], Other(last))
  {
    forall i | 0 <= i < |h + [t]|
      ensures (h + [t])[i].role == RoleAt(|h + [t]|, i, Other(last))
    {
      if i < |h| {
        assert (h + [t])[i] == h[i];
      }
    }
  }

  /** The request sent from an alternating history alternates and ends with the new user
      message. */
  lemma RequestAlternates(bot: Bot, message: String, service: Request -> Result<String, String>)
    requires AlternatesTo(bot.history, Assistant)
    ensures AlternatesTo(Chat(bot, message, service).request.messages, User)
  {
    var appended := bot.history + [Turn(User, message)];
    var n := if |appended| > Window then Window else |appended|;
    AlternatesAppend(bot.history, Assistant, Turn(User, message));
    assert Chat(bot, message, service).request.messages == appended[|appended| - n..];
    AlternatesSuffix(appended, |appended| - n, User);
  }

  /** A successful turn keeps the history alternating and ending with a reply, and the
      request it sent alternates and ends with the new user message. */
  lemma SuccessKeepsAlternation(bot: Bot, message: String, service: Request -> Result<String, String>)
    requires AlternatesTo(bot.history, Assistant)
    ensures var ex := Chat(bot, message, service);
            && AlternatesTo(ex.request.messages, User)
            && (service(ex.request).Success? ==> AlternatesTo(ex.bot.history, Assistant))
  {
    var ex := Chat(bot, message, service);
    RequestAlternates(bot, message, service);
    var p := ex.request.messages;
    var answer := service(ex.request);
    if answer.Success? {
      assert ex.bot.history == p + [Turn(Assistant, answer.value)];
      AlternatesAppend(p, User, Turn(Assistant, answer.value));
    }
  }

  /** In the steady state of an all-successful conversation the request opens with an
      assistant turn: the window holds the new message, two full exchanges and the tail of
      a third, not three full exchanges. */
  lemma SteadyStateRequestOpensWithReply(bot: Bot, message: String, service: Request -> Result<String, String>)
    requires AlternatesTo(bot.history, Assistant) && |bot.history| >= Window
    ensures Chat(bot, message, service).request.messages[0].role == Assistant
  {
    var h := bot.history;
    FifoEviction(bot, message, service);
    assert Chat(bot, message, service).request.messages[0] == h[|h| - (Window - 1)];
  }

  /** One search hit as returned by `DDGS().text`. */
  datatype Hit = Hit(title: String, body: String)

  /** The `duckduckgo_search` package: either not installed (ImportError) or a query
      function that returns the hits or raises. */
  datatype SearchLibrary = DdgsMissing | Ddgs(text: String -> Result<seq<Hit>, String>)

  /** The block printed for hit number `i`. */
  function ResultBlock(i: nat, hit: Hit): String {
    "**" + NatToString(i) + ". " + hit.title + "**\n" + Take(hit.body, SnippetLimit) + Ellipsis + "\n\n"
  }

  /** The blocks for `hits`, numbered from `first` on. */
  function ResultBlocks(hits: seq<Hit>, first: nat): String
    decreases |hits|
  {
    if hits == [] then [] else ResultBlock(first, hits[0]) + ResultBlocks(hits[1..], first + 1)
  }

  lemma {:induction false} ResultBlocksAppend(a: seq<Hit>, b: seq<Hit>, first: nat)
    ensures ResultBlocks(a + b, first) == ResultBlocks(a, first) + ResultBlocks(b, first + |a|)
    decreases |a|
  {
    if a == [] {
      assert a + b == b;
    } else {
      assert (a + b)[1..] == a[1..] + b;
      ResultBlocksAppend(a[1..], b, first + 1);
    }
  }

  lemma ResultBlocksSnoc(hits: seq<Hit>, i: nat)
    requires i < |hits|
    ensures ResultBlocks(hits[..i + 1], 1) == ResultBlocks(hits[..i], 1) + ResultBlock(i + 1, hits[i])
  {
    ResultBlocksAppend(hits[..i], [hits[i]], 1);
    assert ResultBlocks([hits[i]], 1 + i) == ResultBlock(i + 1, hits[i]) + ResultBlocks([], i + 2);
    assert hits[..i + 1] == hits[..i] + [hits[i]];
  }

  /** The summary built by the loop over `enumerate(results, 1)`. */
  method SummarizeResults(hits: seq<Hit>) returns (summary: String)
    ensures summary == SearchHeader + ResultBlocks(hits, 1)
  {
    summary := SearchHeader;
    var i := 0;
    while i < |hits|
      invariant 0 <= i <= |hits|
      invariant summary == SearchHeader + ResultBlocks(hits[..i], 1)
    {
      var block := ResultBlock(i + 1, hits[i]);
      ResultBlocksSnoc(hits, i);
      assert SearchHeader + ResultBlocks(hits[..i + 1], 1) == (SearchHeader + ResultBlocks(hits[..i], 1)) + block;
      summary := summary + block;
      i := i + 1;
    }
    assert hits[..i] == hits;
  }

  /** `search_web(query)`: never reads or changes the history (it does not take the bot). */
  function SearchWeb(library: SearchLibrary, query: String): (r: String)
    ensures library.DdgsMissing? ==> r == SearchUnavailable
    ensures library.Ddgs? && library.text(query).Failure? ==> r == SearchErrorPrefix + library.text(query).error
    ensures library.Ddgs? && library.text(query) == Success([]) ==> r == NoSearchResults
    ensures library.Ddgs? && library.text(query).Success? && library.text(query).value != [] ==>
              r == SearchHeader + ResultBlocks(library.text(query).value, 1)
  {
    match library
    case DdgsMissing => SearchUnavailable
    case Ddgs(text) =>
      match text(query)
      case Failure(error) => SearchErrorPrefix + error
      case Success(hits) => if hits == [] then NoSearchResults else SearchHeader + ResultBlocks(hits, 1)
  }

  /** Hit `i` (counting from 0) is printed as block number `i + 1`, after the blocks of the
      hits before it and before those after it. */
  lemma SearchBlocksInOrder(hits: seq<Hit>, i: nat)
    requires i < |hits|
    ensures ResultBlocks(hits, 1)
            == ResultBlocks(hits[..i], 1) + ResultBlock(i + 1, hits[i]) + ResultBlocks(hits[i + 1..], i + 2)
  {
    var rest := [hits[i]] + hits[i + 1..];
    assert hits == hits[..i] + rest;
    ResultBlocksAppend(hits[..i], rest, 1);
    ResultBlocksCons(hits[i], hits[i + 1..], i + 1);
    ConcatAssoc(ResultBlocks(hits[..i], 1), ResultBlock(i + 1, hits[i]), ResultBlocks(hits[i + 1..], i + 2));
  }

  lemma ResultBlocksCons(hit: Hit, hits: seq<Hit>, first: nat)
    ensures ResultBlocks([hit] + hits, first) == ResultBlock(first, hit) + ResultBlocks(hits, first + 1)
  {
    assert ([hit] + hits)[1..] == hits;
  }

  /** Each block names its number and title and shows at most `SnippetLimit` characters of
      the body, which the numeral and the ellipsis let a reader recover. */
  lemma ResultBlockShape(i: nat, hit: Hit)
    ensures var b := ResultBlock(i, hit);
            var head := "**" + NatToString(i) + ". " + hit.title + "**\n";
            && StartsWith(b, head)
            && b[|b| - |Ellipsis + "\n\n"|..] == Ellipsis + "\n\n"
            && b[|head|..|b| - |Ellipsis + "\n\n"|] <= hit.body
            && |b| == |head| + (if |hit.body| < SnippetLimit then |hit.body| else SnippetLimit) + |Ellipsis + "\n\n"|
            && (|hit.body| <= SnippetLimit ==> b[|head|..|b| - |Ellipsis + "\n\n"|] == hit.body)
  {
    var head := "**" + NatToString(i) + ". " + hit.title + "**\n";
    var snippet := Take(hit.body, SnippetLimit);
    var b := ResultBlock(i, hit);
    assert b == head + snippet + (Ellipsis + "\n\n");
    assert b[|head|..|b| - |Ellipsis + "\n\n"|] == snippet;
  }

  /** A Wikipedia page as fetched by `wikipedia.page`. */
  datatype Page = Page(title: String, summary: String)

  /** The `wikipedia` package: either not installed (ImportError), or a title search and a
      page fetch, each of which may raise. */
  datatype WikiLibrary =
    | WikiMissing
    | Wiki(search: String -> Result<seq<String>, String>, page: String -> Result<Page, String>)

  /** The text shown for a fetched page. */
  function ArticleText(page: Page): String {
    "**Wikipedia: " + page.title + "**\n\n" + Take(page.summary, SummaryLimit) + Ellipsis
  }

  /** `get_wikipedia(query)`: looks up the first search hit; never reads or changes the
      history (it does not take the bot). */
  function GetWikipedia(library: WikiLibrary, query: String): (r: String)
    ensures library.WikiMissing? ==> r == WikiUnavailable
    ensures library.Wiki? && library.search(query).Failure? ==> r == WikiErrorPrefix + library.search(query).error
    ensures library.Wiki? && library.search(query) == Success([]) ==> r == NoArticle
    ensures library.Wiki? && library.search(query).Success? && library.search(query).value != [] ==>
              var fetched := library.page(library.search(query).value[0]);
              && (fetched.Failure? ==> r == WikiErrorPrefix + fetched.error)
              && (fetched.Success? ==> r == ArticleText(fetched.value))
  {
    match library
    case WikiMissing => WikiUnavailable
    case Wiki(search, page) =>
      match search(query)
      case Failure(error) => WikiErrorPrefix + error
      case Success(titles) =>
        if titles == [] then NoArticle
        else match page(titles[0])
          case Failure(error) => WikiErrorPrefix + error
          case Success(p) => ArticleText(p)
  }

  /** The article text opens with the title and carries at most `SummaryLimit` characters of
      the summary before the ellipsis; a short summary is shown whole. */
  lemma ArticleTextShape(page: Page)
    ensures var t := ArticleText(page);
            var head := "**Wikipedia: " + page.title + "**\n\n";
            && StartsWith(t, head)
            && t[|t| - |Ellipsis|..] == Ellipsis
            && t[|head|..|t| - |Ellipsis|] <= page.summary
            && |t| == |head| + (if |page.summary| < SummaryLimit then |page.summary| else SummaryLimit) + |Ellipsis|
            && (|page.summary| <= SummaryLimit ==> t[|head|..|t| - |Ellipsis|] == page.summary)
  {
    var head := "**Wikipedia: " + page.title + "**\n\n";
    var t := ArticleText(page);
    assert t == head + Take(page.summary, SummaryLimit) + Ellipsis;
    assert t[|head|..|t| - |Ellipsis|] == Take(page.summary, SummaryLimit);
  }
}
