/** The read-eval loop of the command-line front end (cli_bot.py): each input line is
    stripped, classified as a command, and dispatched to the bot. Reading the line, printing
    and the interrupt handler are outside the model; a session is the sequence of lines the
    user typed.
 */
module CliBot {
  import opened Results
  import opened Text
  import BotCore

  const ExitWords: seq<String> := ["exit", "quit", "bye"]
  const ClearWord: String := "clear"
  const SearchMarker: String := "search:"
  const WikiMarker: String := "wiki:"

  /** The keywords are too short to carry a marker and differ from each other. */
  lemma KeywordFacts()
    ensures forall w | w in ExitWords :: |w| <= 4
    ensures |ClearWord| == 5 && |SearchMarker| == 7 && |WikiMarker| == 5
    ensures !StartsWith(ClearWord, WikiMarker)
  {
    assert ClearWord[0] != WikiMarker[0];
  }

  /** No line starts with both markers. */
  lemma MarkersExclusive(l: String)
    ensures !(StartsWith(l, SearchMarker) && StartsWith(l, WikiMarker))
  {
    if StartsWith(l, SearchMarker) {
      assert l[0] == l[..|SearchMarker|][0] == 's';
      assert l[..|WikiMarker|][0] != WikiMarker[0];
    }
  }

  /** An exit word, whatever its case and surrounding whitespace. */
  predicate IsExitLine(line: String) {
    Lower(Strip(line)) in ExitWords
  }

  /** What one input line asks for. */
  datatype Command =
    | Exit
    | Clear
    | Skip
    | Search(query: String)
    | Wiki(query: String)
    | Chat(text: String)

  /** The branch `main` takes for one line: exit words first, then `clear`, then the empty
      line, then the `search:` and `wiki:` prefixes (matched case-insensitively), and chat
      otherwise. The query is what follows the prefix in the stripped line, stripped again. */
  function Classify(line: String): (c: Command)
    ensures var s := Strip(line);
            var l := Lower(s);
            && (c == Exit <==> l in ExitWords)
            && (c == Clear <==> l == ClearWord)
            && (c == Skip <==> s == [])
            && (c.Search? <==> StartsWith(l, SearchMarker))
            && (c.Search? ==> c.query == Strip(s[|SearchMarker|..]))
            && (c.Wiki? <==> StartsWith(l, WikiMarker))
            && (c.Wiki? ==> c.query == Strip(s[|WikiMarker|..]))
            && (c.Chat? ==> c.text == s)
  {
    var s := Strip(line);
    var l := Lower(s);
    KeywordFacts();
    MarkersExclusive(l);
    if l in ExitWords then Exit
    else if l == ClearWord then Clear
    else if s == [] then Skip
    else if StartsWith(l, SearchMarker) then Search(Strip(s[|SearchMarker|..]))
    else if StartsWith(l, WikiMarker) then Wiki(Strip(s[|WikiMarker|..]))
    else Chat(s)
  }

  /** Whitespace around a line never changes the branch taken or the text forwarded. */
  lemma ClassifyIgnoresPadding(w1: String, line: String, w2: String)
    requires AllSpace(w1) && AllSpace(w2)
    ensures Classify(w1 + line + w2) == Classify(line)
  {
    StripIgnoresPadding(w1, line, w2);
  }

  /** The commands a classification can produce: queries and chat text are stripped, and
      chat text is neither empty nor a keyword nor prefixed by a marker. */
  predicate Canonical(c: Command) {
    match c
    case Search(q) => Trimmed(q)
    case Wiki(q) => Trimmed(q)
    case Chat(t) =>
      && t != [] && Trimmed(t)
      && Lower(t) !in ExitWords && Lower(t) != ClearWord
      && !StartsWith(Lower(t), SearchMarker) && !StartsWith(Lower(t), WikiMarker)
    case _ => true
  }

  /** A line a user could type to issue `c`. */
  function Render(c: Command): String {
    match c
    case Exit => "exit"
    case Clear => ClearWord
    case Skip => []
    case Search(q) => SearchMarker + q
    case Wiki(q) => WikiMarker + q
    case Chat(t) => t
  }

  lemma ClassifyIsCanonical(line: String)
    ensures Canonical(Classify(line))
  {
  }

  lemma MarkerLineTrimmed(marker: String, q: String)
    requires marker == SearchMarker || marker == WikiMarker
    requires Trimmed(q)
    ensures Trimmed(marker + q)
  {
    var line := marker + q;
    assert line[0] == marker[0];
    if q != [] {
      assert line[|line| - 1] == q[|q| - 1];
    } else {
      assert line == marker;
    }
  }

  lemma MarkersAreLower()
    ensures Lower(SearchMarker) == SearchMarker && Lower(WikiMarker) == WikiMarker
  {
    LowerOfLower(SearchMarker);
    LowerOfLower(WikiMarker);
  }

  /** A stripped line that starts with a marker, whatever its case, is that marker's command
      with the rest of the line, stripped, as the query. */
  lemma MarkerClassified(line: String, marker: String, q: String)
    requires marker == SearchMarker || marker == WikiMarker
    requires Trimmed(line) && StartsWith(Lower(line), marker)
    requires Strip(line[|marker|..]) == q
    ensures Classify(line) == if marker == SearchMarker then Search(q) else Wiki(q)
  {
    StripTrimmed(line);
    KeywordFacts();
    MarkersExclusive(Lower(line));
  }

  /** A canonical chat text is forwarded unchanged. */
  lemma ChatClassified(t: String)
    requires Canonical(Chat(t))
    ensures Classify(t) == Chat(t)
  {
    StripTrimmed(t);
  }

  /** A marker followed by a stripped query is already stripped, and classifying it gives
      back the marker's branch with the query. */
  lemma MarkerLine(marker: String, q: String)
    requires marker == SearchMarker || marker == WikiMarker
    requires Trimmed(q)
    ensures Classify(marker + q) == if marker == SearchMarker then Search(q) else Wiki(q)
  {
    var line := marker + q;
    MarkerLineTrimmed(marker, q);
    MarkerSurvivesLower(marker, q);
    assert line[|marker|..] == q;
    StripTrimmed(q);
    MarkerClassified(line, marker, q);
  }

  /** A keyword typed on its own is recognised as that keyword. */
  lemma KeywordClassified(w: String)
    requires w == "exit" || w == ClearWord
    ensures Classify(w) == if w == ClearWord then Clear else Exit
  {
    assert Strip(w) == w by {
      StripUnique([], w, []);
      assert [] + w + [] == w;
    }
    assert Lower(w) == w by {
      LowerOfLower(w);
    }
  }

  /** Rendering a canonical command and classifying the line gives the command back. */
  lemma ClassifyRender(c: Command)
    requires Canonical(c)
    ensures Classify(Render(c)) == c
  {
    match c
    case Exit =>
      KeywordClassified("exit");
    case Clear =>
      KeywordClassified(ClearWord);
    case Skip =>
      StripUnique([], [], []);
    case Search(q) =>
      MarkerLine(SearchMarker, q);
    case Wiki(q) =>
      MarkerLine(WikiMarker, q);
    case Chat(t) =>
      ChatClassified(t);
  }

  /** A line that starts with a marker keeps it when lowered. */
  lemma MarkerSurvivesLower(marker: String, rest: String)
    requires marker == SearchMarker || marker == WikiMarker
    ensures StartsWith(Lower(marker + rest), marker)
  {
    var line := marker + rest;
    LowerPrefix(line, |marker|);
    assert line[..|marker|] == marker;
    MarkersAreLower();
  }

  /** A search line with whitespace between the marker and a non-empty stripped query. */
  lemma PaddedMarkerFacts(w: String, q: String)
    requires AllSpace(w) && Trimmed(q) && q != []
    ensures Trimmed(SearchMarker + (w + q))
    ensures StartsWith(Lower(SearchMarker + (w + q)), SearchMarker)
    ensures Strip((SearchMarker + (w + q))[|SearchMarker|..]) == q
  {
    var line := SearchMarker + (w + q);
    assert Trimmed(line) by {
      assert line[0] == 's' && line[|line| - 1] == q[|q| - 1];
    }
    MarkerSurvivesLower(SearchMarker, w + q);
    assert Strip(line[|SearchMarker|..]) == q by {
      assert line[|SearchMarker|..] == w + q + [];
      StripUnique(w, q, []);
    }
  }

  /** Whitespace around the line and between the marker and the query never reaches the
      search collaborator. */
  lemma PaddedSearch(w1: String, w: String, q: String, w2: String)
    requires AllSpace(w1) && AllSpace(w) && AllSpace(w2)
    requires Trimmed(q)
    ensures Classify(w1 + (SearchMarker + (w + q)) + w2) == Search(q)
  {
    var line := SearchMarker + (w + q);
    if q == [] {
      // the whitespace after a bare marker is trailing whitespace of the line
      assert w1 + line + w2 == w1 + SearchMarker + (w + w2);
      AllSpaceConcat(w, w2);
      ClassifyIgnoresPadding(w1, SearchMarker, w + w2);
      assert SearchMarker + [] == SearchMarker;
      MarkerLine(SearchMarker, []);
    } else {
      ClassifyIgnoresPadding(w1, line, w2);
      PaddedMarkerFacts(w, q);
      MarkerClassified(line, SearchMarker, q);
    }
  }

  lemma PaddedSearchExample()
    ensures Classify("  search:  rust  ") == Search("rust")
  {
    assert "  search:  rust  " == "  " + (SearchMarker + ("  " + "rust")) + "  ";
    PaddedSearch("  ", "  ", "rust", "  ");
  }

  /** The example line below is stripped, lower-case, and neither a keyword nor marked. */
  lemma ChatExampleFacts(line: String)
    requires line == "what does wiki: mean"
    ensures line !in ExitWords && line != ClearWord && Trimmed(line) && line != []
    ensures !StartsWith(line, SearchMarker) && !StartsWith(line, WikiMarker)
  {
    KeywordFacts();
    assert |line| == 20;
    assert line[..|SearchMarker|][0] == 'w';
    assert line[..|WikiMarker|][1] == 'h';
  }

  /** A marker later in the text is plain chat content. */
  lemma MarkerInsideTextIsChat()
    ensures Classify("what does wiki: mean") == Chat("what does wiki: mean")
  {
    ChatExampleFacts("what does wiki: mean");
    LowerOfLower("what does wiki: mean");
    ChatClassified("what does wiki: mean");
  }


  /** Collaborators seen by one iteration: the chat service and the two lookup libraries. */
  datatype Collaborators = Collaborators(
    service: BotCore.Request -> Result<String, String>,
    ddgs: BotCore.SearchLibrary,
    wiki: BotCore.WikiLibrary)

  /** What the loop did with one line, with the call it made and the text it printed. */
  datatype Effect =
    | Stopped
    | Cleared
    | Ignored
    | Searched(query: String, output: String)
    | LookedUp(query: String, output: String)
    | Chatted(request: BotCore.Request, output: String)

  datatype StepResult = StepResult(bot: BotCore.Bot, effect: Effect)

  /** The bot `main` builds before its loop: the default model, and the credential from the
      environment, whose absence ends the program before any line is read. */
  function StartBot(apiKey: Option<String>): (r: Result<BotCore.Bot, String>)
    ensures r.Success? <==> apiKey.Some? && apiKey.value != []
    ensures r.Success? ==> r.value == BotCore.Bot(apiKey.value, BotCore.DefaultModel, [])
    ensures r.Failure? ==> r.error == BotCore.MissingKeyMessage
  {
    BotCore.NewBot(apiKey)
  }

  /** One iteration of the `while True` loop in `main`. */
  function Step(bot: BotCore.Bot, line: String, env: Collaborators): (r: StepResult)
    // exactly one collaborator call per line, of the kind the line asks for
    ensures r.effect.Stopped? <==> Classify(line) == Exit
    ensures r.effect.Stopped? <==> IsExitLine(line)
    ensures r.effect.Cleared? <==> Classify(line) == Clear
    ensures r.effect.Ignored? <==> Classify(line) == Skip
    ensures r.effect.Searched? <==> Classify(line).Search?
    ensures r.effect.LookedUp? <==> Classify(line).Wiki?
    ensures r.effect.Chatted? <==> Classify(line).Chat?
    ensures r.effect.Searched? ==>
              r.effect.query == Classify(line).query
              && r.effect.output == BotCore.SearchWeb(env.ddgs, r.effect.query)
    ensures r.effect.LookedUp? ==>
              r.effect.query == Classify(line).query
              && r.effect.output == BotCore.GetWikipedia(env.wiki, r.effect.query)
    // a chat line is sent, stripped, through the bot, which moves on to the bot `chat` leaves
    ensures Classify(line).Chat? ==>
              var ex := BotCore.Chat(bot, Strip(line), env.service);
              r.bot == ex.bot && r.effect == Chatted(ex.request, ex.response)
    // only chat and clear touch the bot, and only its history
    ensures !r.effect.Chatted? && !r.effect.Cleared? ==> r.bot == bot
    ensures r.effect.Cleared? ==> r.bot.history == []
    ensures r.bot.apiKey == bot.apiKey && r.bot.model == bot.model
    ensures BotCore.Valid(bot) ==> BotCore.Valid(r.bot)
  {
    match Classify(line)
    case Exit => StepResult(bot, Stopped)
    case Clear => StepResult(BotCore.ClearMemory(bot), Cleared)
    case Skip => StepResult(bot, Ignored)
    case Search(q) => StepResult(bot, Searched(q, BotCore.SearchWeb(env.ddgs, q)))
    case Wiki(q) => StepResult(bot, LookedUp(q, BotCore.GetWikipedia(env.wiki, q)))
    case Chat(t) =>
      var ex := BotCore.Chat(bot, t, env.service);
      StepResult(ex.bot, Chatted(ex.request, ex.response))
  }

  /** One typed line, with the collaborators as they answer while that line is handled: the
      service and the libraries may answer the same request differently on another line. */
  datatype Input = Input(line: String, env: Collaborators)

  /** What an effect reveals about the line that caused it, whatever the bot held: the call
      follows the line's command, lookups use the classified query, and a chat sends the
      stripped line as the newest turn and shows the service's reply or the apology for its
      error. */
  predicate Dispatches(input: Input, e: Effect) {
    var c := Classify(input.line);
    && (e.Stopped? <==> c == Exit)
    && (e.Cleared? <==> c == Clear)
    && (e.Ignored? <==> c == Skip)
    && (e.Searched? <==> c.Search?)
    && (e.LookedUp? <==> c.Wiki?)
    && (e.Chatted? <==> c.Chat?)
    && (e.Searched? ==> e.query == c.query && e.output == BotCore.SearchWeb(input.env.ddgs, e.query))
    && (e.LookedUp? ==> e.query == c.query && e.output == BotCore.GetWikipedia(input.env.wiki, e.query))
    && (e.Chatted? ==>
          var msgs := e.request.messages;
          var answer := input.env.service(e.request);
          && msgs != [] && msgs[|msgs| - 1] == BotCore.Turn(BotCore.User, Strip(input.line))
          && e.output == if answer.Success? then answer.value else BotCore.ApologyFor(answer.error))
  }

  /** Whatever the bot held, one iteration's effect dispatches its line. */
  lemma StepDispatches(bot: BotCore.Bot, input: Input)
    ensures Dispatches(input, Step(bot, input.line, input.env).effect)
  {
  }

  /** The bot after a session, one effect per line processed, and whether an exit word
      ended it. */
  datatype Session = Session(bot: BotCore.Bot, effects: seq<Effect>, exited: bool)

  /** The position of the first exit line, or `|inputs|` when there is none. */
  function FirstExit(inputs: seq<Input>): (n: nat)
    ensures n <= |inputs|
    ensures forall k | 0 <= k < n :: !IsExitLine(inputs[k].line)
    ensures n < |inputs| ==> IsExitLine(inputs[n].line)
  {
    if inputs == [] then 0
    else if IsExitLine(inputs[0].line) then 0
    else
      var n := 1 + FirstExit(inputs[1..]);
      assert forall k | 1 <= k < n :: inputs[k].line == inputs[1..][k - 1].line;
      n
  }

  /** The loop over the lines typed: one effect per line up to and including the first exit
      line, and nothing for the lines after it. */
  function Run(bot: BotCore.Bot, inputs: seq<Input>): (r: Session)
    ensures r.exited <==> FirstExit(inputs) < |inputs|
    ensures |r.effects| == if r.exited then FirstExit(inputs) + 1 else |inputs|
    ensures r.bot.apiKey == bot.apiKey && r.bot.model == bot.model
    ensures BotCore.Valid(bot) ==> BotCore.Valid(r.bot)
    decreases |inputs|
  {
    if inputs == [] then Session(bot, [], false)
    else
      var s := Step(bot, inputs[0].line, inputs[0].env);
      if s.effect.Stopped? then
        Session(s.bot, [Stopped], true)
      else
        var rest := Run(s.bot, inputs[1..]);
        assert ([s.effect] + rest.effects)[1..] == rest.effects;
        Session(rest.bot, [s.effect] + rest.effects, rest.exited)
  }

  /** One turn of the loop, seen from the session: the first line's effect comes first, and
      unless it stopped the loop the rest of the session follows from the bot it left. */
  lemma RunCons(bot: BotCore.Bot, inputs: seq<Input>)
    requires inputs != []
    ensures var s := Step(bot, inputs[0].line, inputs[0].env);
            var rest := Run(s.bot, inputs[1..]);
            Run(bot, inputs)
            == if s.effect.Stopped? then Session(s.bot, [Stopped], true)
               else Session(rest.bot, [s.effect] + rest.effects, rest.exited)
  {
  }

  /** Each effect dispatches the line at the same position. */
  predicate AllDispatch(inputs: seq<Input>, effects: seq<Effect>) {
    |effects| <= |inputs| && forall k | 0 <= k < |effects| :: Dispatches(inputs[k], effects[k])
  }

  lemma AllDispatchCons(inputs: seq<Input>, e: Effect, effects: seq<Effect>)
    requires inputs != [] && Dispatches(inputs[0], e) && AllDispatch(inputs[1..], effects)
    ensures AllDispatch(inputs, [e] + effects)
  {
    forall k | 0 <= k < |[e] + effects|
      ensures Dispatches(inputs[k], ([e] + effects)[k])
    {
      if k > 0 {
        assert ([e] + effects)[k] == effects[k - 1] && inputs[k] == inputs[1..][k - 1];
      }
    }
  }

  /** Effect `k` of a session dispatches line `k`, whatever the earlier lines did to the
      bot. */
  lemma {:induction false} RunDispatches(bot: BotCore.Bot, inputs: seq<Input>)
    ensures AllDispatch(inputs, Run(bot, inputs).effects)
    decreases |inputs|
  {
    if inputs != [] {
      var s := Step(bot, inputs[0].line, inputs[0].env);
      StepDispatches(bot, inputs[0]);
      RunCons(bot, inputs);
      if s.effect.Stopped? {
        assert Run(bot, inputs).effects == [Stopped] + [];
        AllDispatchCons(inputs, Stopped, []);
      } else {
        RunDispatches(s.bot, inputs[1..]);
        AllDispatchCons(inputs, s.effect, Run(s.bot, inputs[1..]).effects);
      }
    }
  }

  /** No effect chatted or cleared: the only two that change the bot. */
  predicate Quiet(effects: seq<Effect>) {
    forall k | 0 <= k < |effects| :: !effects[k].Chatted? && !effects[k].Cleared?
  }

  lemma QuietCons(e: Effect, effects: seq<Effect>)
    requires Quiet([e] + effects)
    ensures !e.Chatted? && !e.Cleared? && Quiet(effects)
  {
    assert e == ([e] + effects)[0];
    assert forall k | 0 <= k < |effects| :: effects[k] == ([e] + effects)[k + 1];
  }

  /** A session in which no line chatted or cleared leaves the bot as it was. */
  lemma {:induction false} RunKeepsBot(bot: BotCore.Bot, inputs: seq<Input>)
    ensures Quiet(Run(bot, inputs).effects) ==> Run(bot, inputs).bot == bot
    decreases |inputs|
  {
    if inputs != [] {
      var s := Step(bot, inputs[0].line, inputs[0].env);
      RunCons(bot, inputs);
      if !s.effect.Stopped? {
        var rest := Run(s.bot, inputs[1..]);
        RunKeepsBot(s.bot, inputs[1..]);
        if Quiet([s.effect] + rest.effects) {
          QuietCons(s.effect, rest.effects);
        }
      }
    }
  }

  lemma LastOfCons(e: Effect, effects: seq<Effect>)
    ensures effects != [] ==> ([e] + effects)[|effects|] == effects[|effects| - 1]
  {
  }

  /** A session that an exit word ended has the stop as its last effect. */
  lemma {:induction false} StopEndsSession(bot: BotCore.Bot, inputs: seq<Input>)
    ensures var r := Run(bot, inputs);
            r.exited ==> r.effects[|r.effects| - 1] == Stopped
    decreases |inputs|
  {
    if inputs != [] {
      var s := Step(bot, inputs[0].line, inputs[0].env);
      RunCons(bot, inputs);
      if !s.effect.Stopped? {
        var rest := Run(s.bot, inputs[1..]);
        StopEndsSession(s.bot, inputs[1..]);
        LastOfCons(s.effect, rest.effects);
      }
    }
  }

  /** The loop's bookkeeping: the effects so far followed by the session that the
      remaining lines produce make up the whole session. */
  predicate Splits(whole: Session, effects: seq<Effect>, bot: BotCore.Bot, rest: seq<Input>) {
    var tail := Run(bot, rest);
    whole.effects == effects + tail.effects && whole.bot == tail.bot && whole.exited == tail.exited
  }

  /** Processing one more line keeps the bookkeeping, or completes the session when the
      line is an exit word. */
  lemma RunAdvance(whole: Session, effects: seq<Effect>, bot: BotCore.Bot, inputs: seq<Input>, i: nat)
    requires i < |inputs| && Splits(whole, effects, bot, inputs[i..])
    ensures var s := Step(bot, inputs[i].line, inputs[i].env);
            if s.effect.Stopped? then whole == Session(s.bot, effects + [Stopped], true)
            else Splits(whole, effects + [s.effect], s.bot, inputs[i + 1..])
  {
    var s := Step(bot, inputs[i].line, inputs[i].env);
    RunCons(bot, inputs[i..]);
    assert inputs[i..][0] == inputs[i] && inputs[i..][1..] == inputs[i + 1..];
    if !s.effect.Stopped? {
      var rest := Run(s.bot, inputs[i + 1..]);
      assert effects + ([s.effect] + rest.effects) == (effects + [s.effect]) + rest.effects;
    }
  }

  /** `main`'s loop written as a loop over the lines typed. */
  method RunLoop(bot: BotCore.Bot, inputs: seq<Input>)
    returns (final: BotCore.Bot, effects: seq<Effect>, exited: bool)
    ensures Session(final, effects, exited) == Run(bot, inputs)
    ensures BotCore.Valid(bot) ==> BotCore.Valid(final)
  {
    final, effects, exited := bot, [], false;
    var i := 0;
    ghost var whole := Run(bot, inputs);
    assert inputs[0..] == inputs;
    while i < |inputs| && !exited
      invariant 0 <= i <= |inputs|
      invariant !exited ==> Splits(whole, effects, final, inputs[i..])
      invariant exited ==> whole == Session(final, effects, true)
    {
      var s := Step(final, inputs[i].line, inputs[i].env);
      RunAdvance(whole, effects, final, inputs, i);
      exited := s.effect.Stopped?;
      final := s.bot;
      effects := effects + [s.effect];
      i := i + 1;
    }
    if !exited {
      assert inputs[i..] == [];
    }
  }

  /** Lines after an exit word are never read and reach no collaborator. */
  lemma ExitEndsSession(bot: BotCore.Bot, input: Input, rest: seq<Input>)
    requires Classify(input.line) == Exit
    ensures Run(bot, [input] + rest) == Session(bot, [Stopped], true)
  {
  }
}
