# Knowledge bot: conversation window and command loop, in Dafny

This project models the two deterministic parts of a small command-line knowledge bot.

The first part is the conversation bookkeeping of `DeepSeekBot` (`bot_core.py`):
- Each `chat` call appends the user turn and keeps only the last six turns.
- It sends those turns to a remote chat-completion service.
- It then either appends the reply or returns an apology that quotes the first hundred characters of the error.
- `clear_memory` empties the history.
- `search_web` and `get_wikipedia` turn a search library's answers into Markdown text.

The second part is the read-eval loop of `cli_bot.py`. Each line is stripped and classified as exit, clear, empty, `search:`, `wiki:` or chat, then dispatched to the bot.

Modules:
- `Results` (`results.dfy`): `Option` and `Result`.
- `Text` (`text.dfy`): Python's `strip`, `lower`, `startswith`, `s[:n]` and `str(n)` on `seq<char>`.
- `BotCore` (`bot_core.dfy`): the bot.
- `CliBot` (`cli_bot.dfy`): the classifier, one loop iteration (`Step`), and the loop over a whole session, both as a recursive function (`Run`) and as a loop (`RunLoop`).

Everything outside the process is an input:
- The chat service is a total function from the request the bot builds to `Success(reply)` or `Failure(text of the exception)`. A transport error, a non-2xx status and a reply without `choices[0].message.content` all arrive as `Failure`.
- The search library is either missing (the `ImportError` branch) or a function from a query to the hits or an error text. The Wikipedia library is either missing or a title search plus a page fetch, each of which may fail.
- A session is the sequence of lines the user typed. Each line comes with the collaborators as they answer while that line is handled, so a request that timed out on one line may succeed when it is sent again on a later one.

Between two calls the history holds up to seven turns, not six. The trim happens before the reply is appended, so four successful turns from an empty history leave `[a1, u2, a2, u3, a3, u4, a4]`. What is sent to the service never exceeds six turns. The model follows the code here: `FourTurnTrace` proves the seven-turn history and `Valid` is the seven-turn bound.

## Model

| member | source | states |
|---|---|---|
| Text.Strip | cli_bot.py:27 | the stripped text neither starts nor ends with whitespace and is no longer than the input |
| Text.StripCutsSpace | cli_bot.py:27 | what `strip()` removes on either side is whitespace only, and the input is the removed prefix, the result and the removed suffix, in order |
| Text.StripUnique | cli_bot.py:27 | a text with no whitespace at its ends, padded by any whitespace, strips back to exactly that text |
| Text.StripIgnoresPadding | cli_bot.py:27 | adding whitespace on either side of a line never changes what `strip()` returns |
| Text.StripIdempotent | cli_bot.py:48 | stripping an already stripped text changes nothing, so stripping the query of a stripped line is well defined |
| Text.Lower | cli_bot.py:30 | `lower()` keeps the length and lowers each ASCII letter in place |
| Text.LowerPrefix | cli_bot.py:47-48 | lowering commutes with taking a prefix, so the case-insensitive prefix test and the slice `[7:]` of the unlowered line refer to the same characters |
| Text.LowerOfLower | cli_bot.py:30 | text without upper-case letters is its own lower case |
| Text.Take | bot_core.py:66 | `s[:n]` is the prefix of `s` of length `min(n, len(s))` |
| Text.NatToString | bot_core.py:84 | `str(i)` is a non-empty decimal numeral with no leading zero |
| Text.NatToStringRoundTrip | bot_core.py:83-84 | reading the numeral back gives the number, so block numbers are printed faithfully |
| BotCore.NewBot | bot_core.py:16-23 | a bot exists exactly when the key is set and non-empty; it starts with that key, the model (by default `deepseek/deepseek-chat`) and an empty history; otherwise the constructor fails with the missing-key message |
| BotCore.Trim | bot_core.py:31-33 | the kept history is the last `min(len, 6)` entries in their original order |
| BotCore.ApologyFor | bot_core.py:65-67 | the failure reply is the apology prefix followed by the first `min(len(err), 100)` characters of the error text |
| BotCore.Chat | bot_core.py:25-67 | the request carries the model, `max_tokens` 1000 and the last `min(len + 1, 6)` entries of the history with the new user turn appended, ending with that user turn; on success the history is the request's turns plus the reply and the reply is returned; on failure the history is exactly the request's turns and the apology is returned; key and model never change and the history stays within seven turns |
| BotCore.ClearMemory | bot_core.py:69-71 | the history becomes empty whatever it held; key and model are kept |
| BotCore.FifoEviction | bot_core.py:29-33 | once the history holds six or more turns, a request is its last five turns followed by the new message: the oldest turns are dropped first |
| BotCore.ClearForgetsContext | bot_core.py:69-71 | after clearing, the next request carries only the new message |
| BotCore.RequestTail | bot_core.py:29-33 | a request from a non-empty history always keeps the last history turn right before the new message |
| BotCore.FailedTurnLingers | bot_core.py:65-67 | a failed turn appends nothing, so its user message is still sent, unanswered, just before the next message |
| BotCore.ShortTurn | bot_core.py:29-61 | below the window, a successful call appends the user turn and the reply and drops nothing |
| BotCore.SuccessfulTurn | bot_core.py:29-61 | a successful call leaves the trimmed history followed by the reply |
| BotCore.FourTurnTrace | bot_core.py:29-63 | four successful turns from an empty history leave the seven turns `[a1, u2, a2, u3, a3, u4, a4]` |
| BotCore.AlternatesSuffix | bot_core.py:32-33 | cutting off the oldest turns of an alternating history keeps it alternating, with the same last role |
| BotCore.AlternatesAppend | bot_core.py:29 | appending a turn of the other role to an alternating history keeps it alternating |
| BotCore.RequestAlternates | bot_core.py:29-47 | from a history that alternates and ends with a reply, the request alternates and ends with the user turn |
| BotCore.SuccessKeepsAlternation | bot_core.py:29-63 | a successful turn keeps the history alternating and ending with a reply |
| BotCore.SteadyStateRequestOpensWithReply | bot_core.py:31-33 | once a successful-only conversation fills the window, every request opens with an assistant turn, so the window holds two and a half exchanges rather than three |
| BotCore.ResultBlocksAppend | bot_core.py:83-84 | the blocks of two hit lists in a row are the first list's blocks followed by the second's, numbered on from where the first stopped |
| BotCore.ResultBlocksSnoc | bot_core.py:83-84 | adding one hit at the end adds exactly its block, numbered one past the last |
| BotCore.SummarizeResults | bot_core.py:81-85 | the loop over `enumerate(results, 1)` produces the header followed by the numbered blocks of all hits in input order |
| BotCore.SearchWeb | bot_core.py:73-92 | a missing library gives the unavailable text, a failing query the error prefix plus the error, no hits the no-results text, and hits the results header followed by the numbered blocks of all hits, the same text `SummarizeResults` builds; no history is read or written |
| BotCore.SearchBlocksInOrder | bot_core.py:83-84 | hit `i` (from 0) is printed as block `i + 1`, after the blocks of all earlier hits and before those of all later hits |
| BotCore.ResultBlockShape | bot_core.py:84 | each block is the bold number and title line, then the first `min(len(body), 150)` characters of the body, then `...` and a blank line |
| BotCore.GetWikipedia | bot_core.py:94-111 | a missing library gives the unavailable text, a failing search or page fetch the error prefix plus the error, no title the no-article text, and otherwise the article text of the first title's page; no history is read or written |
| BotCore.ArticleTextShape | bot_core.py:104 | the article text is the bold title header, then the first `min(len(summary), 500)` characters of the summary, then `...` |
| CliBot.MarkersExclusive | cli_bot.py:47-52 | no line starts with both `search:` and `wiki:`, so the order of the two tests never matters |
| CliBot.Classify | cli_bot.py:27-59 | on the stripped, lowered line: exit exactly for an exit word, clear exactly for `clear`, skip exactly for an empty line, search exactly for a `search:` prefix, wiki exactly for a `wiki:` prefix; the query is the rest of the stripped line after the prefix, stripped; chat forwards the stripped line |
| CliBot.ClassifyIgnoresPadding | cli_bot.py:27 | whitespace around a line never changes the command or its text |
| CliBot.ClassifyIsCanonical | cli_bot.py:27-59 | every query and chat text produced is stripped, and chat text is non-empty and neither a keyword nor marked |
| CliBot.MarkerLineTrimmed | cli_bot.py:47-53 | a marker followed by a stripped query is itself stripped |
| CliBot.MarkersAreLower | cli_bot.py:47-52 | the markers are their own lower case |
| CliBot.MarkerSurvivesLower | cli_bot.py:47-52 | a line starting with a marker still starts with it after lowering |
| CliBot.MarkerClassified | cli_bot.py:47-55 | a stripped line whose lower case starts with a marker is dispatched to that marker's lookup with the stripped rest as query |
| CliBot.ChatClassified | cli_bot.py:57-59 | a stripped, non-empty text that is no keyword and carries no marker is forwarded to chat unchanged |
| CliBot.MarkerLine | cli_bot.py:47-55 | a marker followed by a stripped query is classified as that lookup with that query |
| CliBot.KeywordClassified | cli_bot.py:30-38 | typing `exit` exits and typing `clear` clears |
| CliBot.ClassifyRender | cli_bot.py:27-59 | every command the classifier can produce has a line that classifies back to it |
| CliBot.PaddedMarkerFacts | cli_bot.py:47-48 | `search:` followed by whitespace and a stripped query is stripped, is marked, and its rest strips to the query |
| CliBot.PaddedSearch | cli_bot.py:47-50 | whitespace around the line or between `search:` and the query never reaches the search collaborator; with nothing after the marker the search is for the empty query |
| CliBot.PaddedSearchExample | cli_bot.py:47-48 | `"  search:  rust  "` searches for `rust` |
| CliBot.MarkerInsideTextIsChat | cli_bot.py:52-59 | a marker later in the line does not trigger a lookup: the whole line goes to chat |
| CliBot.StartBot | cli_bot.py:23 | the loop's bot has the default model, the credential from the environment and an empty history; a missing or empty credential stops the program with the missing-key message before any line is read |
| CliBot.Step | cli_bot.py:27-59 | one iteration makes exactly the call the line's command asks for: stop exactly on an exit line, clear only the history on `clear`, nothing on an empty line, search or look up the classified query without touching the bot, or send the stripped line to `chat` and continue with the bot, request and reply that call produces; key and model never change and the seven-turn bound is kept |
| CliBot.StepDispatches | cli_bot.py:27-59 | whatever the bot holds, an iteration's effect matches its line: the kind of call follows the command, lookups use the classified query and show the library's text, and a chat sends the stripped line as the newest turn and shows the service's reply or the apology for its error |
| CliBot.FirstExit | cli_bot.py:30-32 | the position of the first exit line: no earlier line is one |
| CliBot.Run | cli_bot.py:25-62 | a session ends by exit exactly when some line is an exit line; it records one effect per line up to and including the first exit line, or one per line when there is none; key, model and the seven-turn bound are kept |
| CliBot.RunDispatches | cli_bot.py:25-62 | effect `k` of a session dispatches line `k` with the collaborators of that line, whatever the earlier lines did to the bot |
| CliBot.RunKeepsBot | cli_bot.py:34-55 | a session in which no line chatted or cleared ends with the bot it started with: searches, lookups and empty lines never touch it |
| CliBot.StopEndsSession | cli_bot.py:30-32 | a session that ended by exit has the stop as its last effect |
| CliBot.RunAdvance | cli_bot.py:25-62 | processing one more line keeps the loop's account of the session, or completes it on an exit line |
| CliBot.RunLoop | cli_bot.py:25-62 | the `while True` loop yields the same final bot, effects and exit flag as the recursive session |
| CliBot.ExitEndsSession | cli_bot.py:30-32 | after an exit line no further line is read and no collaborator is called |

## Left out

- HTTP transport, headers, URL, the 30-second timeout and JSON decoding (bot_core.py:35-58): the service's answer is an input; every way the call can raise becomes `Failure` with the exception text.
- `temperature` (bot_core.py:21, 45): a float passed through untouched; the request carries only model, messages and `max_tokens`.
- `base_url` (bot_core.py:22): a constant of the transport.
- Reading the key from the environment and `.env` (bot_core.py:10, 17): `NewBot` takes the key as an `Option`.
- The search library's `max_results=3` and Wikipedia's `results=1` caps, `set_lang("en")`, and the exact `str(e)` texts (bot_core.py:79, 98, 101): the libraries' answers and error texts are inputs, so the model holds for any number of hits and titles.
- A reply whose `content` is not a string, and hits without `title` or `body` keys: hits and replies are typed records in the model.
- Text.Lower: lowers ASCII letters only; Python's `lower()` also changes non-ASCII letters and can lengthen a string, which would misalign the `[7:]` and `[5:]` slices. Input is assumed ASCII.
- Text.Strip: treats as whitespace the ASCII characters Python's `isspace()` accepts (space, `\t`, `\n`, `\v`, `\f`, `\r`, 0x1C-0x1F) and no non-ASCII spaces.
- Printing, the prompt and `input()` (cli_bot.py:12-21, 27, 31, 37, 44, 49, 54, 61-62): the effects record what was printed as a response, and the lines typed are an input.
- End of input, `KeyboardInterrupt` and the generic exception handler (cli_bot.py:64-68): `input()` raising `EOFError` is caught by the generic handler and the source loops on; the model's session ends when the lines run out.
- `app.py`: Streamlit glue with its own, unstripped copy of the prefix dispatch and a call to an undefined `KnowledgeBot`; it is not part of this model.
