# Gomoku match-log parser and prompt builders

A Dafny model of the part of LLM-in-ChessBoard that reads recorded Gomoku
matches and turns them into prompts. The match logs are line-oriented text:

```
game:<int>                 (files of several games only)
player:<int>
x,y:(<int>,<int>)
state:
[<int>,...,<int>]          (board_size rows)
...
winner:<int>
```

Two near-identical copies of the reader exist, and both are modelled:

- `GomokuReflexion.parse_games` in reflexion_each_game.py reads a file of
  several games. Each game is opened by a `game:` line. A game is kept only
  when its `winner:` line is reached.
- `GomokuReflexion.parse_game` in evaluator.py reads a file of one game. It
  returns at its first `winner:` line, or with winner `None` at the end of
  the input.

The model also covers `read_game_file`'s line filter, which strips every line
and drops the blank ones. It covers both `generate_win_experience_prompt`
functions as well.

## How the model is organised

- `Text`: the Python string operations the code relies on. These are
  `strip()`, `strip(chars)`, `startswith`, `split`, `str(int)` and the
  decimal subset of `int(str)`.
- `GameLog`: the records, given as `Turn` and `Game`. Each line is read into
  a `LineView`: which `startswith` test it passes, and what the
  `int(...split(":")[1].strip())`, move and row conversions give for it.
  Recognising one turn is shared by both parsers: the function `TurnStep`,
  its imperative form `ReadTurn`, and `ReadStateRows` for the row loop.
- `LogWriter`: a writer of well-formed logs. It is the inverse the parsers
  are proved against.
- `ReflexionEachGame` and `Evaluator`: one module per source file. Each
  holds:
  - the parser as a step function (one loop iteration) and a run function
    (`RunGames`, `RunGame`);
  - the imperative parser (`ParseGames`, `ParseGame`), a loop over the line
    views proved to return what the run function returns;
  - round trips, soundness, and the inputs on which the parser never
    returns;
  - the prompt builder.
- `LineFilter`: the comprehension `[line.strip() for line in file if line.strip()]`.
- `PromptText`: the text one turn adds to a prompt, and the `prompt += ...`
  fold that both builders run.

A Python call either returns, raises, or loops forever. This is modelled by
`Outcome`, which is `Done(value)`, `Raised(ValueError | IndexError)` or
`Stuck`. `Stuck` is what the machine gives when the loop reaches an iteration
that changes no variable, so the Python loop would run forever.

Three behaviours of the code are kept as written:

- An unrecognised line is not skipped. Inside a game block
  (reflexion_each_game.py:37-60) or at the top level (evaluator.py:34-56)
  it never moves the cursor, so the model gives `Stuck`.
- Row length is never checked, so a row of any non-zero length is read.
- `parse_games` drops a game without a `winner:` line (`DroppedBlock`).
  `parse_game` returns such a game with winner `None`.

## Model

| member | source | states |
|---|---|---|
| Text.StripBySpec | reflexion_each_game.py:67 | `strip` leaves the infix of the line that neither starts nor ends with a stripped character, and every character removed from either end is one the strip removes |
| Text.StripIdempotent | reflexion_each_game.py:67 | stripping a stripped line changes nothing |
| Text.SplitSpec | reflexion_each_game.py:34 | `split(sep)` gives at least one part; it gives two or more exactly when the separator occurs; no part contains the separator |
| Text.SplitTwoParts | reflexion_each_game.py:43 | `split(sep)` gives exactly two pieces exactly when the separator occurs once, and then the first piece ends at that separator |
| Text.SplitAtOnly | reflexion_each_game.py:43 | splitting at a separator that occurs once gives the text before it and the text after it |
| Text.JoinSplit | reflexion_each_game.py:34 | joining the parts of a split with the separator gives back the line |
| Text.ParseInt | evaluator.py:36 | `int()` succeeds exactly on a stripped text that is an optionally signed run of ASCII digits; a negative value comes only from a leading minus sign |
| Text.ParseIntStrips | reflexion_each_game.py:34 | `int(s)` is `int(s.strip())` |
| Text.ParseIntDecimal | reflexion_each_game.py:34 | `int()` of a run of ASCII digits is its base-10 value |
| Text.ParseIntPlus | reflexion_each_game.py:34 | `int("+" + d)` is `int(d)` for a run of digits `d` |
| Text.ParseIntMinus | reflexion_each_game.py:34 | `int("-" + d)` is minus the base-10 value of `d` |
| Text.ParseIntLeadingZero | reflexion_each_game.py:34 | leading zeros do not change what `int()` gives |
| Text.ParseIntCanonical | reflexion_each_game.py:34 | a run of digits without a leading zero reads as the integer that `str` writes as those digits |
| Text.ParseIntToString | evaluator.py:36 | `int(str(n)) == n` for every integer |
| GameLog.Number | reflexion_each_game.py:39 | `int(line.split(":")[1].strip())` gives a number only when the line holds a colon |
| GameLog.KeyLineHasField | reflexion_each_game.py:33-39 | a line that starts with one of the keys has a field after its colon, so the `[1]` of the lines the parsers read never raises IndexError |
| GameLog.MoveText | reflexion_each_game.py:43 | `map(int, move_str.strip("()").split(","))` unpacked into `x, y` gives a move only when the text, stripped of parentheses, holds exactly one comma with an integer on either side, and the move is those two integers |
| GameLog.MoveTextSpec | reflexion_each_game.py:43 | a move text with exactly one comma reads as the two integers on either side of it, or raises ValueError when either side is not an integer |
| GameLog.MoveOf | reflexion_each_game.py:42-43 | the move of an `x,y:` line is read only when the line holds a colon |
| GameLog.ParseRow | reflexion_each_game.py:50 | a row that reads holds at least one integer: `[]` reads as `int("")`, a ValueError |
| GameLog.ViewsAppend | reflexion_each_game.py:32-62 | the view of a file split in two is the views of its two parts, one after the other |
| GameLog.TagOfSpec | evaluator.py:35-53 | a line's tag is `GameTag`, `PlayerTag`, `MoveTag`, `StateTag` or `WinnerTag` exactly when it starts with `game:`, `player:`, `x,y:`, `state:` or `winner:` |
| GameLog.ParseIntsSpec | reflexion_each_game.py:50 | `map(int, fields)` succeeds exactly when every field is an integer, and then gives one value per field, in order |
| GameLog.ParseRows | reflexion_each_game.py:48-52 | the row loop always ends, and a board it reads has exactly `board_size` rows |
| GameLog.ParseRowsValueError | reflexion_each_game.py:48-52 | the row loop raises ValueError exactly when one of the lines it reads before the end of input is not a list of integers |
| GameLog.ParseRowsSpec | reflexion_each_game.py:48-52 | the row loop never loops forever; it reads the board exactly when all `board_size` lines exist and are rows, and then row k is line k's integers; it raises IndexError exactly when it runs out of lines that are all rows; row length is not checked |
| GameLog.TurnStep | reflexion_each_game.py:38-55 | from a `player:` line: a turn is emitted only when it is recognised there, and the cursor moves past its `3 + board_size` lines; a bad player number raises ValueError; a good player number followed by an `x,y:` line whose move is not two integers raises ValueError; `player:` or `x,y:` as the last line raises IndexError; `player:` then a non-`x,y:` line consumes both lines and emits nothing; `x,y:` then a non-`state:` line emits nothing and leaves the cursor on that line; too few rows after `state:` raise IndexError; a line among the `board_size` after `state:` that is not a list of integers raises ValueError |
| GameLog.TurnStepComplete | evaluator.py:35-50 | a turn recognised at a `player:` line is exactly what the body emits there: player, move and all `board_size` rows |
| GameLog.ReadStateRows | evaluator.py:45-49 | the imperative row loop returns what the row-reading specification gives, including which exception |
| GameLog.ReadTurn | evaluator.py:35-52 | the imperative turn body returns what `TurnStep` gives |
| LogWriter.RenderShows | reflexion_each_game.py:33-57 | every written line is seen by the parsers as the record it was written from: its key, its number, its move or its row |
| LogWriter.WrittenShows | reflexion_each_game.py:33-57 | in a written log, whatever lines surround it, the line at each position shows its record |
| LogWriter.TurnEntriesRecognised | reflexion_each_game.py:38-53 | the lines of a written turn are recognised as that turn |
| LogWriter.TurnsEntriesRecognised | reflexion_each_game.py:37-53 | the lines of written turns are recognised as those turns, one after the other and in order |
| ReflexionEachGame.GamesStep | reflexion_each_game.py:32-62 | every iteration that does not stop moves the cursor forward; the parser stops advancing exactly on a line inside a block that starts with none of `game:`, `player:`, `winner:`; the end of input returns the games closed so far; a `game:` line raises ValueError when its number is not an integer and otherwise opens an empty block; outside a block any other line is skipped; a `winner:` line inside a block raises ValueError when its number is not an integer and otherwise adds the game with the turns of its block and that number; a `player:` line inside a block raises whatever reading the turn raises, and otherwise the loop resumes where the reading stopped, with the emitted turn appended |
| ReflexionEachGame.RunGames | reflexion_each_game.py:32-62 | running the loop to its end keeps every game already collected, in front of those collected later |
| ReflexionEachGame.ParseGames | reflexion_each_game.py:29-63 | the nested imperative loops end exactly as the state machine does: the same games, the same exception, or `Stuck` |
| ReflexionEachGame.DroppedBlock | reflexion_each_game.py:37-60 | a block that runs into the next `game:` line or the end of input is dropped, and parsing goes on as if it had never been opened |
| ReflexionEachGame.SkipBetweenGames | reflexion_each_game.py:61-62 | lines before the first `game:` line, and between a `winner:` line and the next `game:` line, are skipped and produce nothing |
| ReflexionEachGame.TurnsRun | reflexion_each_game.py:37-53 | recognised turns inside a block are appended in source order |
| ReflexionEachGame.OpenBlock | reflexion_each_game.py:33-36 | a `game:` line opens a new, empty block, whatever was being read |
| ReflexionEachGame.CloseBlock | reflexion_each_game.py:56-60 | a `winner:` line inside a block closes it and appends its game |
| ReflexionEachGame.BlockRun | reflexion_each_game.py:33-60 | a recognised block followed by a `game:` line or by nothing adds its game when it has a winner, and adds nothing when it has none |
| ReflexionEachGame.LogRun | reflexion_each_game.py:29-63 | recognised blocks, one after the other, give exactly their games that have a winner, in block order |
| ReflexionEachGame.WrittenLogParses | reflexion_each_game.py:29-63 | a written log of games whose turns each have `board_size` non-empty rows, after any lines that do not start with `game:`, parses back to the games that have a winner, in order; games without winner are dropped |
| ReflexionEachGame.ReadLogParses | reflexion_each_game.py:67-68 | the same through the line filter, for any leading lines that do not start with `game:` once stripped |
| ReflexionEachGame.StepSound | reflexion_each_game.py:32-62 | each iteration keeps the parser's state sound: every game collected has a winner from a `winner:` line and turns recognised in the input, and each took its own `game:` line |
| ReflexionEachGame.GamesSound | reflexion_each_game.py:29-63 | every returned game has an integer winner taken from a `winner:` line and only turns recognised in the input, and there are at most as many games as `game:` lines |
| ReflexionEachGame.StrayStuck | reflexion_each_game.py:37-60 | a `game:` line followed by a line that starts with none of `game:`, `player:`, `winner:` makes the parser never return |
| ReflexionEachGame.StrayLineStuck | reflexion_each_game.py:37-60 | a written `game:` line followed by an `x,y:`, `state:` or row line makes `parse_games` never return, whatever follows |
| ReflexionEachGame.BadGameNumberRaises | reflexion_each_game.py:33-34 | a `game:` line whose number is not an integer raises ValueError |
| ReflexionEachGame.Preamble | reflexion_each_game.py:74-76 | the opening sentence names the phase right after its first words, and the winner after the sentence about the phase |
| ReflexionEachGame.PromptOf | reflexion_each_game.py:70-84 | the prompt starts with the opening sentence, and a game without turns gives that sentence alone |
| ReflexionEachGame.WinExperiencePrompt | reflexion_each_game.py:70-84 | the imperative `+=` loop builds the preamble naming the phase and the winner, followed by the block of every turn in order |
| ReflexionEachGame.PromptTurn | reflexion_each_game.py:78-82 | the block of turn k comes after the preamble and the blocks of the turns before it, and before the blocks of the turns after it |
| ReflexionEachGame.PromptNamesWinner | reflexion_each_game.py:72-76 | two games with the same turns give the same prompt exactly when they have the same winner |
| Evaluator.GameStep | evaluator.py:34-56 | every iteration that does not stop moves the cursor forward; the loop stops advancing exactly on a line that starts with neither `player:` nor `winner:`; the end of input returns the turns with winner `None`; a game is returned only at the end of input or at a `winner:` line, with that line's number, and a `winner:` line whose number is not an integer raises ValueError; a turn is added only when it is recognised at the cursor; a `player:` line raises whatever reading the turn raises, and otherwise the loop resumes where the reading stopped, with the emitted turn appended |
| Evaluator.RunGame | evaluator.py:34-57 | running the loop to its end keeps every turn already read, in front of those read later |
| Evaluator.ParseGame | evaluator.py:31-57 | the imperative loop with its early returns ends exactly as the state machine does |
| Evaluator.TurnsRun | evaluator.py:34-50 | recognised turns are appended in source order |
| Evaluator.GameRun | evaluator.py:31-57 | recognised turns followed by a `winner:` line, or by the end of input, give that game |
| Evaluator.WrittenGameParses | evaluator.py:31-57 | a written game whose turns each have `board_size` non-empty rows parses back to itself; lines after its `winner:` line are ignored, whatever they are; a game without winner comes back with winner `None` |
| Evaluator.ReadGameParses | evaluator.py:61-62 | the same through the line filter; a game without winner may be followed by blank lines |
| Evaluator.WinnerEndsRead | evaluator.py:53-56 | once the loop reaches a `winner:` line with an integer number, lines after the read part change nothing |
| Evaluator.LaterLinesIgnored | evaluator.py:53-56 | when a file gives a game with a winner, appending any lines to it gives the same game |
| Evaluator.LastPlayerRaises | evaluator.py:35-38 | recognised turns followed by a `player:` line with a number as the last line make the parser raise IndexError |
| Evaluator.TrailingPlayerRaises | evaluator.py:35-38 | a written file of turns whose last line is a `player:` line makes `parse_game` raise IndexError |
| Evaluator.RunBacked | evaluator.py:34-56 | from a state whose turns are recognised, the returned game's turns are recognised and its winner, if any, is the number of a `winner:` line |
| Evaluator.GameSound | evaluator.py:31-57 | a game `parse_game` returns has only turns recognised in the input, and a winner taken from a `winner:` line or none |
| Evaluator.StrayLineStuck | evaluator.py:34-56 | a first line that is a `game:`, `x,y:`, `state:` or row line makes `parse_game` never return |
| Evaluator.Preamble | evaluator.py:68-71 | the opening names the file right after its first words |
| Evaluator.Closing | evaluator.py:79-82 | the closing paragraph names the winner right after its first words |
| Evaluator.PromptOf | evaluator.py:64-84 | the prompt starts with the opening, ends with the closing paragraph, and holds the turn blocks between them |
| Evaluator.WinExperiencePrompt | evaluator.py:64-84 | the imperative `+=` loop builds the preamble naming the file, the block of every turn in order, then the closing paragraph naming the winner |
| Evaluator.PromptTurn | evaluator.py:73-77 | the block of turn k comes after the preamble and the blocks of the turns before it, and before the blocks of the later turns and the closing paragraph |
| Evaluator.PromptNamesWinner | evaluator.py:79-82 | two games with the same turns give the same prompt exactly when they have the same winner |
| LineFilter.Filter | evaluator.py:61 | the filter never adds lines |
| LineFilter.FilterClean | evaluator.py:61 | every line the filter keeps is stripped and not empty |
| LineFilter.FilterAppend | evaluator.py:61 | the filter keeps the original order: filtering two parts of a file and joining them is filtering the whole |
| LineFilter.FilterMembers | evaluator.py:61 | a line comes out exactly when it is some input line, stripped, and is not empty |
| LineFilter.FilterKeepsClean | evaluator.py:61 | lines that are already stripped and not empty pass through unchanged |
| LineFilter.FilterIdempotent | reflexion_each_game.py:67 | filtering twice is filtering once |
| LineFilter.WrittenFiltered | reflexion_each_game.py:67 | a written log comes through the filter unchanged |
| PromptText.MoveString | reflexion_each_game.py:80 | `str((x, y))` reads back through the move conversion as the same move |
| PromptText.TupleTextParses | reflexion_each_game.py:80 | a tuple printed as `(x, y)` is read back by `strip("()").split(",")` and `int` as `(x, y)` |
| PromptText.WinnerText | evaluator.py:80 | `str(winner)` is `None` exactly for a missing winner, and reads back as the winner otherwise |
| PromptText.TurnBlock | reflexion_each_game.py:79-81 | the text of a turn opens by naming its player, then its move as `str` prints the tuple, and closes with the rendered board and a blank line, with nothing else between |
| PromptText.WinnerTextInjective | evaluator.py:80 | `str(winner)` tells winners apart: no number prints as `None`, and different numbers print differently |
| PromptText.ConcatAt | reflexion_each_game.py:78-82 | in a text made of an opening, the texts of the turns and a closing, the text of each turn comes after the opening and the texts of the turns before it, and before the texts of the turns after it and the closing |
| PromptText.ConcatAppend | evaluator.py:73-77 | one more iteration adds the text of the next turn at the end |
| PromptText.AppendAll | reflexion_each_game.py:78-82 | the `prompt += ...` loop leaves the starting text followed by the text of every item, in order |

## Left out

- The `LLMInterface` classes and the OpenAI client: these are network calls
  to an outside service.
- File handling and orchestration: `open` in `read_game_file`,
  `save_reflexion`, `save_analysis`, `os.listdir`, the `print` messages and
  the `__main__` blocks. Only the line filter applied to lines already read
  is modelled.
- Deep_reflexion_for_all.py is not part of this model.
- `str(np.array(state))`, numpy's rendering of a board, is the parameter
  `render` of the prompt functions.
- `int()` is modelled on the decimal subset: surrounding white space, an
  optional sign, and ASCII digits. Underscores and non-ASCII digits, which
  Python accepts, give the ValueError case here.
- `board_size` is a `nat`. A negative `board_size`, for which Python's
  `range` is empty, is not modelled.
- The game number of a `game:` line is parsed, so that a bad number raises
  ValueError, and then dropped, as the code does with `game_num`.
- The imperative parsers read each line through its `LineView`. The
  per-line conversions (`startswith`, `split`, `strip`, `int`) are
  functions, not loops.
- Phase segmentation: no code splits a game into phases. The phase is the
  string the caller passes in.
- GameLog.Number: `None` stands for both of Python's failures: `int()` raising
  ValueError, and `split(":")[1]` raising IndexError on a line without a
  colon. The parsers read the number only of a line that starts with a key,
  which has a colon (`KeyLineHasField`), so the second never happens there.
- Text.ParseInt: accepts numerals of any length. CPython 3.11 and later
  raise ValueError for a numeral of more than 4300 digits.
- LineFilter.Filter: its own contract bounds only the count. What it keeps
  is stated by FilterMembers, FilterClean and FilterAppend.
- The fixed sentences of both prompts are kept verbatim, but no lemma
  inspects their content beyond placing them.
- ReflexionEachGame.GamesSound: for arbitrary input, it does not state that
  the returned games follow the order of their `game:` lines. Order is
  stated for written logs, by WrittenLogParses.
- Evaluator.GameSound, ReflexionEachGame.GamesSound: "recognised in the
  input" means each turn occurs somewhere in the input. The position is not
  tied to the turn's place in the game.
- The round trips are stated for turns whose rows are not empty. A row
  written as `[]` reads back as `int("")`, which raises ValueError.
