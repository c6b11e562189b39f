/** `GomokuReflexion.parse_game` of evaluator.py: the parser of a file holding
    one game, whose turns are read until its `winner:` line or the end of
    input.

    `RunGame` is the parser as a state machine over the views of the lines;
    `ParseGame` is the imperative parser, proved to end as the machine does. */
module Evaluator {
  import opened Text
  import opened GameLog
  import opened LogWriter
  import opened LineFilter
  import opened PromptText

  /** The variables of the parser: the cursor `i` and the turns read so far. */
  datatype Cursor = Cursor(i: nat, turns: seq<Turn>)

  /** One iteration of the loop. */
  function GameStep(v: seq<LineView>, boardSize: nat, c: Cursor): (s: Step<Cursor, Game>)
    requires c.i <= |v|
    // every iteration that does not stop moves the cursor forward, within the lines
    ensures s.Next? ==> c.i < s.config.i <= |v|
    // the loop stops advancing exactly on a line that starts with neither
    // `player:` nor `winner:`
    ensures s == Halt(Stuck) <==> (c.i < |v| && v[c.i].tag !in {PlayerTag, WinnerTag})
    // the end of input returns the turns read so far without a winner
    ensures c.i == |v| ==> s == Halt(Done(Game(c.turns, None)))
    // a game is returned only at the end of input or at a `winner:` line,
    // with that line's number as its winner
    ensures s.Halt? && s.outcome.Done? ==>
      s.outcome.value.turns == c.turns
      && (c.i == |v| || (v[c.i].tag == WinnerTag && s.outcome.value.winner == v[c.i].number))
    // a turn is added only when one is recognised where the cursor is
    ensures s.Next? && s.config.turns != c.turns ==>
      exists t :: s.config.turns == c.turns + [t] && TurnAt(v, boardSize, c.i, t)
    // a `winner:` line returns the game, or raises when its number is no integer
    ensures c.i < |v| && v[c.i].tag == WinnerTag ==>
      s == (if v[c.i].number.None? then Halt(Raised(ValueError)) else Halt(Done(Game(c.turns, v[c.i].number))))
    // a `player:` line: what reading the turn raises is raised by the parser, and
    // the loop resumes where the reading stopped, with the turn it emitted if any
    ensures c.i < |v| && v[c.i].tag == PlayerTag ==>
      s == match TurnStep(v, boardSize, c.i)
        case Emit(t, n) => Next(Cursor(n, c.turns + [t]))
        case NoTurn(n) => Next(Cursor(n, c.turns))
        case Failed(e) => Halt(Raised(e))
  {
    if c.i == |v| then Halt(Done(Game(c.turns, None)))
    else if v[c.i].tag == PlayerTag then
      match TurnStep(v, boardSize, c.i)
      case Emit(t, next) => Next(Cursor(next, c.turns + [t]))
      case NoTurn(next) => Next(Cursor(next, c.turns))
      case Failed(e) => Halt(Raised(e))
    else if v[c.i].tag == WinnerTag then
      match v[c.i].number
      case None => Halt(Raised(ValueError))
      case Some(w) => Halt(Done(Game(c.turns, Some(w))))
    else Halt(Stuck)
  }

  /** The machine run to its end. */
  function RunGame(v: seq<LineView>, boardSize: nat, c: Cursor): (r: Outcome<Game>)
    requires c.i <= |v|
    // turns once read are returned, in front of the ones read later
    ensures r.Done? ==> c.turns <= r.value.turns
    decreases |v| - c.i
  {
    match GameStep(v, boardSize, c)
    case Halt(o) => o
    case Next(c') =>
      var r := RunGame(v, boardSize, c');
      assert c.turns <= c'.turns;
      r
  }

  /** What `parse_game(lines)` gives. */
  function GameOf(lines: seq<string>, boardSize: nat): Outcome<Game> {
    RunGame(Views(lines), boardSize, Cursor(0, []))
  }

  // ----- the imperative parser -----

  /** `parse_game`, over the lines as the code reads them. */
  method ParseGame(v: seq<LineView>, boardSize: nat) returns (r: Outcome<Game>)
    ensures r == RunGame(v, boardSize, Cursor(0, []))
  {
    var game: seq<Turn> := [];
    var i := 0;
    while i < |v|
      invariant i <= |v|
      invariant RunGame(v, boardSize, Cursor(0, [])) == RunGame(v, boardSize, Cursor(i, game))
      decreases |v| - i
    {
      if v[i].tag == PlayerTag {
        var read := ReadTurn(v, boardSize, i);
        match read
        case Failed(e) =>
          return Raised(e);
        case NoTurn(next) =>
          i := next;
        case Emit(turn, next) =>
          game := game + [turn];
          i := next;
      } else if v[i].tag == WinnerTag {
        var winner := v[i].number;
        if winner.None? {
          return Raised(ValueError);
        }
        return Done(Game(game, Some(winner.value)));
      } else {
        return Stuck;
      }
    }
    return Done(Game(game, None));
  }

  // ----- properties of the machine -----

  /** Recognised turns are appended in order. */
  lemma {:induction false} TurnsRun(v: seq<LineView>, boardSize: nat, i: nat, ts: seq<Turn>, j: nat, acc: seq<Turn>)
    requires i <= |v| && TurnsAt(v, boardSize, i, ts, j)
    ensures j <= |v|
    ensures RunGame(v, boardSize, Cursor(i, acc)) == RunGame(v, boardSize, Cursor(j, acc + ts))
    decreases |ts|
  {
    if ts == [] {
      assert acc + ts == acc;
    } else {
      TurnStepComplete(v, boardSize, i, ts[0]);
      TurnsRun(v, boardSize, i + 3 + boardSize, ts[1..], j, acc + [ts[0]]);
      assert acc + [ts[0]] + ts[1..] == acc + ts;
    }
  }

  /** The file of one game: its turns, then its `winner:` line when it has
      a winner. */
  function GameFileEntries(g: Game): seq<Entry> {
    TurnsEntries(g.turns) + (if g.winner.Some? then [WinnerEntry(g.winner.value)] else [])
  }

  /** The game `g` recognised from index `d` on: its turns, then its `winner:`
      line, or the end of input when it has no winner. */
  predicate GameAt(v: seq<LineView>, boardSize: nat, d: nat, g: Game) {
    var m := d + TurnsLength(g.turns, boardSize);
    m <= |v|
    && TurnsAt(v, boardSize, d, g.turns, m)
    && (g.winner.None? ==> m == |v|)
    && (g.winner.Some? ==> m < |v| && Shows(v[m], WinnerEntry(g.winner.value)))
  }

  /** A recognised game is what the parser returns. */
  lemma {:induction false} GameRun(v: seq<LineView>, boardSize: nat, g: Game)
    requires GameAt(v, boardSize, 0, g)
    ensures RunGame(v, boardSize, Cursor(0, [])) == Done(g)
  {
    var m := TurnsLength(g.turns, boardSize);
    TurnsRun(v, boardSize, 0, g.turns, m, []);
    assert [] + g.turns == g.turns;
    if g.winner.Some? {
      assert GameStep(v, boardSize, Cursor(m, g.turns)) == Halt(Done(Game(g.turns, Some(g.winner.value))));
    }
  }

  /** The lines of a written game are where `GameAt` expects them. */
  lemma {:induction false} GameShown(v: seq<LineView>, boardSize: nat, g: Game)
    requires ShowsFrom(v, 0, GameFileEntries(g)) && WellFormedTurns(g.turns, boardSize)
    requires g.winner.None? ==> |GameFileEntries(g)| == |v|
    ensures GameAt(v, boardSize, 0, g)
  {
    var turns := TurnsEntries(g.turns);
    var close: seq<Entry> := if g.winner.Some? then [WinnerEntry(g.winner.value)] else [];
    TurnsEntriesLength(g.turns, boardSize);
    ShowsFromSplit(v, 0, turns, close);
    TurnsEntriesRecognised(v, 0, boardSize, g.turns);
    if g.winner.Some? {
      assert Shows(v[|turns| + 0], close[0]);
    }
  }

  lemma GameFileWritable(g: Game, boardSize: nat)
    requires WellFormedTurns(g.turns, boardSize)
    ensures forall k :: 0 <= k < |GameFileEntries(g)| ==> Writable(GameFileEntries(g)[k])
  {
    var es := GameFileEntries(g);
    TurnsEntriesWritable(g.turns, boardSize);
    forall k | 0 <= k < |es| ensures Writable(es[k]) {
      if k < |TurnsEntries(g.turns)| {
        assert es[k] == TurnsEntries(g.turns)[k];
      }
    }
  }

  /** A written game parses back to itself. After a `winner:` line, whatever
      follows is never read; a game without winner is read to the end of
      input. */
  lemma {:induction false} WrittenGameParses(g: Game, rest: seq<string>, boardSize: nat)
    requires WellFormedTurns(g.turns, boardSize)
    requires g.winner.None? ==> rest == []
    ensures GameOf(Written(GameFileEntries(g)) + rest, boardSize) == Done(g)
  {
    var es := GameFileEntries(g);
    var lines := Written(es) + rest;
    GameFileWritable(g, boardSize);
    WrittenShows([], es, rest);
    assert [] + Written(es) + rest == lines;
    GameShown(Views(lines), boardSize, g);
    GameRun(Views(lines), boardSize, g);
  }

  /** The same through `read_game_file`: a written game parses back to
      itself from the filtered file, and so does a game without winner when
      nothing but blank lines follows it. */
  lemma ReadGameParses(g: Game, rest: seq<string>, boardSize: nat)
    requires WellFormedTurns(g.turns, boardSize)
    requires g.winner.None? ==> forall k :: 0 <= k < |rest| ==> Strip(rest[k]) == []
    ensures GameOf(Filter(Written(GameFileEntries(g)) + rest), boardSize) == Done(g)
  {
    FilterAppend(Written(GameFileEntries(g)), rest);
    WrittenFiltered(GameFileEntries(g));
    if g.winner.None? && Filter(rest) != [] {
      FilterMembers(rest, Filter(rest)[0]);
      assert false;
    }
    WrittenGameParses(g, Filter(rest), boardSize);
  }

  // ----- lines after the winner -----

  /** Lines after the `winner:` line the parser returns at are never read:
      whatever is appended to such an input, the result is the same. */
  lemma {:induction false} WinnerEndsRead(v: seq<LineView>, back: seq<LineView>, boardSize: nat, c: Cursor)
    requires c.i <= |v|
    requires RunGame(v, boardSize, c).Done? && RunGame(v, boardSize, c).value.winner.Some?
    ensures RunGame(v + back, boardSize, c) == RunGame(v, boardSize, c)
    decreases |v| - c.i
  {
    var all := v + back;
    assert c.i < |v|;
    assert all[c.i] == v[c.i];
    if v[c.i].tag == PlayerTag {
      TurnStepExtend(v, back, boardSize, c.i);
      var c' := GameStep(v, boardSize, c).config;
      assert GameStep(all, boardSize, c) == Next(c');
      WinnerEndsRead(v, back, boardSize, c');
    }
  }

  /** The same for `parse_game` on lines: once it returns a game with a
      winner, no lines appended to its input change what it returns. */
  lemma LaterLinesIgnored(lines: seq<string>, more: seq<string>, boardSize: nat)
    requires GameOf(lines, boardSize).Done? && GameOf(lines, boardSize).value.winner.Some?
    ensures GameOf(lines + more, boardSize) == GameOf(lines, boardSize)
  {
    ViewsAppend(lines, more);
    WinnerEndsRead(Views(lines), Views(more), boardSize, Cursor(0, []));
  }

  // ----- soundness -----

  /** A game `parse_game` returns has every turn recognised in the input, and
      its winner, when it has one, is the number of some `winner:` line. */
  predicate Backed(v: seq<LineView>, boardSize: nat, g: Game) {
    Recognised(v, boardSize, g.turns)
    && (g.winner.Some? ==> exists j :: 0 <= j < |v| && v[j].tag == WinnerTag && v[j].number == g.winner)
  }

  lemma {:induction false} RunBacked(v: seq<LineView>, boardSize: nat, c: Cursor, g: Game)
    requires c.i <= |v| && Recognised(v, boardSize, c.turns) && RunGame(v, boardSize, c) == Done(g)
    ensures Backed(v, boardSize, g)
    decreases |v| - c.i
  {
    match GameStep(v, boardSize, c)
    case Halt(o) =>
      assert g.turns == c.turns;
    case Next(c') =>
      if c'.turns != c.turns {
        var t :| c'.turns == c.turns + [t] && TurnAt(v, boardSize, c.i, t);
        RecognisedAppend(v, boardSize, c.turns, t, c.i);
      }
      RunBacked(v, boardSize, c', g);
  }

  lemma GameSound(lines: seq<string>, boardSize: nat, g: Game)
    requires GameOf(lines, boardSize) == Done(g)
    ensures Backed(Views(lines), boardSize, g)
  {
    RunBacked(Views(lines), boardSize, Cursor(0, []), g);
  }

  // ----- where the parser does not return -----

  /** A line that starts with neither `player:` nor `winner:` where the loop
      looks is looked at again and again: `parse_game` never returns. A log of
      several games, which opens with a `game:` line, is one such input. */
  lemma {:induction false} StrayLineStuck(e: Entry, rest: seq<string>, boardSize: nat)
    requires Writable(e) && !e.PlayerEntry? && !e.WinnerEntry?
    ensures GameOf([Render(e)] + rest, boardSize) == Stuck
  {
    var lines := [Render(e)] + rest;
    ShowsAt(lines, 0, e);
  }

  /** Recognised turns and then a `player:` line with a number as the last
      line: reading the turn runs past the end, so the parser raises
      IndexError. */
  lemma {:induction false} LastPlayerRaises(v: seq<LineView>, boardSize: nat, ts: seq<Turn>, m: nat)
    requires TurnsAt(v, boardSize, 0, ts, m) && m + 1 == |v|
    requires v[m].tag == PlayerTag && v[m].number.Some?
    ensures RunGame(v, boardSize, Cursor(0, [])) == Raised(IndexError)
  {
    TurnsRun(v, boardSize, 0, ts, m, []);
    assert TurnStep(v, boardSize, m) == Failed(IndexError);
  }

  /** A `player:` line as the last line, after any written turns, makes
      `parse_game` raise IndexError. */
  lemma {:induction false} TrailingPlayerRaises(ts: seq<Turn>, p: int, boardSize: nat)
    requires WellFormedTurns(ts, boardSize)
    ensures GameOf(Written(TurnsEntries(ts) + [PlayerEntry(p)]), boardSize) == Raised(IndexError)
  {
    var es := TurnsEntries(ts) + [PlayerEntry(p)];
    TrailingPlayerWritable(ts, p, boardSize);
    WrittenShows([], es, []);
    assert [] + Written(es) + [] == Written(es);
    TrailingPlayerShown(Views(Written(es)), ts, p, boardSize);
  }

  /** Every entry of such a file can be read back. */
  lemma TrailingPlayerWritable(ts: seq<Turn>, p: int, boardSize: nat)
    requires WellFormedTurns(ts, boardSize)
    ensures forall k :: 0 <= k < |TurnsEntries(ts) + [PlayerEntry(p)]| ==> Writable((TurnsEntries(ts) + [PlayerEntry(p)])[k])
  {
    var turns := TurnsEntries(ts);
    TurnsEntriesWritable(ts, boardSize);
    forall k | 0 <= k < |turns + [PlayerEntry(p)]| ensures Writable((turns + [PlayerEntry(p)])[k]) {
      if k < |turns| { assert (turns + [PlayerEntry(p)])[k] == turns[k]; }
    }
  }

  /** The same on the views of the lines of such a file. */
  lemma {:induction false} TrailingPlayerShown(v: seq<LineView>, ts: seq<Turn>, p: int, boardSize: nat)
    requires WellFormedTurns(ts, boardSize)
    requires ShowsFrom(v, 0, TurnsEntries(ts) + [PlayerEntry(p)]) && |v| == |TurnsEntries(ts)| + 1
    ensures RunGame(v, boardSize, Cursor(0, [])) == Raised(IndexError)
  {
    var turns := TurnsEntries(ts);
    var last: seq<Entry> := [PlayerEntry(p)];
    ShowsFromSplit(v, 0, turns, last);
    TurnsEntriesRecognised(v, 0, boardSize, ts);
    assert Shows(v[|turns| + 0], last[0]);
    LastPlayerRaises(v, boardSize, ts, |turns|);
  }

  // ----- the prompt -----

  // The fixed text of the prompt, in the pieces the values are put between.
  const OpeningHead: string := "以下是文件 "
  const OpeningTail: string := " 中的一局五子棋比赛的棋谱数据：\n\n五子棋是一款在15x15的棋盘上进行的棋类游戏，玩家轮流下子，目标是连成五个相同的棋子。\n"
  const ClosingHead: string := "该局游戏的赢家是玩家 "
  const ClosingTail: string := "。在真实的五子棋对战中，各种形式多个3个或4个棋子组合相连的情形通常被认为是某种取胜的方法；另外对手经常会因为没看到对角线上的3个或4个棋子相连的失误而输掉比赛。\n请结合上述五子棋实战中的领域知识，分析该局游戏中的每一步，最终给出你认为在开局阶段（双方的前5步，即前10个回合内，每有一个玩家走出一步棋子就是一个回合，例如双方各自下一步棋，那么就是2个回合）和中间到最后一方获胜阶段（双方的第6步到最后，也就是第11回合到最终获胜回合）分别给出最关键的三步下棋位置，并分析和指出这些位置是如何导致了赢家获胜，或是失败方是如何失误导致的最终失败。"

  /** The opening of the prompt, naming the file right after its first words. */
  function Preamble(filename: string): (r: string)
    ensures |r| == |OpeningHead| + |filename| + |OpeningTail|
    ensures r[|OpeningHead|..|OpeningHead| + |filename|] == filename
  {
    Pieces(OpeningHead, filename, OpeningTail);
    OpeningHead + filename + OpeningTail
  }

  /** The closing paragraph, naming the winner right after its first words. */
  function Closing(winner: Option<int>): (r: string)
    ensures |r| == |ClosingHead| + |WinnerText(winner)| + |ClosingTail|
    ensures r[|ClosingHead|..|ClosingHead| + |WinnerText(winner)|] == WinnerText(winner)
  {
    Pieces(ClosingHead, WinnerText(winner), ClosingTail);
    ClosingHead + WinnerText(winner) + ClosingTail
  }

  /** What `generate_win_experience_prompt(game_data, filename)` returns: it
      opens with the preamble and ends with the closing paragraph. */
  function PromptOf(g: Game, filename: string, render: Board -> string): (r: string)
    ensures |r| == |Preamble(filename)| + |Blocks(g.turns, render)| + |Closing(g.winner)|
    ensures r[..|Preamble(filename)|] == Preamble(filename)
    ensures r[|Preamble(filename)| + |Blocks(g.turns, render)|..] == Closing(g.winner)
  {
    Pieces(Preamble(filename), Blocks(g.turns, render), Closing(g.winner));
    Preamble(filename) + Blocks(g.turns, render) + Closing(g.winner)
  }

  /** `generate_win_experience_prompt`: the preamble, one `+=` per turn, then
      the closing paragraph. */
  method WinExperiencePrompt(g: Game, filename: string, render: Board -> string) returns (prompt: string)
    ensures prompt == PromptOf(g, filename, render)
  {
    prompt := AppendAll(Preamble(filename), g.turns, BlockOf(render));
    prompt := prompt + Closing(g.winner);
  }

  /** Every turn has its block in the prompt, in the order of the turns,
      between the opening and the closing paragraph. */
  lemma PromptTurn(g: Game, filename: string, render: Board -> string, k: nat)
    requires k < |g.turns|
    ensures PromptOf(g, filename, render)
      == Preamble(filename) + Blocks(g.turns[..k], render) + TurnBlock(g.turns[k], render)
        + Blocks(g.turns[k + 1..], render) + Closing(g.winner)
  {
    ConcatAt(Preamble(filename), g.turns, Closing(g.winner), BlockOf(render), k);
  }

  /** The prompt names the winner: two games with the same turns give the
      same prompt exactly when they have the same winner. */
  lemma PromptNamesWinner(g1: Game, g2: Game, filename: string, render: Board -> string)
    requires g1.turns == g2.turns
    ensures PromptOf(g1, filename, render) == PromptOf(g2, filename, render) <==> g1.winner == g2.winner
  {
    AfterEqual(Preamble(filename) + Blocks(g1.turns, render), Closing(g1.winner), Closing(g2.winner));
    BetweenEqual(ClosingHead, WinnerText(g1.winner), WinnerText(g2.winner), ClosingTail);
    WinnerTextInjective(g1.winner, g2.winner);
  }
}
