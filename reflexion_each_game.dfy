/** `GomokuReflexion.parse_games` of reflexion_each_game.py: the parser of a
    file holding several games, each opened by a `game:` line and closed by its
    `winner:` line.

    `RunGames` is the parser as a state machine over the views of the lines;
    `ParseGames` is the imperative parser, proved to end as the machine does. */
module ReflexionEachGame {
  import opened Text
  import opened GameLog
  import opened LogWriter
  import opened LineFilter
  import opened PromptText

  /** Where the outer loop is: between games, or inside the inner loop of a
      game block with the turns read so far. */
  datatype Mode = Seeking | InGame(turns: seq<Turn>)

  /** The variables of the parser: the cursor `i`, the block being read and
      the list `games` built so far. */
  datatype Config = Config(i: nat, mode: Mode, games: seq<Game>)

  /** One iteration of whichever loop is running. */
  function GamesStep(v: seq<LineView>, boardSize: nat, c: Config): (s: Step<Config, seq<Game>>)
    requires c.i <= |v|
    // every iteration that does not stop moves the cursor forward, within the lines
    ensures s.Next? ==> c.i < s.config.i <= |v|
    // the loop stops advancing exactly on a line inside a game block that
    // starts with none of `game:`, `player:` and `winner:`
    ensures s == Halt(Stuck) <==>
      (c.i < |v| && c.mode.InGame? && v[c.i].tag !in {GameTag, PlayerTag, WinnerTag})
    // the end of input returns the games closed so far
    ensures c.i == |v| ==> s == Halt(Done(c.games))
    // a game is added only at its `winner:` line, with the turns of its block
    ensures s.Next? && s.config.games != c.games ==>
      c.mode.InGame? && v[c.i].tag == WinnerTag && v[c.i].number.Some?
      && s.config.games == c.games + [Game(c.mode.turns, v[c.i].number)]
    // a `game:` line opens an empty block, or raises when its number is no integer
    ensures c.i < |v| && v[c.i].tag == GameTag ==>
      s == (if v[c.i].number.None? then Halt(Raised(ValueError)) else Next(Config(c.i + 1, InGame([]), c.games)))
    // between blocks, every other line is passed over
    ensures c.i < |v| && c.mode.Seeking? && v[c.i].tag != GameTag ==> s == Next(Config(c.i + 1, Seeking, c.games))
    // a `winner:` line in a block closes it, or raises when its number is no integer
    ensures c.i < |v| && c.mode.InGame? && v[c.i].tag == WinnerTag ==>
      s == (if v[c.i].number.None? then Halt(Raised(ValueError))
            else Next(Config(c.i + 1, Seeking, c.games + [Game(c.mode.turns, v[c.i].number)])))
    // a `player:` line in a block: what reading the turn raises is raised by the
    // parser, and the inner loop resumes where the reading stopped, with the
    // turn it emitted if any
    ensures c.i < |v| && c.mode.InGame? && v[c.i].tag == PlayerTag ==>
      s == match TurnStep(v, boardSize, c.i)
        case Emit(t, n) => Next(Config(n, InGame(c.mode.turns + [t]), c.games))
        case NoTurn(n) => Next(Config(n, c.mode, c.games))
        case Failed(e) => Halt(Raised(e))
  {
    if c.i == |v| then Halt(Done(c.games))
    else if v[c.i].tag == GameTag then
      if v[c.i].number.None? then Halt(Raised(ValueError))
      else Next(Config(c.i + 1, InGame([]), c.games))
    else match c.mode
      case Seeking => Next(Config(c.i + 1, Seeking, c.games))
      case InGame(turns) =>
        if v[c.i].tag == PlayerTag then
          match TurnStep(v, boardSize, c.i)
          case Emit(t, next) => Next(Config(next, InGame(turns + [t]), c.games))
          case NoTurn(next) => Next(Config(next, InGame(turns), c.games))
          case Failed(e) => Halt(Raised(e))
        else if v[c.i].tag == WinnerTag then
          match v[c.i].number
          case None => Halt(Raised(ValueError))
          case Some(w) => Next(Config(c.i + 1, Seeking, c.games + [Game(turns, Some(w))]))
        else Halt(Stuck)
  }

  /** The machine run to its end. */
  function RunGames(v: seq<LineView>, boardSize: nat, c: Config): (r: Outcome<seq<Game>>)
    requires c.i <= |v|
    // games once collected are returned, in front of the ones added later
    ensures r.Done? ==> c.games <= r.value
    decreases |v| - c.i
  {
    match GamesStep(v, boardSize, c)
    case Halt(o) => o
    case Next(c') =>
      var r := RunGames(v, boardSize, c');
      assert r.Done? ==> c'.games <= r.value;
      assert c.games <= c'.games;
      r
  }

  /** What `parse_games(lines)` gives. */
  function ParsedGames(lines: seq<string>, boardSize: nat): Outcome<seq<Game>> {
    RunGames(Views(lines), boardSize, Config(0, Seeking, []))
  }

  // ----- the imperative parser -----

  /** `parse_games`, over the lines as the code reads them: `v[i].tag` is which
      `startswith` test `lines[i]` passes, `v[i].number` what
      `int(lines[i].split(":")[1].strip())` gives. */
  method ParseGames(v: seq<LineView>, boardSize: nat) returns (r: Outcome<seq<Game>>)
    ensures r == RunGames(v, boardSize, Config(0, Seeking, []))
  {
    var games: seq<Game> := [];
    var i := 0;
    while i < |v|
      invariant i <= |v|
      invariant RunGames(v, boardSize, Config(0, Seeking, [])) == RunGames(v, boardSize, Config(i, Seeking, games))
      decreases |v| - i
    {
      if v[i].tag == GameTag {
        var gameNum := v[i].number;
        if gameNum.None? {
          return Raised(ValueError);
        }
        i := i + 1;
        var game: seq<Turn> := [];
        ghost var closed := false;
        while i < |v| && v[i].tag != GameTag
          invariant i <= |v| && !closed
          invariant RunGames(v, boardSize, Config(0, Seeking, [])) == RunGames(v, boardSize, Config(i, InGame(game), games))
          decreases |v| - i
        {
          if v[i].tag == PlayerTag {
            var read := ReadTurn(v, boardSize, i);
            match read
            case Failed(e) =>
              return Raised(e);
            case NoTurn(next) =>
              i := next;
            case Emit(turn, next) =>
              game := game + [turn];
              i := next;
          } else if v[i].tag == WinnerTag {
            var winner := v[i].number;
            if winner.None? {
              return Raised(ValueError);
            }
            i := i + 1;
            games := games + [Game(game, Some(winner.value))];
            closed := true;
            break;
          } else {
            return Stuck;
          }
        }
        if !closed {
          DroppedBlock(v, boardSize, i, game, games);
        }
      } else {
        i := i + 1;
      }
    }
    return Done(games);
  }

  // ----- properties of the machine -----

  /** A block that runs into the next `game:` line or the end of input is
      dropped: what follows is parsed as if the block had never been opened. */
  lemma {:induction false} DroppedBlock(v: seq<LineView>, boardSize: nat, i: nat, turns: seq<Turn>, games: seq<Game>)
    requires i <= |v| && (i == |v| || v[i].tag == GameTag)
    ensures RunGames(v, boardSize, Config(i, InGame(turns), games))
      == RunGames(v, boardSize, Config(i, Seeking, games))
  {
  }

  /** Lines that are not `game:` lines are skipped between games. */
  lemma {:induction false} SkipBetweenGames(v: seq<LineView>, boardSize: nat, i: nat, j: nat, games: seq<Game>)
    requires i <= j <= |v|
    requires forall k :: i <= k < j ==> v[k].tag != GameTag
    ensures RunGames(v, boardSize, Config(i, Seeking, games)) == RunGames(v, boardSize, Config(j, Seeking, games))
    decreases j - i
  {
    if i < j {
      SkipBetweenGames(v, boardSize, i + 1, j, games);
    }
  }

  /** Recognised turns inside a block are appended in order. */
  lemma {:induction false} TurnsRun(v: seq<LineView>, boardSize: nat, i: nat, ts: seq<Turn>, j: nat,
                                    acc: seq<Turn>, games: seq<Game>)
    requires i <= |v| && TurnsAt(v, boardSize, i, ts, j)
    ensures j <= |v|
    ensures RunGames(v, boardSize, Config(i, InGame(acc), games))
      == RunGames(v, boardSize, Config(j, InGame(acc + ts), games))
    decreases |ts|
  {
    if ts == [] {
      assert acc + ts == acc;
    } else {
      TurnStepComplete(v, boardSize, i, ts[0]);
      TurnsRun(v, boardSize, i + 3 + boardSize, ts[1..], j, acc + [ts[0]], games);
      assert acc + [ts[0]] + ts[1..] == acc + ts;
    }
  }

  // ----- written logs -----

  /** The block of one game, numbered `n`; a game without winner has no
      `winner:` line. */
  function GameEntries(n: int, g: Game): seq<Entry> {
    [GameEntry(n)] + TurnsEntries(g.turns) + (if g.winner.Some? then [WinnerEntry(g.winner.value)] else [])
  }

  /** The blocks of `gs`, numbered from `n`. */
  function LogEntries(gs: seq<Game>, n: int): seq<Entry>
    decreases |gs|
  {
    if gs == [] then [] else GameEntries(n, gs[0]) + LogEntries(gs[1..], n + 1)
  }

  /** The games that have a winner, in order. */
  function Closed(gs: seq<Game>): (r: seq<Game>)
    ensures |r| <= |gs|
    decreases |gs|
  {
    if gs == [] then []
    else if gs[0].winner.Some? then [gs[0]] + Closed(gs[1..])
    else Closed(gs[1..])
  }

  predicate WellFormedGames(gs: seq<Game>, boardSize: nat) {
    forall k :: 0 <= k < |gs| ==> WellFormedTurns(gs[k].turns, boardSize)
  }

  lemma {:induction false} LogEntriesWritable(gs: seq<Game>, n: int, boardSize: nat)
    requires WellFormedGames(gs, boardSize)
    ensures forall k :: 0 <= k < |LogEntries(gs, n)| ==> Writable(LogEntries(gs, n)[k])
    decreases |gs|
  {
    if gs != [] {
      WellFormedTail(gs, boardSize);
      TurnsEntriesWritable(gs[0].turns, boardSize);
      LogEntriesWritable(gs[1..], n + 1, boardSize);
    }
  }

  /** A `game:` line opens a new block, whatever was being read. */
  lemma {:induction false} OpenBlock(v: seq<LineView>, boardSize: nat, k: nat, n: int, mode: Mode, games: seq<Game>)
    requires k < |v| && Shows(v[k], GameEntry(n))
    ensures RunGames(v, boardSize, Config(k, mode, games))
      == RunGames(v, boardSize, Config(k + 1, InGame([]), games))
  {
  }

  /** A `winner:` line inside a block closes it and adds its game. */
  lemma {:induction false} CloseBlock(v: seq<LineView>, boardSize: nat, k: nat, w: int, turns: seq<Turn>, games: seq<Game>)
    requires k < |v| && Shows(v[k], WinnerEntry(w))
    ensures RunGames(v, boardSize, Config(k, InGame(turns), games))
      == RunGames(v, boardSize, Config(k + 1, Seeking, games + [Game(turns, Some(w))]))
  {
  }

  /** How many lines the block of `g` takes. */
  function BlockLength(g: Game, boardSize: nat): nat {
    1 + TurnsLength(g.turns, boardSize) + (if g.winner.Some? then 1 else 0)
  }

  /** The block of game `g`, numbered `n`, recognised at index `d`: its
      `game:` line, its turns and, when it has a winner, its `winner:` line. */
  predicate BlockAt(v: seq<LineView>, boardSize: nat, d: nat, n: int, g: Game) {
    var m := d + 1 + TurnsLength(g.turns, boardSize);
    d + BlockLength(g, boardSize) <= |v|
    && Shows(v[d], GameEntry(n))
    && TurnsAt(v, boardSize, d + 1, g.turns, m)
    && (g.winner.Some? ==> Shows(v[m], WinnerEntry(g.winner.value)))
  }

  /** The blocks of `gs`, numbered from `n`, recognised one after the other
      from index `d` to the end of input. */
  predicate LogAt(v: seq<LineView>, boardSize: nat, d: nat, gs: seq<Game>, n: int)
    decreases |gs|
  {
    if gs == [] then d == |v|
    else BlockAt(v, boardSize, d, n, gs[0]) && LogAt(v, boardSize, d + BlockLength(gs[0], boardSize), gs[1..], n + 1)
  }

  /** A recognised block that is followed by a `game:` line or by nothing
      adds its game when it has a winner and is dropped when it has none. */
  lemma {:induction false} BlockRun(v: seq<LineView>, boardSize: nat, d: nat, n: int, g: Game, games: seq<Game>)
    requires BlockAt(v, boardSize, d, n, g)
    requires var e := d + BlockLength(g, boardSize); e == |v| || (e < |v| && v[e].tag == GameTag)
    ensures RunGames(v, boardSize, Config(d, Seeking, games))
      == RunGames(v, boardSize, Config(d + BlockLength(g, boardSize), Seeking, games + Closed([g])))
  {
    var m := d + 1 + TurnsLength(g.turns, boardSize);
    OpenBlock(v, boardSize, d, n, Seeking, games);
    TurnsRun(v, boardSize, d + 1, g.turns, m, [], games);
    assert [] + g.turns == g.turns;
    if g.winner.Some? {
      CloseBlock(v, boardSize, m, g.winner.value, g.turns, games);
      assert Closed([g]) == [Game(g.turns, Some(g.winner.value))];
    } else {
      DroppedBlock(v, boardSize, m, g.turns, games);
      assert games + Closed([g]) == games;
    }
  }

  lemma {:induction false} ClosedCons(gs: seq<Game>)
    requires gs != []
    ensures Closed(gs) == Closed([gs[0]]) + Closed(gs[1..])
  {
    var head := [gs[0]];
    assert head[1..] == [];
    assert Closed(head) == (if gs[0].winner.Some? then [gs[0]] else []);
  }

  /** A recognised log parses to its games that have a winner, in order:
      blocks without winner are dropped. */
  lemma {:induction false} LogRun(v: seq<LineView>, boardSize: nat, d: nat, gs: seq<Game>, n: int, games: seq<Game>)
    requires d <= |v| && LogAt(v, boardSize, d, gs, n)
    ensures RunGames(v, boardSize, Config(d, Seeking, games)) == Done(games + Closed(gs))
    decreases |gs|
  {
    if gs == [] {
      assert games + [] == games;
    } else {
      var e := d + BlockLength(gs[0], boardSize);
      var later := games + Closed([gs[0]]);
      LogAtHead(v, boardSize, d, gs, n);
      BlockRun(v, boardSize, d, n, gs[0], games);
      LogRun(v, boardSize, e, gs[1..], n + 1, later);
      ClosedCons(gs);
      AppendAssoc(games, Closed([gs[0]]), Closed(gs[1..]));
    }
  }

  lemma AppendAssoc<T>(a: seq<T>, b: seq<T>, c: seq<T>)
    ensures a + b + c == a + (b + c)
  {
  }

  /** The first block of a recognised log, and what follows it: the end of
      input or the next block's `game:` line. */
  lemma {:induction false} LogAtHead(v: seq<LineView>, boardSize: nat, d: nat, gs: seq<Game>, n: int)
    requires gs != [] && LogAt(v, boardSize, d, gs, n)
    ensures BlockAt(v, boardSize, d, n, gs[0])
    ensures var e := d + BlockLength(gs[0], boardSize);
      e <= |v| && LogAt(v, boardSize, e, gs[1..], n + 1) && (e == |v| || v[e].tag == GameTag)
  {
    var e := d + BlockLength(gs[0], boardSize);
    if gs[1..] != [] {
      assert BlockAt(v, boardSize, e, n + 1, gs[1..][0]);
    }
  }

  /** The lines of a written block are where `BlockAt` expects them. */
  lemma {:induction false} BlockShown(v: seq<LineView>, d: nat, boardSize: nat, n: int, g: Game)
    requires ShowsFrom(v, d, GameEntries(n, g)) && WellFormedTurns(g.turns, boardSize)
    ensures |GameEntries(n, g)| == BlockLength(g, boardSize)
    ensures BlockAt(v, boardSize, d, n, g)
  {
    var turns := TurnsEntries(g.turns);
    var close: seq<Entry> := if g.winner.Some? then [WinnerEntry(g.winner.value)] else [];
    assert GameEntries(n, g) == [GameEntry(n)] + turns + close;
    TurnsEntriesLength(g.turns, boardSize);
    ShowsFromSplit(v, d, [GameEntry(n)] + turns, close);
    ShowsFromSplit(v, d, [GameEntry(n)], turns);
    assert Shows(v[d + 0], [GameEntry(n)][0]);
    TurnsEntriesRecognised(v, d + 1, boardSize, g.turns);
    if g.winner.Some? {
      assert Shows(v[d + 1 + |turns| + 0], close[0]);
    }
  }

  lemma WellFormedTail(gs: seq<Game>, boardSize: nat)
    requires gs != [] && WellFormedGames(gs, boardSize)
    ensures WellFormedTurns(gs[0].turns, boardSize) && WellFormedGames(gs[1..], boardSize)
  {
    forall k | 0 <= k < |gs[1..]| ensures WellFormedTurns(gs[1..][k].turns, boardSize) {
      assert gs[1..][k] == gs[k + 1];
    }
  }

  /** A written log, up to the end of input, is recognised as its games. */
  lemma {:induction false} LogShown(v: seq<LineView>, d: nat, boardSize: nat, gs: seq<Game>, n: int)
    requires ShowsFrom(v, d, LogEntries(gs, n)) && d + |LogEntries(gs, n)| == |v|
    requires WellFormedGames(gs, boardSize)
    ensures LogAt(v, boardSize, d, gs, n)
    decreases |gs|
  {
    if gs != [] {
      var block := GameEntries(n, gs[0]);
      ShowsFromSplit(v, d, block, LogEntries(gs[1..], n + 1));
      WellFormedTail(gs, boardSize);
      BlockShown(v, d, boardSize, n, gs[0]);
      LogShown(v, d + |block|, boardSize, gs[1..], n + 1);
    }
  }

  /** `parse_games` on a written log gives back its games that have a winner,
      in order, whatever comes before the first `game:` line so long as no
      line there starts with `game:`. */
  lemma {:induction false} WrittenLogParses(junk: seq<string>, gs: seq<Game>, boardSize: nat)
    requires WellFormedGames(gs, boardSize)
    requires forall k :: 0 <= k < |junk| ==> !StartsWith(junk[k], GameKey)
    ensures ParsedGames(junk + Written(LogEntries(gs, 1)), boardSize) == Done(Closed(gs))
  {
    var es := LogEntries(gs, 1);
    var lines := junk + Written(es);
    var v := Views(lines);
    LogEntriesWritable(gs, 1, boardSize);
    WrittenShows(junk, es, []);
    assert junk + Written(es) + [] == lines;
    forall k | 0 <= k < |junk| ensures v[k].tag != GameTag {
      assert lines[k] == junk[k];
      TagOfSpec(junk[k]);
    }
    SkipBetweenGames(v, boardSize, 0, |junk|, []);
    LogShown(v, |junk|, boardSize, gs, 1);
    LogRun(v, boardSize, |junk|, gs, 1, []);
    assert [] + Closed(gs) == Closed(gs);
  }

  /** The same through `read_game_file`: whatever lines come before the log,
      as long as none of them starts with `game:` once stripped, the filtered
      file parses back to the games of the log. */
  lemma ReadLogParses(raw: seq<string>, gs: seq<Game>, boardSize: nat)
    requires WellFormedGames(gs, boardSize)
    requires forall k :: 0 <= k < |raw| ==> !StartsWith(Strip(raw[k]), GameKey)
    ensures ParsedGames(Filter(raw + Written(LogEntries(gs, 1))), boardSize) == Done(Closed(gs))
  {
    var junk := Filter(raw);
    FilterAppend(raw, Written(LogEntries(gs, 1)));
    WrittenFiltered(LogEntries(gs, 1));
    forall k | 0 <= k < |junk| ensures !StartsWith(junk[k], GameKey) {
      FilterMembers(raw, junk[k]);
    }
    WrittenLogParses(junk, gs, boardSize);
  }

  // ----- soundness -----

  /** A game the parser can have produced: its turns are recognised and its
      winner is the number of some `winner:` line. */
  predicate Backed(v: seq<LineView>, boardSize: nat, g: Game) {
    Recognised(v, boardSize, g.turns)
    && g.winner.Some?
    && exists j :: 0 <= j < |v| && v[j].tag == WinnerTag && v[j].number == g.winner
  }

  /** How many of the first `i` lines start with `game:`. */
  function GameLines(v: seq<LineView>, i: nat): nat
    requires i <= |v|
    decreases i
  {
    if i == 0 then 0 else GameLines(v, i - 1) + (if v[i - 1].tag == GameTag then 1 else 0)
  }

  lemma {:induction false} GameLinesGrow(v: seq<LineView>, i: nat, j: nat)
    requires i <= j <= |v|
    ensures GameLines(v, i) <= GameLines(v, j)
    decreases j - i
  {
    if i < j {
      GameLinesGrow(v, i, j - 1);
    }
  }

  /** What holds of the parser's variables all along: the games collected and
      the block being read are backed by the input, and each took a `game:`
      line before the cursor. */
  predicate Sound(v: seq<LineView>, boardSize: nat, c: Config) {
    c.i <= |v|
    && (forall k :: 0 <= k < |c.games| ==> Backed(v, boardSize, c.games[k]))
    && (c.mode.InGame? ==> Recognised(v, boardSize, c.mode.turns))
    && |c.games| + (if c.mode.InGame? then 1 else 0) <= GameLines(v, c.i)
  }

  /** Each iteration keeps the parser's variables sound. */
  lemma {:induction false} StepSound(v: seq<LineView>, boardSize: nat, c: Config)
    requires c.i <= |v| && Sound(v, boardSize, c) && GamesStep(v, boardSize, c).Next?
    ensures Sound(v, boardSize, GamesStep(v, boardSize, c).config)
  {
    var c' := GamesStep(v, boardSize, c).config;
    GameLinesGrow(v, c.i, c'.i);
    if v[c.i].tag == GameTag {
      assert GameLines(v, c.i + 1) == GameLines(v, c.i) + 1;
    } else if c.mode.InGame? && v[c.i].tag == PlayerTag {
      var r := TurnStep(v, boardSize, c.i);
      if r.Emit? {
        RecognisedAppend(v, boardSize, c.mode.turns, r.turn, c.i);
        assert c' == Config(r.next, InGame(c.mode.turns + [r.turn]), c.games);
      }
    } else if c.mode.InGame? && v[c.i].tag == WinnerTag {
      var g := Game(c.mode.turns, v[c.i].number);
      assert Backed(v, boardSize, g);
      assert c'.games == c.games + [g];
    }
  }

  /** Whatever the machine returns is backed by the input. */
  lemma {:induction false} RunSound(v: seq<LineView>, boardSize: nat, c: Config, gs: seq<Game>)
    requires c.i <= |v| && Sound(v, boardSize, c) && RunGames(v, boardSize, c) == Done(gs)
    ensures forall k :: 0 <= k < |gs| ==> Backed(v, boardSize, gs[k])
    ensures |gs| <= GameLines(v, |v|)
    decreases |v| - c.i
  {
    match GamesStep(v, boardSize, c)
    case Halt(o) =>
    case Next(c') =>
      StepSound(v, boardSize, c);
      RunSound(v, boardSize, c', gs);
  }

  /** `parse_games` returns only games that have a winner taken from a
      `winner:` line and whose turns are all recognised in the input, and no
      more games than there are `game:` lines. */
  lemma {:induction false} GamesSound(v: seq<LineView>, boardSize: nat, gs: seq<Game>)
    requires RunGames(v, boardSize, Config(0, Seeking, [])) == Done(gs)
    ensures forall k :: 0 <= k < |gs| ==> Backed(v, boardSize, gs[k])
    ensures |gs| <= GameLines(v, |v|)
  {
    assert Sound(v, boardSize, Config(0, Seeking, []));
    RunSound(v, boardSize, Config(0, Seeking, []), gs);
  }

  // ----- where the parser does not return -----

  /** Inside a game block, a line that starts with none of `game:`, `player:`
      and `winner:` is looked at again and again: the parser never returns. */
  lemma {:induction false} StrayStuck(v: seq<LineView>, boardSize: nat, d: nat, games: seq<Game>)
    requires d + 1 < |v| && v[d].tag == GameTag && v[d].number.Some?
    requires v[d + 1].tag !in {GameTag, PlayerTag, WinnerTag}
    ensures RunGames(v, boardSize, Config(d, Seeking, games)) == Stuck
  {
    assert GamesStep(v, boardSize, Config(d, Seeking, games)) == Next(Config(d + 1, InGame([]), games));
  }

  /** A written `game:` line followed by a `state:`, `x,y:` or row line: however
      the log goes on, `parse_games` never returns. */
  lemma {:induction false} StrayLineStuck(n: int, e: Entry, rest: seq<string>, boardSize: nat)
    requires Writable(e) && !e.GameEntry? && !e.PlayerEntry? && !e.WinnerEntry?
    ensures ParsedGames(Written([GameEntry(n), e]) + rest, boardSize) == Stuck
  {
    var lines := Written([GameEntry(n), e]) + rest;
    assert lines[0] == Render(GameEntry(n)) && lines[1] == Render(e);
    ShowsAt(lines, 0, GameEntry(n));
    ShowsAt(lines, 1, e);
    StrayStuck(Views(lines), boardSize, 0, []);
  }

  /** A `game:` line whose number does not parse raises `ValueError`. */
  lemma BadGameNumberRaises(text: string, rest: seq<string>, boardSize: nat)
    requires ParseInt(Strip(text)).None? && ':' !in text
    ensures ParsedGames([GameKey + text] + rest, boardSize) == Raised(ValueError)
  {
    var lines := [GameKey + text] + rest;
    var v := Views(lines);
    assert lines[0] == GameKey + text;
    KeyLineField(GameKey, text);
    TagOfSpec(GameKey + text);
    assert GamesStep(v, boardSize, Config(0, Seeking, [])) == Halt(Raised(ValueError));
  }

  // ----- the prompt -----

  // The fixed text of the prompt, in the pieces the values are put between.
  const PhaseHead: string := "以下是"
  const PhaseTail: string := "阶段的某一局五子棋比赛棋谱数据中筛选过后几个导致最终胜利或失败重要的下棋步骤，赢家是玩家 "
  const WinnerTail: string := "。请总结在此阶段的获胜策略，同时你也可以观察棋盘状态和对手下棋的过程，反思对手的下棋策略是因为什么导致了失败，从而进一步总结对手可能出现的错误并利用这些错误总结获胜经验。\n\n"

  /** The opening of the prompt, naming the phase right after its first words
      and the winner after the sentence about the phase. */
  function Preamble(phase: string, winner: Option<int>): (r: string)
    ensures |r| == |PhaseHead| + |phase| + |PhaseTail| + |WinnerText(winner)| + |WinnerTail|
    ensures r[|PhaseHead|..|PhaseHead| + |phase|] == phase
    ensures var w := |PhaseHead| + |phase| + |PhaseTail|; r[w..w + |WinnerText(winner)|] == WinnerText(winner)
  {
    var head := PhaseHead + phase + PhaseTail;
    Pieces(PhaseHead, phase, PhaseTail);
    Pieces(head, WinnerText(winner), WinnerTail);
    head + WinnerText(winner) + WinnerTail
  }

  /** What `generate_win_experience_prompt(game_data, phase)` returns: the
      preamble, then the blocks, and nothing but the preamble for a game
      without turns. */
  function PromptOf(g: Game, phase: string, render: Board -> string): (r: string)
    ensures |r| == |Preamble(phase, g.winner)| + |Blocks(g.turns, render)|
    ensures r[..|Preamble(phase, g.winner)|] == Preamble(phase, g.winner)
    ensures g.turns == [] ==> r == Preamble(phase, g.winner)
  {
    Pieces(Preamble(phase, g.winner), Blocks(g.turns, render), "");
    Preamble(phase, g.winner) + Blocks(g.turns, render)
  }

  /** `generate_win_experience_prompt`: the preamble, then one `+=` per turn. */
  method WinExperiencePrompt(g: Game, phase: string, render: Board -> string) returns (prompt: string)
    ensures prompt == PromptOf(g, phase, render)
  {
    prompt := AppendAll(Preamble(phase, g.winner), g.turns, BlockOf(render));
  }

  /** Every turn has its block in the prompt, after the opening and in the
      order of the turns. */
  lemma PromptTurn(g: Game, phase: string, render: Board -> string, k: nat)
    requires k < |g.turns|
    ensures PromptOf(g, phase, render)
      == Preamble(phase, g.winner) + Blocks(g.turns[..k], render) + TurnBlock(g.turns[k], render)
        + Blocks(g.turns[k + 1..], render)
  {
    var opening := Preamble(phase, g.winner);
    ConcatAt(opening, g.turns, "", BlockOf(render), k);
    assert opening + Blocks(g.turns, render) + "" == opening + Blocks(g.turns, render);
  }

  /** The prompt names the winner: two games with the same turns give the
      same prompt exactly when they have the same winner. */
  lemma PromptNamesWinner(g1: Game, g2: Game, phase: string, render: Board -> string)
    requires g1.turns == g2.turns
    ensures PromptOf(g1, phase, render) == PromptOf(g2, phase, render) <==> g1.winner == g2.winner
  {
    BeforeEqual(Preamble(phase, g1.winner), Preamble(phase, g2.winner), Blocks(g1.turns, render));
    BetweenEqual(PhaseHead + phase + PhaseTail, WinnerText(g1.winner), WinnerText(g2.winner), WinnerTail);
    WinnerTextInjective(g1.winner, g2.winner);
  }
}
