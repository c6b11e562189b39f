/** The records of a Gomoku match log and the recognition of one turn, which
    both parsers (one game per file, several `game:` blocks per file) share;
    plus a writer of well-formed logs, the inverse the parsers are proved against.

    A log is a list of stripped, non-empty lines:
      game:<int>                 (multi-game files only)
      player:<int>
      x,y:(<int>,<int>)
      state:
      [<int>,...,<int>]          (board_size rows)
      ...
      winner:<int>

    The parsers are state machines over the `LineView` of each line: the key the
    line starts with and what `int()` makes of it. A machine consults the
    number, the move or the row of a line only where the Python code calls the
    conversion, so the outcome (including which exception) is the code's. */
module GameLog {
  import opened Text

  type Row = seq<int>
  type Board = seq<Row>

  /** One `{'player': p, 'move': (x, y), 'state': rows}` entry of a game. */
  datatype Turn = Turn(player: int, move: (int, int), state: Board)

  /** `{'game': turns, 'winner': w}`; `None` stands for Python's `None`. */
  datatype Game = Game(turns: seq<Turn>, winner: Option<int>)

  /** The Python exceptions a parse can raise. */
  datatype Exception = ValueError | IndexError

  /** How a Python parse call ends: it returns a value, it raises, or its loop
      reaches an iteration that changes no variable and so repeats forever. */
  datatype Outcome<+T> = Done(value: T) | Raised(error: Exception) | Stuck

  /** One step of a parser's state machine: carry on from a new configuration,
      or stop with an outcome. */
  datatype Step<+C, +T> = Next(config: C) | Halt(outcome: Outcome<T>)

  const GameKey := "game:"
  const PlayerKey := "player:"
  const MoveKey := "x,y:"
  const StateKey := "state:"
  const WinnerKey := "winner:"

  /** A line key: a name without colon, then one colon. */
  predicate IsKey(key: string) {
    |key| >= 1 && key[|key| - 1] == ':' && ':' !in key[..|key| - 1]
  }

  // ----- reading one line -----

  /** Which of the `startswith` tests a line passes. The keys begin with
      different letters, so at most one. */
  datatype Tag = GameTag | PlayerTag | MoveTag | StateTag | WinnerTag | NoTag

  function TagOf(line: string): Tag {
    if StartsWith(line, GameKey) then GameTag
    else if StartsWith(line, PlayerKey) then PlayerTag
    else if StartsWith(line, MoveKey) then MoveTag
    else if StartsWith(line, StateKey) then StateTag
    else if StartsWith(line, WinnerKey) then WinnerTag
    else NoTag
  }

  /** `line.split(":")[1]`, or `None` for a line without a colon. The parsers
      only ask this of a line that starts with a key, which has a colon. */
  function FieldOf(line: string): Option<string> {
    var parts := Split(line, ':');
    if |parts| < 2 then None else Some(parts[1])
  }

  /** `int(line.split(":")[1].strip())`; `None` is the ValueError case. On a
      line without a colon Python raises IndexError instead; `None` stands for
      that too, since the parsers read the number only of a line that starts
      with a key, which has a colon (`KeyLineHasField`). */
  function Number(line: string): (r: Option<int>)
    // only a line with a colon has a field to read
    ensures r.Some? ==> ':' in line
  {
    SplitSpec(line, ':');
    match FieldOf(line)
    case None => None
    case Some(f) => ParseInt(Strip(f))
  }

  /** `x, y = map(int, move_str.strip("()").split(","))` for the stripped field
      `move_str`; anything but exactly two integers is the ValueError case. */
  function MoveText(moveStr: string): (r: Option<(int, int)>)
    // the unpacking into `x, y` needs two fields, so a comma
    ensures r.Some? ==> ',' in moveStr
    // exactly two fields: one comma, with the two coordinates on either side
    ensures var t := StripBy(moveStr, IsParen);
      r.Some? ==> exists k ::
        SepOnlyAt(t, ',', k) && ParseInt(t[..k]) == Some(r.value.0) && ParseInt(t[k + 1..]) == Some(r.value.1)
  {
    SplitSpec(StripBy(moveStr, IsParen), ',');
    StripByKeeps(moveStr, IsParen, ',');
    SplitTwoParts(StripBy(moveStr, IsParen), ',');
    var xy := Split(StripBy(moveStr, IsParen), ',');
    if |xy| != 2 then None
    else
      SplitAtOnly(StripBy(moveStr, IsParen), ',', |xy[0]|);
      match (ParseInt(xy[0]), ParseInt(xy[1]))
      case (Some(x), Some(y)) => Some((x, y))
      case _ => None
  }

  /** A move text with one comma reads as the two integers on either side of
      it, and as nothing when either side is not an integer. */
  lemma MoveTextSpec(moveStr: string, k: int)
    requires SepOnlyAt(StripBy(moveStr, IsParen), ',', k)
    ensures var t := StripBy(moveStr, IsParen);
      MoveText(moveStr) == (if ParseInt(t[..k]).Some? && ParseInt(t[k + 1..]).Some?
        then Some((ParseInt(t[..k]).value, ParseInt(t[k + 1..]).value)) else None)
  {
    SplitAtOnly(StripBy(moveStr, IsParen), ',', k);
  }

  /** The move of an `x,y:` line. */
  function MoveOf(line: string): (r: Option<(int, int)>)
    ensures r.Some? ==> ':' in line
  {
    SplitSpec(line, ':');
    match FieldOf(line)
    case None => None
    case Some(f) => MoveText(Strip(f))
  }

  /** `list(map(int, fields))`: every field an integer, or the ValueError case. */
  function ParseInts(fields: seq<string>): Option<seq<int>>
    decreases |fields|
  {
    if fields == [] then Some([])
    else match (ParseInt(fields[0]), ParseInts(fields[1..]))
      case (Some(x), Some(xs)) => Some([x] + xs)
      case _ => None
  }

  /** `list(map(int, line.strip().strip("[]").split(",")))`: one board row. Its
      length is not checked. */
  function ParseRow(line: string): (r: Option<Row>)
    // a row holds at least one integer: `[]` is `int("")`, a ValueError
    ensures r.Some? ==> |r.value| >= 1
  {
    ParseIntsSpec(Split(StripBy(Strip(line), IsBracket), ','));
    ParseInts(Split(StripBy(Strip(line), IsBracket), ','))
  }

  /** A line as the parsers see it: its tag, and what the conversions the
      parsers apply to it give. */
  datatype LineView = LineView(tag: Tag, number: Option<int>, move: Option<(int, int)>, row: Option<Row>)

  function View(line: string): LineView {
    LineView(TagOf(line), Number(line), MoveOf(line), ParseRow(line))
  }

  /** The views of all lines. */
  function Views(lines: seq<string>): (vs: seq<LineView>)
    ensures |vs| == |lines|
  {
    seq(|lines|, k requires 0 <= k < |lines| => View(lines[k]))
  }

  /** Each line is viewed on its own, so the views of two runs of lines put
      together are their views put together. */
  lemma ViewsAppend(a: seq<string>, b: seq<string>)
    ensures Views(a + b) == Views(a) + Views(b)
  {
    forall k | 0 <= k < |a + b| ensures Views(a + b)[k] == (Views(a) + Views(b))[k] {
      if k < |a| {
        assert (a + b)[k] == a[k];
      } else {
        assert (a + b)[k] == b[k - |a|];
      }
    }
  }

  lemma StartsWithFirst(s: string, prefix: string)
    requires |prefix| >= 1 && StartsWith(s, prefix)
    ensures s[0] == prefix[0]
  {
    assert s[..|prefix|][0] == s[0];
  }

  /** A line that starts with one of the keys has a field after its colon, so
      `line.split(":")[1]` never raises IndexError on the lines whose number
      or move the parsers read. */
  lemma KeyLineHasField(line: string)
    requires TagOf(line) != NoTag
    ensures FieldOf(line).Some?
  {
    var key := if TagOf(line) == GameTag then GameKey
      else if TagOf(line) == PlayerTag then PlayerKey
      else if TagOf(line) == MoveTag then MoveKey
      else if TagOf(line) == StateTag then StateKey
      else WinnerKey;
    assert StartsWith(line, key);
    assert line[|key| - 1] == key[|key| - 1] == ':';
    SplitSpec(line, ':');
  }

  /** The tag says exactly which `startswith` test the line passes. */
  lemma TagOfSpec(line: string)
    ensures TagOf(line) == GameTag <==> StartsWith(line, GameKey)
    ensures TagOf(line) == PlayerTag <==> StartsWith(line, PlayerKey)
    ensures TagOf(line) == MoveTag <==> StartsWith(line, MoveKey)
    ensures TagOf(line) == StateTag <==> StartsWith(line, StateKey)
    ensures TagOf(line) == WinnerTag <==> StartsWith(line, WinnerKey)
  {
    if StartsWith(line, GameKey) { StartsWithFirst(line, GameKey); }
    if StartsWith(line, PlayerKey) { StartsWithFirst(line, PlayerKey); }
    if StartsWith(line, MoveKey) { StartsWithFirst(line, MoveKey); }
    if StartsWith(line, StateKey) { StartsWithFirst(line, StateKey); }
    if StartsWith(line, WinnerKey) { StartsWithFirst(line, WinnerKey); }
  }

  /** `map(int, ...)` succeeds exactly when every field is an integer, and then
      gives their values in order. */
  lemma {:induction false} ParseIntsSpec(fields: seq<string>)
    ensures var r := ParseInts(fields);
      (r.Some? <==> forall k :: 0 <= k < |fields| ==> ParseInt(fields[k]).Some?)
      && (r.Some? ==> (|r.value| == |fields|
        && forall k :: 0 <= k < |fields| ==> ParseInt(fields[k]) == Some(r.value[k])))
    decreases |fields|
  {
    if fields != [] {
      ParseIntsSpec(fields[1..]);
      var r := ParseInts(fields);
      var head, tail := ParseInt(fields[0]), ParseInts(fields[1..]);
      assert forall k :: 1 <= k < |fields| ==> fields[k] == fields[1..][k - 1];
      if r.Some? {
        assert head.Some? && tail.Some? && r.value == [head.value] + tail.value;
      } else if head.Some? {
        assert tail.None?;
        var k :| 0 <= k < |fields[1..]| && ParseInt(fields[1..][k]).None?;
        assert ParseInt(fields[k + 1]).None?;
      }
    }
  }

  // ----- reading one turn -----

  /** The `for _ in range(board_size)` loop that reads the rows after `state:`:
      row by row from `start`, raising ValueError at the first row that is not
      a list of integers and IndexError on running past the last line. */
  function ParseRows(v: seq<LineView>, start: nat, count: nat): (r: Outcome<Board>)
    requires start <= |v|
    // the loop always ends, and when it returns it has read `count` rows
    ensures !r.Stuck? && (r.Done? ==> |r.value| == count)
    decreases count
  {
    if count == 0 then Done([])
    else if start == |v| then Raised(IndexError)
    else match v[start].row
      case None => Raised(ValueError)
      case Some(row) =>
        var rest := ParseRows(v, start + 1, count - 1);
        if rest.Done? then Done([row] + rest.value) else rest
  }

  /** The rows are read when all `count` lines from `start` exist and are rows,
      and then they are those lines' rows in order; running out of lines while
      every line left is a row raises IndexError; nothing else can happen but a
      ValueError. */
  lemma {:induction false} ParseRowsSpec(v: seq<LineView>, start: nat, count: nat)
    requires start <= |v|
    ensures var r := ParseRows(v, start, count);
      && !r.Stuck?
      && (r.Done? <==> (start + count <= |v| && forall j :: start <= j < start + count ==> v[j].row.Some?))
      && (r.Done? ==> (|r.value| == count
        && forall j :: start <= j < start + count ==> v[j].row == Some(r.value[j - start])))
      && (r == Raised(IndexError) <==> (start + count > |v| && forall j :: start <= j < |v| ==> v[j].row.Some?))
    decreases count
  {
    if count > 0 && start < |v| && v[start].row.Some? {
      ParseRowsSpec(v, start + 1, count - 1);
    }
  }

  /** The row loop raises ValueError exactly when one of the lines it reads,
      before it runs past the last line, is not a list of integers. */
  lemma {:induction false} ParseRowsValueError(v: seq<LineView>, start: nat, count: nat)
    requires start <= |v|
    ensures ParseRows(v, start, count) == Raised(ValueError)
      <==> exists j :: start <= j < |v| && j < start + count && v[j].row.None?
    decreases count
  {
    if count > 0 && start < |v| {
      ParseRowsValueError(v, start + 1, count - 1);
      if v[start].row.None? {
        assert start < |v| && start < start + count && v[start].row.None?;
      }
    }
  }

  /** A turn recognised at index `j`: a `player:` line, an `x,y:` line, a `state:`
      line and `board_size` rows, each read as the parser reads it. */
  predicate TurnAt(v: seq<LineView>, boardSize: nat, j: nat, t: Turn) {
    j + 3 + boardSize <= |v|
    && v[j].tag == PlayerTag && v[j].number == Some(t.player)
    && v[j + 1].tag == MoveTag && v[j + 1].move == Some(t.move)
    && v[j + 2].tag == StateTag
    && |t.state| == boardSize
    && forall k :: j + 3 <= k < j + 3 + boardSize ==> v[k].row == Some(t.state[k - (j + 3)])
  }

  /** The turns `ts` recognised one after the other from index `i`, the last
      one ending just before index `j`. */
  predicate TurnsAt(v: seq<LineView>, boardSize: nat, i: nat, ts: seq<Turn>, j: nat)
    decreases |ts|
  {
    if ts == [] then i == j
    else TurnAt(v, boardSize, i, ts[0]) && TurnsAt(v, boardSize, i + 3 + boardSize, ts[1..], j)
  }

  /** How many lines the turns `ts` take. */
  function TurnsLength(ts: seq<Turn>, boardSize: nat): nat
    decreases |ts|
  {
    if ts == [] then 0 else 3 + boardSize + TurnsLength(ts[1..], boardSize)
  }

  /** The turn `t` is recognised somewhere in the input. */
  predicate Found(v: seq<LineView>, boardSize: nat, t: Turn) {
    exists j :: 0 <= j < |v| && TurnAt(v, boardSize, j, t)
  }

  /** Every turn of `ts` is recognised somewhere in the input. */
  predicate Recognised(v: seq<LineView>, boardSize: nat, ts: seq<Turn>) {
    forall k :: 0 <= k < |ts| ==> Found(v, boardSize, ts[k])
  }

  lemma RecognisedAppend(v: seq<LineView>, boardSize: nat, ts: seq<Turn>, t: Turn, at: nat)
    requires Recognised(v, boardSize, ts) && at < |v| && TurnAt(v, boardSize, at, t)
    ensures Recognised(v, boardSize, ts + [t])
  {
    assert Found(v, boardSize, t);
    forall k | 0 <= k < |ts + [t]| ensures Found(v, boardSize, (ts + [t])[k]) {
      if k < |ts| {
        assert (ts + [t])[k] == ts[k];
      } else {
        assert (ts + [t])[k] == t;
      }
    }
  }

  /** What reading from a `player:` line gives: a turn and the index after it, no
      turn and the index to resume at, or an exception. */
  datatype TurnRead = Emit(turn: Turn, next: nat) | NoTurn(next: nat) | Failed(error: Exception)

  /** The body both parsers run on a line starting with `player:`. */
  function TurnStep(v: seq<LineView>, boardSize: nat, i: nat): (r: TurnRead)
    requires i < |v| && v[i].tag == PlayerTag
    ensures r.Emit? ==> r.next == i + 3 + boardSize && TurnAt(v, boardSize, i, r.turn)
    ensures r.NoTurn? ==> r.next == i + 2 <= |v|
    // an unparsable player number raises before anything else is looked at
    ensures v[i].number.None? ==> r == Failed(ValueError)
    // `player:` as the last line: the next line is past the end
    ensures v[i].number.Some? && i + 1 == |v| ==> r == Failed(IndexError)
    // `player:` followed by anything but `x,y:`: both lines are consumed, no turn
    ensures (v[i].number.Some? && i + 1 < |v| && v[i + 1].tag != MoveTag) ==> r == NoTurn(i + 2)
    // a move that is not two integers raises
    ensures (v[i].number.Some? && i + 1 < |v| && v[i + 1].tag == MoveTag && v[i + 1].move.None?)
      ==> r == Failed(ValueError)
    // `x,y:` as the last line: past the end again
    ensures (v[i].number.Some? && i + 2 == |v| && v[i + 1].tag == MoveTag && v[i + 1].move.Some?)
      ==> r == Failed(IndexError)
    // `x,y:` not followed by `state:`: no turn, and the cursor stays on that next line
    ensures (v[i].number.Some? && i + 2 < |v| && v[i + 1].tag == MoveTag && v[i + 1].move.Some?
      && v[i + 2].tag != StateTag) ==> r == NoTurn(i + 2)
    // fewer than `board_size` lines after `state:`, all of them rows
    ensures (v[i].number.Some? && i + 2 < |v| && v[i + 1].tag == MoveTag && v[i + 1].move.Some?
      && v[i + 2].tag == StateTag && i + 3 + boardSize > |v|
      && forall k :: i + 3 <= k < |v| ==> v[k].row.Some?) ==> r == Failed(IndexError)
    // a line among the `board_size` after `state:` that is not a list of integers raises
    ensures (v[i].number.Some? && i + 2 < |v| && v[i + 1].tag == MoveTag && v[i + 1].move.Some?
      && v[i + 2].tag == StateTag
      && exists k :: i + 3 <= k < |v| && k < i + 3 + boardSize && v[k].row.None?) ==> r == Failed(ValueError)
  {
    match v[i].number
    case None => Failed(ValueError)
    case Some(player) =>
      if i + 1 == |v| then Failed(IndexError)
      else if v[i + 1].tag != MoveTag then NoTurn(i + 2)
      else match v[i + 1].move
        case None => Failed(ValueError)
        case Some(move) =>
          if i + 2 == |v| then Failed(IndexError)
          else if v[i + 2].tag != StateTag then NoTurn(i + 2)
          else
            ParseRowsSpec(v, i + 3, boardSize);
            ParseRowsValueError(v, i + 3, boardSize);
            var rows := ParseRows(v, i + 3, boardSize);
            if rows.Done? then Emit(Turn(player, move, rows.value), i + 3 + boardSize)
            else Failed(rows.error)
  }

  /** A recognised turn is exactly what `TurnStep` emits there. */
  lemma {:induction false} TurnStepComplete(v: seq<LineView>, boardSize: nat, i: nat, t: Turn)
    requires TurnAt(v, boardSize, i, t)
    ensures TurnStep(v, boardSize, i) == Emit(t, i + 3 + boardSize)
  {
    var rows := ParseRows(v, i + 3, boardSize);
    ParseRowsSpec(v, i + 3, boardSize);
    assert rows.Done?;
    forall k | 0 <= k < boardSize ensures rows.value[k] == t.state[k] {
      assert v[i + 3 + k].row == Some(rows.value[k]);
    }
    assert rows.value == t.state;
  }

  /** Lines put after a read that did not run past the end change nothing. */
  lemma {:induction false} ParseRowsExtend(v: seq<LineView>, back: seq<LineView>, start: nat, count: nat)
    requires start <= |v|
    requires ParseRows(v, start, count) != Raised(IndexError)
    ensures ParseRows(v + back, start, count) == ParseRows(v, start, count)
    decreases count
  {
    if count > 0 && start < |v| {
      assert (v + back)[start] == v[start];
      if v[start].row.Some? {
        ParseRowsExtend(v, back, start + 1, count - 1);
      }
    }
  }

  lemma {:induction false} TurnStepExtend(v: seq<LineView>, back: seq<LineView>, boardSize: nat, i: nat)
    requires i < |v| && v[i].tag == PlayerTag
    requires TurnStep(v, boardSize, i) != Failed(IndexError)
    ensures (v + back)[i] == v[i]
    ensures TurnStep(v + back, boardSize, i) == TurnStep(v, boardSize, i)
  {
    var all := v + back;
    assert all[i] == v[i];
    if i + 1 < |v| { assert all[i + 1] == v[i + 1]; }
    if i + 2 < |v| {
      assert all[i + 2] == v[i + 2];
      if ParseRows(v, i + 3, boardSize) != Raised(IndexError) {
        ParseRowsExtend(v, back, i + 3, boardSize);
      }
    }
  }

  // ----- the imperative turn reader -----

  /** `rows` already read, in front of whatever the rest of the loop gives. */
  function Prefixed(rows: Board, rest: Outcome<Board>): Outcome<Board> {
    if rest.Done? then Done(rows + rest.value) else rest
  }

  lemma PrefixedNone(rest: Outcome<Board>)
    ensures Prefixed([], rest) == rest
  {
    if rest.Done? {
      assert [] + rest.value == rest.value;
    }
  }

  lemma PrefixedDone(rows: Board)
    ensures Prefixed(rows, Done([])) == Done(rows)
  {
    assert rows + [] == rows;
  }

  lemma PrefixedAppend(rows: Board, row: Row, rest: Outcome<Board>)
    ensures Prefixed(rows, Prefixed([row], rest)) == Prefixed(rows + [row], rest)
  {
    if rest.Done? {
      assert rows + ([row] + rest.value) == rows + [row] + rest.value;
    }
  }

  /** One more iteration of the row loop, seen from the rows read so far. */
  lemma ParseRowsStep(v: seq<LineView>, i: nat, count: nat)
    requires i <= |v| && count > 0
    ensures i == |v| ==> ParseRows(v, i, count) == Raised(IndexError)
    ensures i < |v| && v[i].row.None? ==> ParseRows(v, i, count) == Raised(ValueError)
    ensures (i < |v| && v[i].row.Some?) ==>
      ParseRows(v, i, count) == Prefixed([v[i].row.value], ParseRows(v, i + 1, count - 1))
  {
  }

  /** The `for _ in range(board_size)` loop: `state` grows by one parsed row
      per iteration while `i` walks over the lines. */
  method ReadStateRows(v: seq<LineView>, start: nat, boardSize: nat) returns (r: Outcome<Board>)
    requires start <= |v|
    ensures r == ParseRows(v, start, boardSize)
  {
    var state: Board := [];
    var i := start;
    PrefixedNone(ParseRows(v, i, boardSize));
    for k := 0 to boardSize
      invariant i == start + k <= |v|
      invariant ParseRows(v, start, boardSize) == Prefixed(state, ParseRows(v, i, boardSize - k))
    {
      ParseRowsStep(v, i, boardSize - k);
      if i == |v| {
        return Raised(IndexError);
      }
      var stateLine := v[i].row;
      if stateLine.None? {
        return Raised(ValueError);
      }
      PrefixedAppend(state, stateLine.value, ParseRows(v, i + 1, boardSize - k - 1));
      state := state + [stateLine.value];
      i := i + 1;
    }
    PrefixedDone(state);
    return Done(state);
  }

  /** The lines after `if lines[i].startswith("player:"):` in either parser, up
      to the append of the turn: the cursor it leaves and the turn it read. */
  method ReadTurn(v: seq<LineView>, boardSize: nat, i: nat) returns (r: TurnRead)
    requires i < |v| && v[i].tag == PlayerTag
    ensures r == TurnStep(v, boardSize, i)
  {
    var player := v[i].number;
    if player.None? {
      return Failed(ValueError);
    }
    var j := i + 1;
    if j == |v| {
      return Failed(IndexError);
    }
    if v[j].tag != MoveTag {
      return NoTurn(j + 1);
    }
    var move := v[j].move;
    if move.None? {
      return Failed(ValueError);
    }
    j := j + 1;
    if j == |v| {
      return Failed(IndexError);
    }
    if v[j].tag != StateTag {
      return NoTurn(j);
    }
    j := j + 1;
    ParseRowsSpec(v, j, boardSize);
    var state := ReadStateRows(v, j, boardSize);
    if !state.Done? {
      return Failed(state.error);
    }
    return Emit(Turn(player.value, move.value, state.value), j + boardSize);
  }
}
