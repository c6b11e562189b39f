/** A writer of well-formed match logs: the inverse the parsers are proved
    against. A log is first a list of entries, one per line, and then the text
    of each entry in the format the parsers read. */
module LogWriter {
  import opened Text
  import opened GameLog

  /** One line of a log before it is written out. */
  datatype Entry =
    | GameEntry(n: int)
    | PlayerEntry(p: int)
    | MoveEntry(m: (int, int))
    | StateEntry
    | RowEntry(row: Row)
    | WinnerEntry(w: int)

  // ----- the text of one entry -----

  function KeyLine(key: string, n: int): string { key + IntToString(n) }
  function GameLine(n: int): string { KeyLine(GameKey, n) }
  function PlayerLine(p: int): string { KeyLine(PlayerKey, p) }
  function WinnerLine(w: int): string { KeyLine(WinnerKey, w) }

  function MoveLine(m: (int, int)): string {
    MoveKey + "(" + IntToString(m.0) + "," + IntToString(m.1) + ")"
  }

  function IntStrings(xs: seq<int>): (r: seq<string>)
    ensures |r| == |xs| && forall k :: 0 <= k < |xs| ==> r[k] == IntToString(xs[k])
  {
    seq(|xs|, k requires 0 <= k < |xs| => IntToString(xs[k]))
  }

  function RowLine(row: Row): string {
    "[" + Join(IntStrings(row), ',') + "]"
  }

  function Render(e: Entry): string {
    match e
    case GameEntry(n) => GameLine(n)
    case PlayerEntry(p) => PlayerLine(p)
    case MoveEntry(m) => MoveLine(m)
    case StateEntry => StateKey
    case RowEntry(row) => RowLine(row)
    case WinnerEntry(w) => WinnerLine(w)
  }

  /** The lines of a log. */
  function Written(es: seq<Entry>): (lines: seq<string>)
    ensures |lines| == |es| && forall k :: 0 <= k < |es| ==> lines[k] == Render(es[k])
  {
    seq(|es|, k requires 0 <= k < |es| => Render(es[k]))
  }

  /** An entry the parsers can read back: a written empty row `[]` is
      `int("")`, a ValueError. */
  predicate Writable(e: Entry) {
    e.RowEntry? ==> e.row != []
  }

  /** What a parser has to see in the line written for an entry. */
  predicate Shows(view: LineView, e: Entry) {
    match e
    case GameEntry(n) => view.tag == GameTag && view.number == Some(n)
    case PlayerEntry(p) => view.tag == PlayerTag && view.number == Some(p)
    case MoveEntry(m) => view.tag == MoveTag && view.move == Some(m)
    case StateEntry => view.tag == StateTag
    case RowEntry(row) => view.tag == NoTag && view.row == Some(row)
    case WinnerEntry(w) => view.tag == WinnerTag && view.number == Some(w)
  }

  // ----- reading one written line back -----

  /** The field of a key line is what follows the key. */
  lemma {:induction false} KeyLineField(key: string, text: string)
    requires IsKey(key) && ':' !in text
    ensures StartsWith(key + text, key) && FieldOf(key + text) == Some(text)
  {
    var name := key[..|key| - 1];
    assert key == name + [':'];
    assert key + text == name + [':'] + text;
    assert (key + text)[..|key|] == key;
    SplitAfter(name, ':', text);
    SplitNoSep(text, ':');
  }

  /** `int(...)` reads back the number a key line was written with. */
  lemma {:induction false} KeyLineNumber(key: string, n: int)
    requires IsKey(key)
    ensures StartsWith(KeyLine(key, n), key) && Number(KeyLine(key, n)) == Some(n)
  {
    IntToStringChars(n);
    KeyLineField(key, IntToString(n));
    IntToStringStripped(n);
    ParseIntToString(n);
  }

  /** `(a,b)` with `a` and `b` written by `str` reads back as the pair. */
  lemma {:induction false} MoveTextParses(m: (int, int))
    ensures MoveText("(" + IntToString(m.0) + "," + IntToString(m.1) + ")") == Some(m)
  {
    var a, b := IntToString(m.0), IntToString(m.1);
    IntToStringChars(m.0);
    IntToStringChars(m.1);
    var inner := a + [','] + b;
    assert "(" + a + "," + b + ")" == ['('] + inner + [')'];
    assert inner[0] == a[0] && inner[|inner| - 1] == b[|b| - 1];
    StripByEnclosed('(', inner, ')', IsParen);
    assert Join([a, b], ',') == inner;
    SplitJoin([a, b], ',');
    ParseIntToString(m.0);
    ParseIntToString(m.1);
  }

  lemma {:induction false} MoveLineMove(m: (int, int))
    ensures StartsWith(MoveLine(m), MoveKey) && MoveOf(MoveLine(m)) == Some(m)
  {
    var a, b := IntToString(m.0), IntToString(m.1);
    IntToStringChars(m.0);
    IntToStringChars(m.1);
    var field := "(" + a + "," + b + ")";
    assert MoveLine(m) == MoveKey + field;
    assert ':' !in field;
    KeyLineField(MoveKey, field);
    StripByUnchanged(field, IsSpace);
    MoveTextParses(m);
  }

  /** The text between the brackets of a written row. */
  lemma {:induction false} RowLineInner(row: Row)
    requires row != []
    ensures StripBy(Strip(RowLine(row)), IsBracket) == Join(IntStrings(row), ',')
  {
    var parts := IntStrings(row);
    IntToStringChars(row[0]);
    IntToStringChars(row[|row| - 1]);
    var inner := Join(parts, ',');
    JoinFirst(parts, ',');
    JoinLast(parts, ',');
    var line := ['['] + inner + [']'];
    assert RowLine(row) == line;
    StripByUnchanged(line, IsSpace);
    StripByEnclosed('[', inner, ']', IsBracket);
  }

  /** `map(int, ...)` reads back the numbers `str` wrote. */
  lemma IntStringsParse(row: Row)
    ensures ParseInts(IntStrings(row)) == Some(row)
  {
    var parts := IntStrings(row);
    forall k | 0 <= k < |parts| ensures ParseInt(parts[k]) == Some(row[k]) {
      ParseIntToString(row[k]);
    }
    ParseIntsSpec(parts);
    var r := ParseInts(parts).value;
    assert forall k :: 0 <= k < |row| ==> r[k] == row[k];
    assert r == row;
  }

  lemma {:induction false} RowLineRow(row: Row)
    requires row != []
    ensures ParseRow(RowLine(row)) == Some(row)
  {
    var parts := IntStrings(row);
    forall k | 0 <= k < |parts| ensures ',' !in parts[k] {
      IntToStringChars(row[k]);
    }
    RowLineInner(row);
    SplitJoin(parts, ',');
    IntStringsParse(row);
  }

  lemma StartsWithKey(key: string, text: string)
    ensures StartsWith(key + text, key)
  {
    assert (key + text)[..|key|] == key;
  }

  /** The views of the written lines: each key line carries its tag and the
      number or move it was written with, and a row line is no key line and
      carries its row. */
  lemma GameLineView(n: int)
    ensures View(GameLine(n)).tag == GameTag && View(GameLine(n)).number == Some(n)
  {
    KeyLineNumber(GameKey, n);
    TagOfSpec(GameLine(n));
  }

  lemma PlayerLineView(p: int)
    ensures View(PlayerLine(p)).tag == PlayerTag && View(PlayerLine(p)).number == Some(p)
  {
    KeyLineNumber(PlayerKey, p);
    TagOfSpec(PlayerLine(p));
  }

  lemma WinnerLineView(w: int)
    ensures View(WinnerLine(w)).tag == WinnerTag && View(WinnerLine(w)).number == Some(w)
  {
    KeyLineNumber(WinnerKey, w);
    TagOfSpec(WinnerLine(w));
  }

  lemma MoveLineView(m: (int, int))
    ensures View(MoveLine(m)).tag == MoveTag && View(MoveLine(m)).move == Some(m)
  {
    MoveLineMove(m);
    TagOfSpec(MoveLine(m));
  }

  lemma StateLineView()
    ensures View(StateKey).tag == StateTag
  {
    StartsWithKey(StateKey, "");
    assert StateKey + "" == StateKey;
    TagOfSpec(StateKey);
  }

  lemma RowLineView(row: Row)
    requires row != []
    ensures View(RowLine(row)).tag == NoTag && View(RowLine(row)).row == Some(row)
  {
    var r := RowLine(row);
    RowLineRow(row);
    TagOfSpec(r);
    assert r[0] == '[';
    if StartsWith(r, GameKey) { StartsWithFirst(r, GameKey); }
    if StartsWith(r, PlayerKey) { StartsWithFirst(r, PlayerKey); }
    if StartsWith(r, MoveKey) { StartsWithFirst(r, MoveKey); }
    if StartsWith(r, StateKey) { StartsWithFirst(r, StateKey); }
    if StartsWith(r, WinnerKey) { StartsWithFirst(r, WinnerKey); }
  }

  lemma RenderShows(e: Entry)
    requires Writable(e)
    ensures Shows(View(Render(e)), e)
  {
    match e
    case GameEntry(n) => GameLineView(n);
    case PlayerEntry(p) => PlayerLineView(p);
    case MoveEntry(m) => MoveLineView(m);
    case StateEntry => StateLineView();
    case RowEntry(row) => RowLineView(row);
    case WinnerEntry(w) => WinnerLineView(w);
  }

  /** From index `d` on, the views show the entries `es`, one per line. */
  predicate ShowsFrom(v: seq<LineView>, d: nat, es: seq<Entry>) {
    d + |es| <= |v| && forall k :: 0 <= k < |es| ==> Shows(v[d + k], es[k])
  }

  /** Showing a concatenation is showing its two halves one after the other. */
  lemma ShowsFromSplit(v: seq<LineView>, d: nat, a: seq<Entry>, b: seq<Entry>)
    requires ShowsFrom(v, d, a + b)
    ensures ShowsFrom(v, d, a) && ShowsFrom(v, d + |a|, b)
  {
    forall k | 0 <= k < |a| ensures Shows(v[d + k], a[k]) {
      assert (a + b)[k] == a[k];
    }
    forall k | 0 <= k < |b| ensures Shows(v[d + |a| + k], b[k]) {
      assert (a + b)[|a| + k] == b[k];
    }
  }

  /** Written entries show themselves, whatever lines come before and after
      them. */
  lemma WrittenShows(front: seq<string>, es: seq<Entry>, back: seq<string>)
    requires forall k :: 0 <= k < |es| ==> Writable(es[k])
    ensures ShowsFrom(Views(front + Written(es) + back), |front|, es)
  {
    var lines := front + Written(es) + back;
    forall k | 0 <= k < |es| ensures Shows(Views(lines)[|front| + k], es[k]) {
      ShowsAt(lines, |front| + k, es[k]);
    }
  }

  lemma ShowsAt(lines: seq<string>, j: nat, e: Entry)
    requires j < |lines| && lines[j] == Render(e) && Writable(e)
    ensures Shows(Views(lines)[j], e)
  {
    RenderShows(e);
  }

  // ----- the entries of turns -----

  function RowEntries(b: Board): (es: seq<Entry>)
    ensures |es| == |b| && forall k :: 0 <= k < |b| ==> es[k] == RowEntry(b[k])
  {
    seq(|b|, k requires 0 <= k < |b| => RowEntry(b[k]))
  }

  function TurnEntries(t: Turn): seq<Entry> {
    [PlayerEntry(t.player), MoveEntry(t.move), StateEntry] + RowEntries(t.state)
  }

  function TurnsEntries(ts: seq<Turn>): seq<Entry>
    decreases |ts|
  {
    if ts == [] then [] else TurnEntries(ts[0]) + TurnsEntries(ts[1..])
  }

  /** A turn the writer can express and the parsers read back: `board_size`
      rows, none of them empty. */
  predicate WellFormedTurn(t: Turn, boardSize: nat) {
    |t.state| == boardSize && forall k :: 0 <= k < |t.state| ==> t.state[k] != []
  }

  predicate WellFormedTurns(ts: seq<Turn>, boardSize: nat) {
    forall k :: 0 <= k < |ts| ==> WellFormedTurn(ts[k], boardSize)
  }

  /** The entries of all turns are writable. */
  lemma TurnsEntriesWritable(ts: seq<Turn>, boardSize: nat)
    requires WellFormedTurns(ts, boardSize)
    ensures forall k :: 0 <= k < |TurnsEntries(ts)| ==> Writable(TurnsEntries(ts)[k])
    decreases |ts|
  {
    if ts != [] {
      assert WellFormedTurn(ts[0], boardSize);
      assert WellFormedTurns(ts[1..], boardSize) by {
        forall k | 0 <= k < |ts[1..]| ensures WellFormedTurn(ts[1..][k], boardSize) {
          assert ts[1..][k] == ts[k + 1];
        }
      }
      TurnsEntriesWritable(ts[1..], boardSize);
    }
  }

  /** A written turn is recognised as that turn. */
  lemma {:induction false} TurnEntriesRecognised(v: seq<LineView>, d: nat, boardSize: nat, t: Turn)
    requires ShowsFrom(v, d, TurnEntries(t)) && WellFormedTurn(t, boardSize)
    ensures TurnAt(v, boardSize, d, t)
  {
    var block := TurnEntries(t);
    assert Shows(v[d], block[0]) && Shows(v[d + 1], block[1]) && Shows(v[d + 2], block[2]);
    forall k | d + 3 <= k < d + 3 + boardSize ensures v[k].row == Some(t.state[k - (d + 3)]) {
      assert Shows(v[d + (k - d)], block[k - d]);
    }
  }

  /** Written turns are recognised as those turns, one after the other. */
  lemma {:induction false} TurnsEntriesRecognised(v: seq<LineView>, d: nat, boardSize: nat, ts: seq<Turn>)
    requires ShowsFrom(v, d, TurnsEntries(ts)) && WellFormedTurns(ts, boardSize)
    ensures TurnsAt(v, boardSize, d, ts, d + |TurnsEntries(ts)|)
    decreases |ts|
  {
    if ts != [] {
      var head := TurnEntries(ts[0]);
      ShowsFromSplit(v, d, head, TurnsEntries(ts[1..]));
      assert WellFormedTurn(ts[0], boardSize);
      TurnEntriesRecognised(v, d, boardSize, ts[0]);
      assert WellFormedTurns(ts[1..], boardSize) by {
        forall k | 0 <= k < |ts[1..]| ensures WellFormedTurn(ts[1..][k], boardSize) {
          assert ts[1..][k] == ts[k + 1];
        }
      }
      TurnsEntriesRecognised(v, d + |head|, boardSize, ts[1..]);
    }
  }

  /** Written, well-formed turns take the lines the parsers read them from. */
  lemma {:induction false} TurnsEntriesLength(ts: seq<Turn>, boardSize: nat)
    requires WellFormedTurns(ts, boardSize)
    ensures |TurnsEntries(ts)| == TurnsLength(ts, boardSize)
    decreases |ts|
  {
    if ts != [] {
      assert WellFormedTurn(ts[0], boardSize);
      assert WellFormedTurns(ts[1..], boardSize) by {
        forall k | 0 <= k < |ts[1..]| ensures WellFormedTurn(ts[1..][k], boardSize) {
          assert ts[1..][k] == ts[k + 1];
        }
      }
      TurnsEntriesLength(ts[1..], boardSize);
    }
  }
}
