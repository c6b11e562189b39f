/** The text both prompt builders give each turn of a game, and the fold that
    strings those texts together. The board is rendered by `render`, which
    stands for numpy's `str(np.array(state))`. */
module PromptText {
  import opened Text
  import opened GameLog

  /** `str(move)` for a tuple of two ints. The text is one the move field of
      an `x,y:` line is read from, and it reads back as the move. */
  function MoveString(m: (int, int)): (r: string)
    ensures MoveText(r) == Some(m)
  {
    TupleTextParses(m);
    "(" + IntToString(m.0) + ", " + IntToString(m.1) + ")"
  }

  /** `int` skips the space `str` of a tuple puts after the comma. */
  lemma {:induction false} SpacedIntParses(n: int)
    ensures ParseInt([' '] + IntToString(n)) == Some(n)
  {
    var b := IntToString(n);
    var sb := [' '] + b;
    IntToStringStripped(n);
    assert sb[1..] == b;
    assert TrimStart(sb, IsSpace) == TrimStart(b, IsSpace);
    assert Strip(sb) == Strip(b);
    ParseIntToString(n);
  }

  /** `(a, b)` with `a` and `b` written by `str`, stripped of its parentheses,
      split at the comma and given to `int`, is the pair again. */
  lemma {:induction false} TupleTextParses(m: (int, int))
    ensures MoveText("(" + IntToString(m.0) + ", " + IntToString(m.1) + ")") == Some(m)
  {
    var a, b := IntToString(m.0), IntToString(m.1);
    IntToStringChars(m.0);
    IntToStringChars(m.1);
    var sb := [' '] + b;
    var inner := a + [','] + sb;
    assert "(" + a + ", " + b + ")" == ['('] + inner + [')'];
    assert inner[0] == a[0] && inner[|inner| - 1] == b[|b| - 1];
    StripByEnclosed('(', inner, ')', IsParen);
    assert ',' !in a && ',' !in sb;
    assert Join([a, sb], ',') == inner;
    SplitJoin([a, sb], ',');
    ParseIntToString(m.0);
    SpacedIntParses(m.1);
  }

  /** `str(winner)`, where a game read to the end of input has winner `None`:
      the text is `None` exactly for that game, and otherwise reads back as
      the winner. */
  function WinnerText(w: Option<int>): (r: string)
    ensures r == "None" <==> w.None?
    ensures w.Some? ==> ParseInt(r) == w
  {
    match w
    case None => "None"
    case Some(n) =>
      IntToStringChars(n);
      ParseIntToString(n);
      IntToString(n)
  }

  /** `str(winner)` tells the winners apart: no number prints as `None`, and
      different numbers print differently. */
  lemma WinnerTextInjective(a: Option<int>, b: Option<int>)
    ensures WinnerText(a) == WinnerText(b) <==> a == b
  {
  }

  // The fixed text around a turn's player and move.
  const PlayerHead: string := "玩家 "
  const MoveHead: string := " 下在位置 "
  const BoardHead: string := "，棋盘状态如下：\n"
  const BlankLine: string := "\n\n"

  /** Where the two pieces of a text sit. */
  lemma Joined(a: string, b: string)
    ensures StartsWith(a + b, a)
    ensures |a + b| - |b| == |a| && (a + b)[|a + b| - |b|..] == b
  {
  }

  /** The text one turn adds to a prompt. */
  function TurnBlock(t: Turn, render: Board -> string): (r: string)
    // it opens by naming the player, then the move
    ensures StartsWith(r, PlayerHead + IntToString(t.player) + MoveHead + MoveString(t.move) + BoardHead)
    // and nothing stands between the two
    ensures |r| == |PlayerHead + IntToString(t.player) + MoveHead + MoveString(t.move) + BoardHead|
      + |render(t.state)| + |BlankLine|
    // it closes with the rendered board and a blank line
    ensures |r| >= |render(t.state)| + 2 && r[|r| - |render(t.state)| - 2..] == render(t.state) + BlankLine
  {
    var head := PlayerHead + IntToString(t.player) + MoveHead + MoveString(t.move) + BoardHead;
    var board := render(t.state) + BlankLine;
    Joined(head, board);
    head + board
  }

  /** `TurnBlock` with the renderer fixed, as the loop applies it. */
  function BlockOf(render: Board -> string): Turn -> string {
    t => TurnBlock(t, render)
  }

  /** The texts `f` gives the items of `xs`, one after the other: what a loop
      of `prompt += f(x)` over `xs` adds. */
  function Concat<T>(xs: seq<T>, f: T -> string): string
    decreases |xs|
  {
    if xs == [] then "" else f(xs[0]) + Concat(xs[1..], f)
  }

  /** The texts of the turns `ts`, in order. */
  function Blocks(ts: seq<Turn>, render: Board -> string): string {
    Concat(ts, BlockOf(render))
  }

  /** The texts of two runs of items, one after the other. */
  lemma {:induction false} ConcatSplit<T>(a: seq<T>, b: seq<T>, f: T -> string)
    ensures Concat(a + b, f) == Concat(a, f) + Concat(b, f)
    decreases |a|
  {
    if a == [] {
      assert a + b == b;
    } else {
      assert (a + b)[0] == a[0] && (a + b)[1..] == a[1..] + b;
      ConcatSplit(a[1..], b, f);
    }
  }

  /** What one more iteration of the loop adds: the text of the next item. */
  lemma {:induction false} ConcatAppend<T>(xs: seq<T>, x: T, f: T -> string)
    ensures Concat(xs + [x], f) == Concat(xs, f) + f(x)
  {
    ConcatSplit(xs, [x], f);
    assert [x][1..] == [];
  }

  /** One text per item, in order: in a text made of an opening, the texts of
      the items and a closing, the text of item `k` comes after the texts of
      the items before it and before the texts of the items after it. */
  lemma {:induction false} ConcatAt<T>(opening: string, xs: seq<T>, closing: string, f: T -> string, k: nat)
    requires k < |xs|
    ensures opening + Concat(xs, f) + closing
      == opening + Concat(xs[..k], f) + f(xs[k]) + Concat(xs[k + 1..], f) + closing
  {
    var tail := [xs[k]] + xs[k + 1..];
    assert xs == xs[..k] + tail;
    ConcatSplit(xs[..k], tail, f);
    assert tail[0] == xs[k] && tail[1..] == xs[k + 1..];
  }

  /** The loop both prompt builders run: `prompt += f(x)` for each item, in
      order, after the `prefix` the prompt already holds. */
  method AppendAll<T>(prefix: string, xs: seq<T>, f: T -> string) returns (prompt: string)
    ensures prompt == prefix + Concat(xs, f)
  {
    prompt := prefix;
    for k := 0 to |xs|
      invariant prompt == prefix + Concat(xs[..k], f)
    {
      ConcatAppend(xs[..k], xs[k], f);
      assert xs[..k + 1] == xs[..k] + [xs[k]];
      prompt := prompt + f(xs[k]);
    }
    assert xs[..|xs|] == xs;
  }

  /** Where the pieces of a text made of three pieces sit. */
  lemma {:induction false} Pieces(head: string, x: string, tail: string)
    ensures (head + x + tail)[..|head|] == head
    ensures (head + x + tail)[|head|..|head| + |x|] == x
    ensures (head + x + tail)[|head| + |x|..] == tail
  {
  }

  /** Text put between a fixed head and a fixed tail can be read back: two
      such texts are equal exactly when what is between them is. */
  lemma {:induction false} BetweenEqual(head: string, x: string, y: string, tail: string)
    ensures head + x + tail == head + y + tail <==> x == y
  {
    if head + x + tail == head + y + tail {
      assert |x| == |y|;
      assert x == (head + x + tail)[|head|..|head| + |x|];
      assert y == (head + y + tail)[|head|..|head| + |y|];
    }
  }

  /** Texts after the same head are equal exactly when their rests are. */
  lemma {:induction false} AfterEqual(head: string, x: string, y: string)
    ensures head + x == head + y <==> x == y
  {
    if head + x == head + y {
      assert x == (head + x)[|head|..];
      assert y == (head + y)[|head|..];
    }
  }

  /** Texts before the same tail are equal exactly when their fronts are. */
  lemma {:induction false} BeforeEqual(x: string, y: string, tail: string)
    ensures x + tail == y + tail <==> x == y
  {
    if x + tail == y + tail {
      assert x == (x + tail)[..|x|];
      assert y == (y + tail)[..|y|];
    }
  }
}
