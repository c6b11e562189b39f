/** The line filter both parsers are fed through: `read_game_file` strips
    every line of the file and keeps the ones left non-empty. */
module LineFilter {
  import opened Text
  import opened GameLog
  import opened LogWriter

  /** A line as the parsers receive it: stripped and not empty. */
  predicate Clean(line: string) {
    line != [] && Strip(line) == line
  }

  /** `[line.strip() for line in file if line.strip()]`. */
  function Filter(raw: seq<string>): (lines: seq<string>)
    ensures |lines| <= |raw|
    decreases |raw|
  {
    if raw == [] then []
    else (if Strip(raw[0]) != [] then [Strip(raw[0])] else []) + Filter(raw[1..])
  }

  /** Every line that comes out is clean. */
  lemma {:induction false} FilterClean(raw: seq<string>)
    ensures forall k :: 0 <= k < |Filter(raw)| ==> Clean(Filter(raw)[k])
    decreases |raw|
  {
    if raw != [] {
      StripIdempotent(raw[0]);
      FilterClean(raw[1..]);
    }
  }

  /** The filter keeps the order of the lines: filtering two pieces of a file
      and putting the results together is filtering the whole file. */
  lemma {:induction false} FilterAppend(a: seq<string>, b: seq<string>)
    ensures Filter(a + b) == Filter(a) + Filter(b)
    decreases |a|
  {
    if a != [] {
      assert (a + b)[0] == a[0] && (a + b)[1..] == a[1..] + b;
      FilterAppend(a[1..], b);
    } else {
      assert a + b == b;
    }
  }

  /** A line comes out exactly when it is some line of the file, stripped, and
      not empty. */
  lemma {:induction false} FilterMembers(raw: seq<string>, line: string)
    ensures line in Filter(raw) <==> (line != [] && exists k :: 0 <= k < |raw| && Strip(raw[k]) == line)
    decreases |raw|
  {
    if raw != [] {
      FilterMembers(raw[1..], line);
      if exists k :: 0 <= k < |raw[1..]| && Strip(raw[1..][k]) == line {
        var k :| 0 <= k < |raw[1..]| && Strip(raw[1..][k]) == line;
        assert Strip(raw[k + 1]) == line;
      }
      if exists k :: 0 <= k < |raw| && Strip(raw[k]) == line {
        var k :| 0 <= k < |raw| && Strip(raw[k]) == line;
        if k > 0 {
          assert Strip(raw[1..][k - 1]) == line;
        }
      }
    }
  }

  /** Clean lines pass through unchanged. */
  lemma {:induction false} FilterKeepsClean(raw: seq<string>)
    requires forall k :: 0 <= k < |raw| ==> Clean(raw[k])
    ensures Filter(raw) == raw
    decreases |raw|
  {
    if raw != [] {
      FilterKeepsClean(raw[1..]);
      assert [raw[0]] + raw[1..] == raw;
    }
  }

  /** Filtering twice is filtering once. */
  lemma FilterIdempotent(raw: seq<string>)
    ensures Filter(Filter(raw)) == Filter(raw)
  {
    FilterClean(raw);
    FilterKeepsClean(Filter(raw));
  }

  /** A line that neither starts nor ends with white space is clean. */
  lemma ClearEnds(line: string)
    requires line != [] && !IsSpace(line[0]) && !IsSpace(line[|line| - 1])
    ensures Clean(line)
  {
    StripByUnchanged(line, IsSpace);
  }

  lemma KeyLineClean(key: string, n: int)
    requires IsKey(key) && !IsSpace(key[0])
    ensures Clean(KeyLine(key, n))
  {
    IntToStringChars(n);
    var line := KeyLine(key, n);
    assert line[0] == key[0] && line[|line| - 1] == IntToString(n)[|IntToString(n)| - 1];
    ClearEnds(line);
  }

  /** Every written line is clean: it starts with a key letter or `[` and ends
      with a digit, `)`, `]` or `:`. */
  lemma RenderClean(e: Entry)
    ensures Clean(Render(e))
  {
    match e
    case GameEntry(n) => KeyLineClean(GameKey, n);
    case PlayerEntry(p) => KeyLineClean(PlayerKey, p);
    case WinnerEntry(w) => KeyLineClean(WinnerKey, w);
    case MoveEntry(m) => ClearEnds(MoveLine(m));
    case StateEntry => ClearEnds(StateKey);
    case RowEntry(row) => ClearEnds(RowLine(row));
  }

  /** A written log comes through the filter unchanged, so what the parsers
      are proved to read back from it is what `read_game_file` hands them. */
  lemma WrittenFiltered(es: seq<Entry>)
    ensures Filter(Written(es)) == Written(es)
  {
    forall k | 0 <= k < |Written(es)| ensures Clean(Written(es)[k]) {
      RenderClean(es[k]);
    }
    FilterKeepsClean(Written(es));
  }
}
