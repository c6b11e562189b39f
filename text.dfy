/** The few Python string operations the log parser is built from: `str.strip()`,
    `str.strip(chars)`, `str.startswith`, `str.split(sep)`, `str.join`, `str(int)`
    and the decimal subset of `int(str)`.

    The string functions carry no postconditions of their own; what they compute
    is stated by the lemmas next to them, so that proofs about the parser only
    see through a string operation when they ask for it. */
module Text {

  datatype Option<+T> = None | Some(value: T)

  /** Python's `str.isspace()` on one character: what `str.strip()` removes. */
  predicate IsSpace(c: char) {
    ('\t' <= c <= '\r') || ('\U{1C}' <= c <= ' ') || c == '\U{85}' || c == '\U{A0}'
    || c == '\U{1680}' || ('\U{2000}' <= c <= '\U{200A}') || c == '\U{2028}' || c == '\U{2029}'
    || c == '\U{202F}' || c == '\U{205F}' || c == '\U{3000}'
  }

  /** The characters of `strip("[]")`. */
  predicate IsBracket(c: char) { c == '[' || c == ']' }

  /** The characters of `strip("()")`. */
  predicate IsParen(c: char) { c == '(' || c == ')' }

  predicate IsDigit(c: char) { '0' <= c <= '9' }

  /** Python's `s.startswith(prefix)`. */
  predicate StartsWith(s: string, prefix: string) {
    |prefix| <= |s| && s[..|prefix|] == prefix
  }

  // ----- strip -----

  function TrimStart(s: string, drop: char -> bool): string
    decreases |s|
  {
    if |s| > 0 && drop(s[0]) then TrimStart(s[1..], drop) else s
  }

  function TrimEnd(s: string, drop: char -> bool): string
    decreases |s|
  {
    if |s| > 0 && drop(s[|s| - 1]) then TrimEnd(s[..|s| - 1], drop) else s
  }

  /** Python's `s.strip(chars)`, `drop` telling which characters are in `chars`. */
  function StripBy(s: string, drop: char -> bool): string {
    TrimEnd(TrimStart(s, drop), drop)
  }

  /** Python's `s.strip()`. */
  function Strip(s: string): string {
    StripBy(s, IsSpace)
  }

  lemma {:induction false} TrimStartSpec(s: string, drop: char -> bool)
    ensures var r := TrimStart(s, drop);
      |r| <= |s| && r == s[|s| - |r|..] && (r == [] || !drop(r[0]))
      && forall k :: 0 <= k < |s| - |r| ==> drop(s[k])
    decreases |s|
  {
    if |s| > 0 && drop(s[0]) {
      TrimStartSpec(s[1..], drop);
    }
  }

  lemma {:induction false} TrimEndSpec(s: string, drop: char -> bool)
    ensures var r := TrimEnd(s, drop);
      |r| <= |s| && r == s[..|r|] && (r == [] || !drop(r[|r| - 1]))
      && forall k :: |r| <= k < |s| ==> drop(s[k])
    decreases |s|
  {
    if |s| > 0 && drop(s[|s| - 1]) {
      TrimEndSpec(s[..|s| - 1], drop);
    }
  }

  /** What `strip` leaves: the infix of `s` from `lo` on that neither starts nor
      ends with a dropped character, with only dropped characters around it. */
  lemma {:induction false} StripBySpec(s: string, drop: char -> bool) returns (lo: nat)
    ensures var r := StripBy(s, drop);
      lo + |r| <= |s| && r == s[lo..lo + |r|]
      && (r == [] || (!drop(r[0]) && !drop(r[|r| - 1])))
      && (forall k :: 0 <= k < lo ==> drop(s[k]))
      && (forall k :: lo + |r| <= k < |s| ==> drop(s[k]))
  {
    var t := TrimStart(s, drop);
    TrimStartSpec(s, drop);
    TrimEndSpec(t, drop);
    var r := TrimEnd(t, drop);
    lo := |s| - |t|;
    assert r == s[lo..lo + |r|];
    assert forall k :: lo + |r| <= k < |s| ==> s[k] == t[k - lo];
  }

  /** `strip` only removes characters: whatever is left was in the string. */
  lemma StripByKeeps(s: string, drop: char -> bool, c: char)
    ensures c in StripBy(s, drop) ==> c in s
  {
    var lo := StripBySpec(s, drop);
    if c in StripBy(s, drop) {
      var r := StripBy(s, drop);
      var k :| 0 <= k < |r| && r[k] == c;
      assert s[lo + k] == c;
    }
  }

  /** A string with no dropped character at either end is left as it is. */
  lemma StripByUnchanged(s: string, drop: char -> bool)
    requires s == [] || (!drop(s[0]) && !drop(s[|s| - 1]))
    ensures StripBy(s, drop) == s
  {
  }

  /** Stripping twice is stripping once. */
  lemma {:induction false} StripIdempotent(s: string)
    ensures Strip(Strip(s)) == Strip(s)
  {
    var _ := StripBySpec(s, IsSpace);
    StripByUnchanged(Strip(s), IsSpace);
  }

  /** Stripping `open + s + close` down to `s`, when only the two ends are dropped. */
  lemma {:induction false} StripByEnclosed(open: char, s: string, close: char, drop: char -> bool)
    requires drop(open) && drop(close)
    requires s != [] && !drop(s[0]) && !drop(s[|s| - 1])
    ensures StripBy([open] + s + [close], drop) == s
  {
    var w := [open] + s + [close];
    assert w[1..] == s + [close];
    assert TrimStart(w, drop) == s + [close];
    assert (s + [close])[..|s|] == s;
    assert TrimEnd(s + [close], drop) == TrimEnd(s, drop);
  }

  // ----- split and join -----

  /** Python's `s.split(sep)` for a one-character separator. */
  function Split(s: string, sep: char): (parts: seq<string>)
    ensures |parts| >= 1
    decreases |s|
  {
    if s == [] then [[]]
    else if s[0] == sep then [[]] + Split(s[1..], sep)
    else var rest := Split(s[1..], sep); [[s[0]] + rest[0]] + rest[1..]
  }

  /** Python's `sep.join(parts)`. */
  function Join(parts: seq<string>, sep: char): string
    decreases |parts|
  {
    if parts == [] then []
    else if |parts| == 1 then parts[0]
    else parts[0] + [sep] + Join(parts[1..], sep)
  }

  /** `split` gives at least one piece, at least two when the separator occurs,
      and no piece holds the separator. */
  lemma {:induction false} SplitSpec(s: string, sep: char)
    ensures |Split(s, sep)| >= 1
    ensures (sep in s) <==> |Split(s, sep)| >= 2
    ensures forall k :: 0 <= k < |Split(s, sep)| ==> sep !in Split(s, sep)[k]
    decreases |s|
  {
    if s != [] {
      SplitSpec(s[1..], sep);
      assert s == [s[0]] + s[1..];
      if s[0] != sep {
        var rest := Split(s[1..], sep);
        assert Split(s, sep)[1..] == rest[1..];
      }
    }
  }

  /** Joining the pieces of `s` back with the separator gives `s`. */
  lemma {:induction false} JoinSplit(s: string, sep: char)
    ensures Join(Split(s, sep), sep) == s
    decreases |s|
  {
    if s != [] {
      JoinSplit(s[1..], sep);
      SplitSpec(s[1..], sep);
      var rest := Split(s[1..], sep);
      if s[0] == sep {
        JoinEmptyFirst(rest, sep);
        assert s == [sep] + s[1..];
      } else {
        JoinExtendFirst(s[0], rest, sep);
        assert s == [s[0]] + s[1..];
      }
    }
  }

  lemma JoinEmptyFirst(parts: seq<string>, sep: char)
    requires |parts| >= 1
    ensures Join([[]] + parts, sep) == [sep] + Join(parts, sep)
  {
    assert ([[]] + parts)[1..] == parts;
  }

  lemma JoinExtendFirst(c: char, parts: seq<string>, sep: char)
    requires |parts| >= 1
    ensures Join([[c] + parts[0]] + parts[1..], sep) == [c] + Join(parts, sep)
  {
    var ps := [[c] + parts[0]] + parts[1..];
    if |parts| > 1 {
      assert ps[1..] == parts[1..];
    }
  }

  lemma {:induction false} SplitNoSep(s: string, sep: char)
    requires sep !in s
    ensures Split(s, sep) == [s]
    decreases |s|
  {
    if s != [] {
      SplitNoSep(s[1..], sep);
      assert [s[0]] + s[1..] == s;
    }
  }

  /** Splitting at the first separator. */
  lemma {:induction false} SplitAfter(a: string, sep: char, b: string)
    requires sep !in a
    ensures Split(a + [sep] + b, sep) == [a] + Split(b, sep)
    decreases |a|
  {
    if a == [] {
      assert a + [sep] + b == [sep] + b;
      assert ([sep] + b)[1..] == b;
    } else {
      assert (a + [sep] + b)[1..] == a[1..] + [sep] + b;
      SplitAfter(a[1..], sep, b);
      assert [a[0]] + a[1..] == a;
    }
  }

  /** `split` undoes `join` when no piece holds the separator. */
  lemma {:induction false} SplitJoin(parts: seq<string>, sep: char)
    requires |parts| >= 1
    requires forall k :: 0 <= k < |parts| ==> sep !in parts[k]
    ensures Split(Join(parts, sep), sep) == parts
    decreases |parts|
  {
    if |parts| == 1 {
      SplitNoSep(parts[0], sep);
    } else {
      SplitJoin(parts[1..], sep);
      SplitAfter(parts[0], sep, Join(parts[1..], sep));
      assert [parts[0]] + parts[1..] == parts;
    }
  }

  /** `sep` occurs in `s` at `k` and nowhere else. */
  predicate SepOnlyAt(s: string, sep: char, k: int) {
    0 <= k < |s| && s[k] == sep && sep !in s[..k] && sep !in s[k + 1..]
  }

  /** Splitting at the one separator gives the text before it and the text
      after it. */
  lemma SplitAtOnly(s: string, sep: char, k: int)
    requires SepOnlyAt(s, sep, k)
    ensures Split(s, sep) == [s[..k], s[k + 1..]]
  {
    assert s == s[..k] + [sep] + s[k + 1..];
    SplitAfter(s[..k], sep, s[k + 1..]);
    SplitNoSep(s[k + 1..], sep);
  }

  /** `split` gives two pieces exactly when the separator occurs once, right
      after the first piece. */
  lemma {:induction false} SplitTwoParts(s: string, sep: char)
    ensures |Split(s, sep)| == 2 <==> exists k :: SepOnlyAt(s, sep, k)
    ensures |Split(s, sep)| == 2 ==> SepOnlyAt(s, sep, |Split(s, sep)[0]|)
  {
    var parts := Split(s, sep);
    if |parts| == 2 {
      SplitSpec(s, sep);
      JoinSplit(s, sep);
      assert Join(parts[1..], sep) == parts[1];
      assert s == parts[0] + [sep] + parts[1];
      var k := |parts[0]|;
      assert s[..k] == parts[0] && s[k + 1..] == parts[1];
      assert SepOnlyAt(s, sep, k);
    }
    if exists k :: SepOnlyAt(s, sep, k) {
      var k :| SepOnlyAt(s, sep, k);
      SplitAtOnly(s, sep, k);
    }
  }

  lemma {:induction false} JoinFirst(parts: seq<string>, sep: char)
    requires |parts| >= 1 && parts[0] != []
    ensures Join(parts, sep) != [] && Join(parts, sep)[0] == parts[0][0]
  {
  }

  lemma {:induction false} JoinLast(parts: seq<string>, sep: char)
    requires |parts| >= 1 && parts[|parts| - 1] != []
    ensures Join(parts, sep) != []
    ensures Join(parts, sep)[|Join(parts, sep)| - 1] == parts[|parts| - 1][|parts[|parts| - 1]| - 1]
    decreases |parts|
  {
    if |parts| > 1 {
      JoinLast(parts[1..], sep);
    }
  }

  // ----- integers -----

  function DigitChar(d: nat): (c: char)
    requires d < 10
    ensures IsDigit(c)
  {
    ('0' as int + d) as char
  }

  function DigitValue(c: char): nat
    requires IsDigit(c)
  {
    c as int - '0' as int
  }

  predicate IsDecimal(s: string) {
    |s| >= 1 && forall k :: 0 <= k < |s| ==> IsDigit(s[k])
  }

  /** The base-10 digits of `n`, most significant first, with no leading zero. */
  function NatToDecimal(n: nat): (s: string)
    ensures IsDecimal(s)
    decreases n
  {
    if n < 10 then [DigitChar(n)] else NatToDecimal(n / 10) + [DigitChar(n % 10)]
  }

  function DecimalValue(s: string): nat
    requires forall k :: 0 <= k < |s| ==> IsDigit(s[k])
    decreases |s|
  {
    if s == [] then 0 else 10 * DecimalValue(s[..|s| - 1]) + DigitValue(s[|s| - 1])
  }

  lemma {:induction false} DecimalRoundTrip(n: nat)
    ensures DecimalValue(NatToDecimal(n)) == n
    decreases n
  {
    if n >= 10 {
      var s := NatToDecimal(n);
      DecimalRoundTrip(n / 10);
      assert s[..|s| - 1] == NatToDecimal(n / 10);
    }
  }

  /** Python's `str(n)` for an integer. */
  function IntToString(n: int): string {
    if n < 0 then "-" + NatToDecimal(-n) else NatToDecimal(n)
  }

  /** `str(n)` is a non-empty run of digits, possibly after a minus sign. */
  lemma IntToStringChars(n: int)
    ensures var s := IntToString(n);
      |s| >= 1 && IsDigit(s[|s| - 1]) && (IsDigit(s[0]) || s[0] == '-')
      && forall k :: 0 <= k < |s| ==> IsDigit(s[k]) || s[k] == '-'
  {
  }

  /** One or more ASCII digits, possibly after a sign. */
  predicate IsNumeral(t: string) {
    IsDecimal(t) || (|t| >= 2 && (t[0] == '-' || t[0] == '+') && IsDecimal(t[1..]))
  }

  /** Python's `int(s)` restricted to base-10 literals: surrounding whitespace,
      an optional sign, then one or more ASCII digits; anything else is the
      ValueError case, `None`. */
  function ParseInt(s: string): (r: Option<int>)
    // `int()` accepts exactly an optionally signed run of digits
    ensures r.Some? <==> IsNumeral(Strip(s))
    // a negative value comes only from a leading minus sign
    ensures r.Some? && r.value < 0 ==> Strip(s)[0] == '-'
  {
    var t := Strip(s);
    if |t| >= 1 && (t[0] == '-' || t[0] == '+') then
      if IsDecimal(t[1..]) then
        var v: int := DecimalValue(t[1..]);
        Some(if t[0] == '-' then -v else v)
      else None
    else if IsDecimal(t) then Some(DecimalValue(t))
    else None
  }

  /** Leading zeros do not change the value of a run of digits. */
  lemma {:induction false} DecimalLeadingZero(d: string)
    requires forall k :: 0 <= k < |d| ==> IsDigit(d[k])
    ensures DecimalValue(['0'] + d) == DecimalValue(d)
    decreases |d|
  {
    var z := ['0'] + d;
    if d != [] {
      assert z[..|z| - 1] == ['0'] + d[..|d| - 1];
      DecimalLeadingZero(d[..|d| - 1]);
    }
  }

  /** A run of digits weighs at least its first digit. */
  lemma {:induction false} DecimalAtLeastFirst(d: string)
    requires IsDecimal(d)
    ensures DecimalValue(d) >= DigitValue(d[0])
    decreases |d|
  {
    if |d| > 1 {
      var front := d[..|d| - 1];
      assert front[0] == d[0];
      DecimalAtLeastFirst(front);
    }
  }

  /** A run of digits without a leading zero is what `str` writes for its value. */
  lemma {:induction false} DecimalCanonical(d: string)
    requires IsDecimal(d) && (|d| == 1 || d[0] != '0')
    ensures NatToDecimal(DecimalValue(d)) == d
    decreases |d|
  {
    var n := DecimalValue(d);
    var c := d[|d| - 1];
    if |d| == 1 {
      assert DigitChar(DigitValue(c)) == c;
      assert d == [c];
    } else {
      var front := d[..|d| - 1];
      assert front[0] == d[0];
      DecimalAtLeastFirst(front);
      assert n == 10 * DecimalValue(front) + DigitValue(c) && n >= 10;
      assert n / 10 == DecimalValue(front) && n % 10 == DigitValue(c);
      DecimalCanonical(front);
      assert DigitChar(DigitValue(c)) == c;
      assert d == front + [c];
    }
  }

  /** A run of digits is left as it is by `strip`. */
  lemma DecimalStripped(d: string)
    requires |d| >= 1 && !IsSpace(d[0]) && IsDigit(d[|d| - 1])
    ensures Strip(d) == d
  {
    StripByUnchanged(d, IsSpace);
  }

  /** `int(s)` is `int(s.strip())`: surrounding whitespace is ignored. */
  lemma ParseIntStrips(s: string)
    ensures ParseInt(s) == ParseInt(Strip(s))
  {
    StripIdempotent(s);
  }

  /** `int(d)` for a run of digits is its decimal value. */
  lemma ParseIntDecimal(d: string)
    requires IsDecimal(d)
    ensures ParseInt(d) == Some(DecimalValue(d))
  {
    DecimalStripped(d);
  }

  /** `int("+" + d)` is `int(d)`. */
  lemma ParseIntPlus(d: string)
    requires IsDecimal(d)
    ensures ParseInt(['+'] + d) == ParseInt(d)
  {
    ParseIntDecimal(d);
    var t := ['+'] + d;
    DecimalStripped(t);
    assert t[1..] == d;
  }

  /** `int("-" + d)` is `-int(d)`. */
  lemma ParseIntMinus(d: string)
    requires IsDecimal(d)
    ensures ParseInt(['-'] + d) == Some(-(DecimalValue(d) as int))
  {
    var t := ['-'] + d;
    DecimalStripped(t);
    assert t[1..] == d;
  }

  /** `int("0" + d)` is `int(d)`: leading zeros are ignored. */
  lemma ParseIntLeadingZero(d: string)
    requires IsDecimal(d)
    ensures ParseInt(['0'] + d) == ParseInt(d)
  {
    ParseIntDecimal(d);
    ParseIntDecimal(['0'] + d);
    DecimalLeadingZero(d);
  }

  /** The value `int()` gives a run of digits without a leading zero is the
      integer `str` writes as those digits. */
  lemma ParseIntCanonical(d: string)
    requires IsDecimal(d) && (|d| == 1 || d[0] != '0')
    ensures ParseInt(d) == Some(DecimalValue(d)) && IntToString(DecimalValue(d)) == d
  {
    ParseIntDecimal(d);
    DecimalCanonical(d);
  }

  /** `str(n)` has no surrounding whitespace. */
  lemma {:induction false} IntToStringStripped(n: int)
    ensures Strip(IntToString(n)) == IntToString(n)
  {
    var s := IntToString(n);
    IntToStringChars(n);
    assert !IsSpace(s[0]) && !IsSpace(s[|s| - 1]);
    StripByUnchanged(s, IsSpace);
  }

  /** `int(str(n)) == n`. */
  lemma {:induction false} ParseIntToString(n: int)
    ensures ParseInt(IntToString(n)) == Some(n)
  {
    var s := IntToString(n);
    IntToStringStripped(n);
    if n < 0 {
      var d := NatToDecimal(-n);
      assert s[1..] == d;
      DecimalRoundTrip(-n);
    } else {
      DecimalRoundTrip(n);
    }
  }
}
