/**
 * The Python string and `os.path` operations the importer and exporter
 * rely on, written out over `seq<char>`: slicing with Python's clamping
 * rules, `lower()` (ASCII letters only), `find`, `split`, `replace` of one
 * character, the POSIX rules of `os.path.join`, `dirname` and `basename`
 * (with the separator as a parameter), and the `%02d` / `{:0>3d}`
 * formatting of small counters.
 */
module PyStr {

  // ---------------------------------------------------------------------
  // Case
  // ---------------------------------------------------------------------

  function LowerChar(c: char): char {
    if 'A' <= c <= 'Z' then (c as int - 'A' as int + 'a' as int) as char else c
  }

  /** `s.lower()`, for ASCII letters. */
  function Lower(s: string): (r: string)
    ensures |r| == |s|
    ensures forall i :: 0 <= i < |s| ==> r[i] == LowerChar(s[i])
  {
    seq(|s|, i requires 0 <= i < |s| => LowerChar(s[i]))
  }

  lemma LowerAppend(a: string, b: string)
    ensures Lower(a + b) == Lower(a) + Lower(b)
  {
  }

  // ---------------------------------------------------------------------
  // Slices, with Python's clamping of out-of-range bounds
  // ---------------------------------------------------------------------

  /** `s[:n]` */
  function Take(s: string, n: nat): string {
    if n <= |s| then s[..n] else s
  }

  /** `s[n:]` */
  function Drop(s: string, n: nat): string {
    if n <= |s| then s[n..] else []
  }

  /** `s[:-n]` for a positive `n` */
  function DropLast(s: string, n: nat): string
    requires n > 0
  {
    if n <= |s| then s[..|s| - n] else []
  }

  /** `s[-n:]` for a positive `n` */
  function LastN(s: string, n: nat): string
    requires n > 0
  {
    if n <= |s| then s[|s| - n..] else s
  }

  predicate StartsWith(s: string, prefix: string) {
    |prefix| <= |s| && s[..|prefix|] == prefix
  }

  predicate EndsWith(s: string, suffix: string) {
    |suffix| <= |s| && s[|s| - |suffix|..] == suffix
  }

  // ---------------------------------------------------------------------
  // find
  // ---------------------------------------------------------------------

  predicate OccursAt(s: string, pat: string, i: nat) {
    i + |pat| <= |s| && s[i..i + |pat|] == pat
  }

  /** `s.find(pat)`: the first index where `pat` occurs, or -1. */
  function Find(s: string, pat: string): (r: int)
    ensures r == -1 || (0 <= r && OccursAt(s, pat, r))
    ensures forall i: nat :: (r == -1 || i < r) ==> !OccursAt(s, pat, i)
  {
    FindFrom(s, pat, 0)
  }

  function FindFrom(s: string, pat: string, k: nat): (r: int)
    requires k <= |s|
    ensures r == -1 || (k <= r && OccursAt(s, pat, r))
    ensures forall i: nat :: k <= i && (r == -1 || i < r) ==> !OccursAt(s, pat, i)
    decreases |s| - k
  {
    if OccursAt(s, pat, k) then k
    else if k == |s| then -1
    else FindFrom(s, pat, k + 1)
  }

  // ---------------------------------------------------------------------
  // replace and split
  // ---------------------------------------------------------------------

  /** `s.replace(from, to)` for one-character arguments. */
  function ReplaceChar(s: string, from: char, to: char): (r: string)
    ensures |r| == |s|
    ensures forall i :: 0 <= i < |s| ==> r[i] == if s[i] == from then to else s[i]
  {
    seq(|s|, i requires 0 <= i < |s| => if s[i] == from then to else s[i])
  }

  /** `d.join(pieces)` */
  function JoinWith(pieces: seq<string>, d: char): string
    requires |pieces| >= 1
  {
    if |pieces| == 1 then pieces[0] else pieces[0] + [d] + JoinWith(pieces[1..], d)
  }

  /**
   * `s.split(d)` for a one-character separator: every piece is free of
   * `d`, there is one more piece than there are separators, and joining
   * the pieces back with `d` gives `s` again.
   */
  function Split(s: string, d: char): (r: seq<string>)
    ensures |r| >= 1
    ensures forall k :: 0 <= k < |r| ==> d !in r[k]
    ensures JoinWith(r, d) == s
  {
    if s == [] then [[]]
    else
      var rest := Split(s[1..], d);
      if s[0] == d then
        assert [d] + JoinWith(rest, d) == s;
        [[]] + rest
      else
        var r := [[s[0]] + rest[0]] + rest[1..];
        assert r[1..] == rest[1..];
        assert JoinWith(r, d) == [s[0]] + JoinWith(rest, d);
        r
  }

  // ---------------------------------------------------------------------
  // os.path, POSIX rules, separator `sep`
  // ---------------------------------------------------------------------

  /**
   * `os.path.join(a, b)`: `b` when it is absolute, otherwise `a` and `b`
   * with exactly the separator `a` lacks between them.
   */
  function PathJoin(a: string, b: string, sep: char): (r: string)
    ensures EndsWith(r, b)
    ensures StartsWith(b, [sep]) ==> r == b
    ensures !StartsWith(b, [sep]) ==> StartsWith(r, a) && |a| <= |r| - |b| <= |a| + 1
  {
    if StartsWith(b, [sep]) then b
    else if a == [] || a[|a| - 1] == sep then a + b
    else a + [sep] + b
  }

  /** `s.rfind(c)` for one character: the last index of `c`, or -1. */
  function LastIndexOf(s: string, c: char): (r: int)
    ensures -1 <= r < |s|
    ensures r >= 0 ==> s[r] == c
    ensures forall i :: r < i < |s| ==> s[i] != c
  {
    if s == [] then -1
    else if s[|s| - 1] == c then |s| - 1
    else LastIndexOf(s[..|s| - 1], c)
  }

  /**
   * `os.path.basename(p)`: the longest suffix of `p` free of the
   * separator, so that it is either all of `p` or preceded by a separator.
   */
  function Basename(p: string, sep: char): (r: string)
    ensures EndsWith(p, r) && sep !in r
    ensures |r| < |p| ==> p[|p| - |r| - 1] == sep
  {
    var i := LastIndexOf(p, sep) + 1;
    assert p == p[..i] + p[i..];
    p[i..]
  }

  function RStrip(s: string, c: char): (r: string)
    ensures |r| <= |s|
  {
    if s != [] && s[|s| - 1] == c then RStrip(s[..|s| - 1], c) else s
  }

  /** `os.path.dirname(p)` */
  function Dirname(p: string, sep: char): string {
    var head := p[..LastIndexOf(p, sep) + 1];
    if head != [] && exists i :: 0 <= i < |head| && head[i] != sep then RStrip(head, sep) else head
  }

  // ---------------------------------------------------------------------
  // Counter formatting
  // ---------------------------------------------------------------------

  function DigitChar(d: nat): char
    requires d < 10
  {
    ('0' as int + d) as char
  }

  /** `str(n)` */
  function Digits(n: nat): (r: string)
    ensures |r| >= 1
  {
    if n < 10 then [DigitChar(n)] else Digits(n / 10) + [DigitChar(n % 10)]
  }

  /** `'%02d' % n` */
  function Pad2(n: nat): string {
    if n < 10 then "0" + Digits(n) else Digits(n)
  }

  /** `'{:0>3d}'.format(n)` */
  function Pad3(n: nat): string {
    if n < 10 then "00" + Digits(n) else if n < 100 then "0" + Digits(n) else Digits(n)
  }

  lemma {:induction false} DigitsShape(n: nat)
    ensures |Digits(n)| == 1 <==> n < 10
    ensures n >= 1 ==> Digits(n)[0] != '0'
  {
    if n >= 10 {
      DigitsShape(n / 10);
    }
  }

  lemma {:induction false} DigitsInjective(a: nat, b: nat)
    requires Digits(a) == Digits(b)
    ensures a == b
  {
    DigitsShape(a);
    DigitsShape(b);
    if a >= 10 && b >= 10 {
      var da, db := Digits(a), Digits(b);
      assert da[..|da| - 1] == Digits(a / 10);
      assert db[..|db| - 1] == Digits(b / 10);
      DigitsInjective(a / 10, b / 10);
      assert da[|da| - 1] == DigitChar(a % 10);
      assert db[|db| - 1] == DigitChar(b % 10);
    }
  }

  /** Distinct counters give distinct `%02d` strings. */
  lemma Pad2Injective(a: nat, b: nat)
    requires Pad2(a) == Pad2(b)
    ensures a == b
  {
    DigitsShape(a);
    DigitsShape(b);
    if a < 10 && b < 10 {
      assert Digits(a) == Pad2(a)[1..];
      assert Digits(b) == Pad2(b)[1..];
      DigitsInjective(a, b);
    } else if a >= 10 && b >= 10 {
      DigitsInjective(a, b);
    }
  }

  /** For the counters 0..999 `{:0>3d}` gives exactly three characters. */
  lemma Pad3Length(n: nat)
    requires n < 1000
    ensures |Pad3(n)| == 3
  {
    if n >= 100 {
      assert Digits(n) == Digits(n / 10) + [DigitChar(n % 10)];
      assert Digits(n / 10) == Digits(n / 100) + [DigitChar((n / 10) % 10)];
    } else if n >= 10 {
      assert Digits(n) == Digits(n / 10) + [DigitChar(n % 10)];
    }
  }
}
