/**
 * String helpers used by both utilities: ASCII case folding, prefix and
 * substring tests, character counting, `os.path.splitext` on a bare file
 * name, and the decimal rendering of a counter.
 */
module Text {

  /** ASCII stand-in for `str.lower` on one character. */
  function LowerChar(c: char): (r: char)
    ensures 'A' <= c <= 'Z' ==> r as int == c as int + 32
    ensures !('A' <= c <= 'Z') ==> r == c
  {
    if 'A' <= c <= 'Z' then (c as int + 32) as char else c
  }

  function Lower(s: string): (r: string)
    ensures |r| == |s|
  {
    if s == [] then [] else Lower(s[..|s| - 1]) + [LowerChar(s[|s| - 1])]
  }

  predicate StartsWith(s: string, prefix: string) {
    |prefix| <= |s| && s[..|prefix|] == prefix
  }

  predicate OccursAt(s: string, sub: string, i: int) {
    0 <= i <= |s| - |sub| && s[i..i + |sub|] == sub
  }

  /** Python's `sub in s`. */
  predicate Contains(s: string, sub: string) {
    exists i :: 0 <= i <= |s| - |sub| && OccursAt(s, sub, i)
  }

  predicate IsDigit(c: char) {
    '0' <= c <= '9'
  }

  /** Python's `s.count(c)` for a one-character `c`. */
  function CountChar(s: string, c: char): (n: nat)
    ensures n <= |s|
    ensures n == 0 <==> c !in s
  {
    if s == [] then 0
    else CountChar(s[..|s| - 1], c) + (if s[|s| - 1] == c then 1 else 0)
  }

  lemma {:induction false} CountCharAppend(s: string, t: string, c: char)
    ensures CountChar(s + t, c) == CountChar(s, c) + CountChar(t, c)
    decreases |t|
  {
    if t == [] {
      assert s + t == s;
    } else {
      var t' := t[..|t| - 1];
      assert (s + t)[..|s + t| - 1] == s + t';
      CountCharAppend(s, t', c);
    }
  }

  /** Index of the last occurrence of `c` in `s`, or -1 (`str.rfind`). */
  function LastIndexOf(s: string, c: char): (r: int)
    ensures -1 <= r < |s|
    ensures r >= 0 ==> s[r] == c
    ensures forall i :: r < i < |s| ==> s[i] != c
  {
    if s == [] then -1
    else if s[|s| - 1] == c then |s| - 1
    else LastIndexOf(s[..|s| - 1], c)
  }

  predicate HasNonDot(s: string) {
    exists i :: 0 <= i < |s| && s[i] != '.'
  }

  /**
   * `os.path.splitext` on a name with no separator: the extension starts at
   * the last '.', unless every character before that '.' is itself a '.'
   * (leading dots belong to the stem), in which case there is no extension.
   */
  function SplitExt(filename: string): (r: (string, string))
    ensures r.0 + r.1 == filename
    ensures r.1 != [] ==> r.1[0] == '.' && '.' !in r.1[1..] && HasNonDot(r.0)
    ensures r.1 == [] ==> forall i :: 0 <= i < |filename| && filename[i] == '.' ==> !HasNonDot(filename[..i])
  {
    var d := LastIndexOf(filename, '.');
    if d >= 0 && HasNonDot(filename[..d]) then
      assert filename[..d] + filename[d..] == filename;
      (filename[..d], filename[d..])
    else
      (filename, "")
  }

  /**
   * The extension found by `SplitExt` is preserved when text without a '.'
   * is inserted between the stem and the extension.
   */
  lemma SplitExtInsert(filename: string, infix: string)
    requires SplitExt(filename).1 != []
    requires '.' !in infix
    ensures SplitExt(SplitExt(filename).0 + infix + SplitExt(filename).1)
         == (SplitExt(filename).0 + infix, SplitExt(filename).1)
  {
    var (stem, ext) := SplitExt(filename);
    var s := stem + infix + ext;
    var d := |stem| + |infix|;
    assert s[d..] == ext;
    assert s[..d] == stem + infix;
    assert forall i :: d < i < |s| ==> s[i] == ext[i - d];
    assert LastIndexOf(s, '.') == d by {
      var l := LastIndexOf(s, '.');
      assert s[d] == '.';
    }
    var i :| 0 <= i < |stem| && stem[i] != '.';
    assert (stem + infix)[i] != '.';
  }

  function Digit(d: nat): (c: char)
    requires d < 10
    ensures IsDigit(c)
  {
    ('0' as int + d) as char
  }

  /** Decimal rendering of a counter, as in an f-string. */
  function NatToString(n: nat): (s: string)
    ensures 1 <= |s|
    ensures forall i :: 0 <= i < |s| ==> IsDigit(s[i])
  {
    if n < 10 then [Digit(n)] else NatToString(n / 10) + [Digit(n % 10)]
  }

  lemma {:induction false} NatToStringInjective(a: nat, b: nat)
    requires NatToString(a) == NatToString(b)
    ensures a == b
  {
    var sa, sb := NatToString(a), NatToString(b);
    if a < 10 && b < 10 {
      assert sa[0] == Digit(a) && sb[0] == Digit(b);
    } else if a >= 10 && b >= 10 {
      assert sa[|sa| - 1] == Digit(a % 10) && sb[|sb| - 1] == Digit(b % 10);
      assert sa[..|sa| - 1] == NatToString(a / 10);
      assert sb[..|sb| - 1] == NatToString(b / 10);
      NatToStringInjective(a / 10, b / 10);
    }
  }
}
