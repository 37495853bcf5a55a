/**
 * The few pieces of Go's `strings` package and `fmt` verbs the commands use.
 * A Go string is a sequence of bytes; here a `string` holds one `char` per byte,
 * which is exact for the ASCII text (modes, names, separators) involved.
 */
module Strings {

  /** `strings.HasPrefix(s, prefix)`. */
  predicate HasPrefix(s: string, prefix: string) {
    |prefix| <= |s| && s[..|prefix|] == prefix
  }

  /** `t` occurs in `s` starting at index `i`. */
  predicate OccursAt(s: string, t: string, i: int) {
    0 <= i && i + |t| <= |s| && s[i..i + |t|] == t
  }

  /** `strings.Contains(s, t)`. */
  predicate IsInfix(t: string, s: string) {
    exists i :: 0 <= i <= |s| && OccursAt(s, t, i)
  }

  /** `t` appears in `x + t + y` right after `x`. */
  lemma InfixAt(x: string, t: string, y: string)
    ensures OccursAt(x + t + y, t, |x|)
    ensures IsInfix(t, x + t + y)
  {
    assert (x + t + y)[|x|..|x| + |t|] == t;
    assert OccursAt(x + t + y, t, |x|);
  }

  /** `fmt.Sprintf(lead + "%s" + tail, a)`: the argument appears in the text. */
  function Format1(lead: string, a: string, tail: string): (r: string)
    ensures HasPrefix(r, lead)
    ensures IsInfix(a, r) && IsInfix(tail, r)
  {
    InfixAt(lead, a, tail);
    InfixAt(lead + a, tail, "");
    assert lead + a + tail + "" == lead + a + tail;
    assert (lead + a + tail)[..|lead|] == lead;
    lead + a + tail
  }

  /** `fmt.Sprintf(lead + "%s" + mid + "%s", a, b)`: both arguments and the text between them appear in the text. */
  function Format2(lead: string, a: string, mid: string, b: string): (r: string)
    ensures HasPrefix(r, lead)
    ensures IsInfix(a, r) && IsInfix(mid, r) && IsInfix(b, r)
  {
    var r := lead + a + mid + b;
    InfixAt(lead, a, mid + b);
    assert lead + a + (mid + b) == r;
    InfixAt(lead + a, mid, b);
    InfixAt(lead + a + mid, b, "");
    assert r + "" == r;
    assert r[..|lead|] == lead;
    r
  }

  /** Index of the first `c` in `s`, or `|s|` when there is none. */
  function IndexOf(s: string, c: char): (i: nat)
    ensures i <= |s|
    ensures c !in s[..i]
    ensures i < |s| ==> s[i] == c
  {
    if |s| == 0 then 0 else if s[0] == c then 0 else 1 + IndexOf(s[1..], c)
  }

  /** The first `c` of `a + [c] + b` is the one after `a`, when `a` holds none. */
  lemma IndexOfAfterPrefix(a: string, c: char, b: string)
    requires c !in a
    ensures IndexOf(a + [c] + b, c) == |a|
  {
    var s := a + [c] + b;
    assert s[|a|] == c;
    assert s[..|a|] == a;
  }

  /** Joins `parts` with `sep` between neighbours (`strings.Join`). */
  function Join(parts: seq<string>, sep: char): string
    decreases |parts|
  {
    if |parts| == 0 then ""
    else if |parts| == 1 then parts[0]
    else parts[0] + [sep] + Join(parts[1..], sep)
  }

  /**
   * `strings.Split(s, string(sep))`: the pieces between separators, empty
   * pieces included; a string without `sep` (also the empty one) is one piece.
   */
  function Split(s: string, sep: char): (r: seq<string>)
    ensures |r| >= 1
    ensures forall i :: 0 <= i < |r| ==> sep !in r[i]
    ensures Join(r, sep) == s
    decreases |s|
  {
    var i := IndexOf(s, sep);
    if i == |s| then
      assert s[..i] == s;
      [s]
    else
      var rest := Split(s[i + 1..], sep);
      assert ([s[..i]] + rest)[1..] == rest;
      assert s == s[..i] + [sep] + s[i + 1..];
      [s[..i]] + rest
  }

  /** Splitting undoes joining: the split of a string is the only separator-free decomposition of it. */
  lemma {:induction false} SplitJoin(parts: seq<string>, sep: char)
    requires |parts| >= 1
    requires forall i :: 0 <= i < |parts| ==> sep !in parts[i]
    ensures Split(Join(parts, sep), sep) == parts
    decreases |parts|
  {
    var s := Join(parts, sep);
    if |parts| == 1 {
      assert s == parts[0];
      assert IndexOf(s, sep) == |s|;
    } else {
      var rest := parts[1..];
      assert s == parts[0] + [sep] + Join(rest, sep);
      IndexOfAfterPrefix(parts[0], sep, Join(rest, sep));
      assert s[..|parts[0]|] == parts[0];
      assert s[|parts[0]| + 1..] == Join(rest, sep);
      SplitJoin(rest, sep);
      assert parts == [parts[0]] + rest;
    }
  }

  /** ASCII lower-casing of one character. */
  function LowerChar(c: char): char {
    if 'A' <= c <= 'Z' then (c as int + 32) as char else c
  }

  /** `strings.ToLower`, restricted to ASCII letters. */
  function ToLower(s: string): (r: string)
    ensures |r| == |s|
    ensures forall i :: 0 <= i < |s| ==> r[i] == LowerChar(s[i])
    decreases |s|
  {
    if |s| == 0 then "" else [LowerChar(s[0])] + ToLower(s[1..])
  }

  /** The decimal digit character for `d`. */
  function DigitChar(d: nat): char
    requires d < 10
  {
    "0123456789"[d]
  }

  /** The decimal spelling of `n`, most significant digit first. */
  function NatToString(n: nat): string
    decreases n
  {
    if n < 10 then [DigitChar(n)] else NatToString(n / 10) + [DigitChar(n % 10)]
  }

  /** The `%d` verb of `fmt`: a decimal with a leading `-` for negatives. */
  function IntToString(n: int): string {
    if n < 0 then "-" + NatToString(-n) else NatToString(n)
  }
}
