/** The string operations the server's addresses rely on: decimal formatting of a pin and byte search. */
module Text {

  function Digit(d: nat): (c: char)
    requires d < 10
    ensures '0' <= c <= '9'
  {
    ('0' as int + d) as char
  }

  function NatToString(n: nat): (s: string)
    ensures s != [] && forall c | c in s :: '0' <= c <= '9'
  {
    if n < 10 then [Digit(n)] else NatToString(n / 10) + [Digit(n % 10)]
  }

  /** The text Go's "%d" verb produces. */
  function Decimal(n: int): (s: string)
    ensures s != []
    ensures '/' !in s
    ensures n >= 0 <==> '-' !in s
  {
    if n < 0 then "-" + NatToString(-n) else NatToString(n)
  }

  lemma {:induction false} NatToStringInjective(a: nat, b: nat)
    requires NatToString(a) == NatToString(b)
    ensures a == b
  {
    var s, t := NatToString(a), NatToString(b);
    assert s[|s| - 1] == t[|t| - 1];
    assert a % 10 == b % 10;
    if a >= 10 && b >= 10 {
      assert s[..|s| - 1] == NatToString(a / 10) && t[..|t| - 1] == NatToString(b / 10);
      NatToStringInjective(a / 10, b / 10);
    }
  }

  /** The number that a string of digits stands for. */
  function Value(s: string): int {
    if s == "" then 0 else Value(s[..|s| - 1]) * 10 + (s[|s| - 1] as int - '0' as int)
  }

  lemma {:induction false} NatToStringValue(n: nat)
    ensures Value(NatToString(n)) == n
    ensures n > 0 ==> NatToString(n)[0] != '0'
  {
    var s := NatToString(n);
    if n >= 10 {
      NatToStringValue(n / 10);
      assert s[..|s| - 1] == NatToString(n / 10);
      assert s[0] == NatToString(n / 10)[0];
    } else {
      assert s[..0] == "";
      assert Value(s[..0]) == 0;
    }
  }

  /** The position of the first `c` in `s`, or -1. */
  function IndexByte(s: string, c: char): (i: int)
    ensures -1 <= i < |s|
    ensures i >= 0 ==> s[i] == c && c !in s[..i]
    ensures i < 0 <==> c !in s
  {
    if s == [] then -1
    else if s[0] == c then 0
    else
      var rest := IndexByte(s[1..], c);
      assert s == [s[0]] + s[1..];
      if rest < 0 then -1
      else
        assert s[..rest + 1] == [s[0]] + s[1..][..rest];
        rest + 1
  }

  /** The position of the last `c` in `s`, or -1. */
  function LastIndexByte(s: string, c: char): (i: int)
    ensures -1 <= i < |s|
    ensures i >= 0 ==> s[i] == c && c !in s[i + 1..]
    ensures i < 0 <==> c !in s
  {
    if s == [] then -1
    else if s[|s| - 1] == c then |s| - 1
    else
      var front := s[..|s| - 1];
      var i := LastIndexByte(front, c);
      assert s == front + [s[|s| - 1]];
      assert i >= 0 ==> s[i + 1..] == front[i + 1..] + [s[|s| - 1]];
      i
  }

  /** A string without `c` followed by `c` is cut at that `c` by the first search. */
  lemma FirstCut(before: string, c: char, after: string)
    requires c !in before
    ensures IndexByte(before + [c] + after, c) == |before|
  {
    var s := before + [c] + after;
    assert s[|before|] == c;
    assert forall k | 0 <= k < |before| :: s[k] == before[k];
    assert forall i | |before| < i <= |s| :: s[..i][|before|] == c;
  }

  lemma AbsentAfter(s: string, i: nat, c: char)
    requires i < |s| && c !in s[i + 1..]
    ensures forall k | i < k < |s| :: s[k] != c
  {
    forall k | i < k < |s| ensures s[k] != c {
      assert s[k] == s[i + 1..][k - i - 1];
    }
  }

  lemma LastIndexIs(s: string, c: char, i: nat)
    requires i < |s| && s[i] == c && forall k | i < k < |s| :: s[k] != c
    ensures LastIndexByte(s, c) == i
  {
    var j := LastIndexByte(s, c);
    assert s[i] in s;
    AbsentAfter(s, j, c);
  }

  /** A `c` followed by a string without `c` is cut at that `c` by the last search. */
  lemma LastCut(before: string, c: char, after: string)
    requires c !in after
    ensures LastIndexByte(before + [c] + after, c) == |before|
  {
    var head := before + [c];
    assert head[|before|] == c;
    assert forall k | 0 <= k < |after| :: after[k] in after;
    LastIndexIs(head + after, c, |before|);
  }
}
