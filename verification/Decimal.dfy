/** How Python prints an integer, and why two numbers joined by ':' name one cell. */
module Decimal {

  function Digit(n: nat): char
    requires n < 10
  {
    '0' + n as char
  }

  predicate IsDigit(c: char) {
    '0' <= c <= '9'
  }

  function NatToString(n: nat): string {
    if n < 10 then [Digit(n)] else NatToString(n / 10) + [Digit(n % 10)]
  }

  /** `str(n)`. */
  function IntToString(n: int): string {
    if n < 0 then "-" + NatToString(-n) else NatToString(n)
  }

  function NatValue(s: string): int {
    if s == [] then 0 else 10 * NatValue(s[..|s| - 1]) + (s[|s| - 1] as int - '0' as int)
  }

  /** `int(s)`. */
  function IntValue(s: string): int {
    if s != [] && s[0] == '-' then -NatValue(s[1..]) else NatValue(s)
  }

  lemma {:induction false} NatRoundTrip(n: nat)
    ensures NatToString(n) != [] && (forall i | 0 <= i < |NatToString(n)| :: IsDigit(NatToString(n)[i]))
    ensures NatValue(NatToString(n)) == n
  {
    var s := NatToString(n);
    if n < 10 {
      assert s[..0] == "";
    } else {
      NatRoundTrip(n / 10);
      assert s[..|s| - 1] == NatToString(n / 10);
    }
  }

  lemma IntRoundTrip(n: int)
    ensures IntValue(IntToString(n)) == n
    ensures forall i | 0 <= i < |IntToString(n)| :: IntToString(n)[i] != ':'
  {
    NatRoundTrip(if n < 0 then -n else n);
    assert n < 0 ==> IntToString(n)[1..] == NatToString(-n);
  }

  /** The cell id `f"{i}:{j}"`. */
  function CellKey(i: int, j: int): string {
    IntToString(i) + ":" + IntToString(j)
  }

  lemma SplitAtColon(a: string, b: string, a': string, b': string)
    requires a + ":" + b == a' + ":" + b'
    requires (forall i | 0 <= i < |a| :: a[i] != ':') && (forall i | 0 <= i < |a'| :: a'[i] != ':')
    ensures a == a' && b == b'
  {
    var s, s' := a + ":" + b, a' + ":" + b';
    assert s[|a|] == ':' && s'[|a'|] == ':';
    assert forall k | 0 <= k < |a| :: s[k] == a[k];
    assert forall k | 0 <= k < |a'| :: s'[k] == a'[k];
    assert |a| == |a'|;
    assert s[..|a|] == a && s'[..|a'|] == a';
    assert s[|a| + 1..] == b && s'[|a'| + 1..] == b';
  }

  /** Two cells with the same id are the same cell. */
  lemma CellKeyInjective(i: int, j: int, i': int, j': int)
    ensures CellKey(i, j) == CellKey(i', j') <==> i == i' && j == j'
  {
    IntRoundTrip(i);
    IntRoundTrip(j);
    IntRoundTrip(i');
    IntRoundTrip(j');
    if CellKey(i, j) == CellKey(i', j') {
      SplitAtColon(IntToString(i), IntToString(j), IntToString(i'), IntToString(j'));
    }
  }
}
