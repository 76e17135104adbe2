/** Parts of a cache key, each written after its length so that no part can be taken for another. */
module LengthPrefix {

  function Digit(d: nat): char
    requires d < 10
  {
    ['0', '1', '2', '3', '4', '5', '6', '7', '8', '9'][d]
  }

  /** A length as it is interpolated into the key. */
  function Decimal(n: nat): (r: string)
    ensures 0 < |r| && forall i :: 0 <= i < |r| ==> r[i] != ':'
  {
    if n < 10 then [Digit(n)] else Decimal(n / 10) + [Digit(n % 10)]
  }

  function Framed(part: string): string {
    "|" + Decimal(|part|) + ":" + part
  }

  function FramedAll(parts: seq<string>): string {
    if parts == [] then "" else Framed(parts[0]) + FramedAll(parts[1..])
  }

  lemma {:induction false} DecimalIsInjective(a: nat, b: nat)
    requires Decimal(a) == Decimal(b)
    ensures a == b
  {
    var x, y := Decimal(a), Decimal(b);
    assert x[|x| - 1] == y[|y| - 1];
    if 10 <= a && 10 <= b {
      assert x[..|x| - 1] == Decimal(a / 10) && y[..|y| - 1] == Decimal(b / 10);
      DecimalIsInjective(a / 10, b / 10);
    }
  }

  /** The first colon ends the digits. */
  lemma ColonEndsDigits(a: string, b: string, x: string, y: string)
    requires a + [':'] + x == b + [':'] + y
    requires (forall i :: 0 <= i < |a| ==> a[i] != ':') && (forall i :: 0 <= i < |b| ==> b[i] != ':')
    ensures a == b && x == y
  {
    var s := a + [':'] + x;
    assert s[|a|] == ':' && s[|b|] == ':';
    assert forall i :: 0 <= i < |a| ==> s[i] == a[i];
    assert forall i :: 0 <= i < |b| ==> s[i] == b[i];
    assert |a| == |b|;
    assert a == s[..|a|] && b == s[..|b|];
    assert x == s[|a| + 1..] && y == s[|b| + 1..];
  }

  lemma FrameEnds(p: string, q: string, r: string, s: string)
    requires Framed(p) + r == Framed(q) + s
    ensures p == q && r == s
  {
    var x, y := p + r, q + s;
    assert Framed(p) + r == "|" + (Decimal(|p|) + [':'] + x);
    assert Framed(q) + s == "|" + (Decimal(|q|) + [':'] + y);
    assert Decimal(|p|) + [':'] + x == (Framed(p) + r)[1..];
    assert Decimal(|q|) + [':'] + y == (Framed(q) + s)[1..];
    ColonEndsDigits(Decimal(|p|), Decimal(|q|), x, y);
    DecimalIsInjective(|p|, |q|);
    assert p == x[..|p|] && q == y[..|q|] && r == x[|p|..] && s == y[|q|..];
  }

  lemma {:induction false} FramesAreInjective(ps: seq<string>, qs: seq<string>)
    requires |ps| == |qs| && FramedAll(ps) == FramedAll(qs)
    ensures ps == qs
  {
    hide Framed;
    if ps != [] {
      FrameEnds(ps[0], qs[0], FramedAll(ps[1..]), FramedAll(qs[1..]));
      FramesAreInjective(ps[1..], qs[1..]);
      assert ps == [ps[0]] + ps[1..] && qs == [qs[0]] + qs[1..];
    }
  }
}
