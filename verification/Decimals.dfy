/** Exact monetary strings and the text keys of reporting periods. */
module Decimals {
  import opened Optional

  predicate IsDigit(c: char) { '0' <= c <= '9' }

  predicate AllDigits(s: string) { forall i :: 0 <= i < |s| ==> IsDigit(s[i]) }

  function Digit(d: nat): (c: char)
    requires d < 10
    ensures IsDigit(c) && DigitValue(c) == d
  {
    '0' + d as char
  }

  function DigitValue(c: char): (d: nat)
    requires IsDigit(c)
    ensures d < 10
  {
    (c - '0') as nat
  }

  /** Decimal text without leading zeros. */
  function Render(n: nat): (s: string)
    ensures s != [] && AllDigits(s)
  {
    if n < 10 then [Digit(n)] else Render(n / 10) + [Digit(n % 10)]
  }

  function Value(s: string): nat
    requires AllDigits(s)
  {
    if s == [] then 0 else Value(s[..|s| - 1]) * 10 + DigitValue(s[|s| - 1])
  }

  lemma {:induction false} ValueOfRender(n: nat)
    ensures Value(Render(n)) == n
  {
    if n >= 10 {
      var s := Render(n);
      assert s[..|s| - 1] == Render(n / 10);
      ValueOfRender(n / 10);
    } else {
      assert Render(n)[..0] == [];
    }
  }

  /** A canonical decimal: big.Int reads it, it is not negative, and it prints back to the same text. Signs and
      leading zeros never print back, so only digits need reading. */
  function Number(raw: string): Option<nat> {
    if raw != [] && AllDigits(raw) && Render(Value(raw)) == raw then Some(Value(raw)) else None
  }

  /** Reading and printing are inverse: a text is accepted exactly when it is some amount's text. */
  lemma NumberInvertsRender(raw: string, n: nat)
    ensures Number(raw) == Some(n) <==> raw == Render(n)
  {
    ValueOfRender(n);
  }

  function Zeros(n: nat): (z: string)
    ensures |z| == n && AllDigits(z)
  {
    if n == 0 then [] else Zeros(n - 1) + ['0']
  }

  /** Zero padding to at least twenty digits. */
  function Padded(n: nat): (s: string)
    ensures s != [] && AllDigits(s)
  {
    var s := Render(n);
    if |s| < 20 then Zeros(20 - |s|) + s else s
  }

  lemma {:induction false} LeadingZeros(z: nat, s: string)
    requires AllDigits(s)
    ensures Value(Zeros(z) + s) == Value(s)
    decreases |s|, z
  {
    if s != [] {
      assert (Zeros(z) + s)[..|Zeros(z) + s| - 1] == Zeros(z) + s[..|s| - 1];
      LeadingZeros(z, s[..|s| - 1]);
    } else if z > 0 {
      assert Zeros(z) + s == Zeros(z);
      assert Zeros(z)[..z - 1] == Zeros(z - 1) + [];
      LeadingZeros(z - 1, []);
    }
  }

  lemma ValueOfPadded(n: nat)
    ensures Value(Padded(n)) == n
  {
    ValueOfRender(n);
    if |Render(n)| < 20 {
      LeadingZeros(20 - |Render(n)|, Render(n));
    }
  }

  // ---- period keys ----

  datatype Period = Period(chain: nat, asset: string, start: nat, end: nat)

  /** Fields joined by slashes. */
  function Joined(fields: seq<string>): string {
    if |fields| == 0 then "" else if |fields| == 1 then fields[0] else fields[0] + "/" + Joined(fields[1..])
  }

  /** The key a report's periods are told apart by. */
  function PeriodKey(p: Period): string {
    Joined([Render(p.chain), p.asset, Render(p.start), Render(p.end)])
  }

  /** The key the combined groups are held under. */
  function GroupKey(p: Period): string {
    Joined([Render(p.chain), p.asset, Padded(p.start), Padded(p.end)])
  }

  lemma JoinedFour(a: string, b: string, c: string, d: string)
    ensures Joined([a, b, c, d]) == a + "/" + (b + "/" + (c + "/" + d))
  {
    assert [a, b, c, d][1..] == [b, c, d] && [b, c, d][1..] == [c, d] && [c, d][1..] == [d];
    assert Joined([b, c, d]) == b + "/" + Joined([c, d]);
    assert Joined([c, d]) == c + "/" + Joined([d]);
  }

  /** The text up to the first slash is determined, however the rest goes on. */
  lemma FirstSlash(a: string, x: string, b: string, y: string)
    requires a + "/" + x == b + "/" + y && '/' !in a && '/' !in b
    ensures a == b && x == y
  {
    var s := a + "/" + x;
    assert s[|a|] == '/' && forall i :: 0 <= i < |a| ==> s[i] == a[i];
    assert s[|b|] == '/' && forall i :: 0 <= i < |b| ==> s[i] == b[i];
    assert |a| == |b|;
    assert a == s[..|a|] && b == s[..|b|];
    assert x == s[|a| + 1..] && y == s[|b| + 1..];
  }

  /** And so is the text after the last one. */
  lemma LastSlash(x: string, a: string, y: string, b: string)
    requires x + "/" + a == y + "/" + b && '/' !in a && '/' !in b
    ensures x == y && a == b
  {
    var s := x + "/" + a;
    assert s[|x|] == '/' && forall i :: |x| < i < |s| ==> s[i] == a[i - |x| - 1];
    assert s[|y|] == '/' && forall i :: |y| < i < |s| ==> s[i] == b[i - |y| - 1];
    assert |x| == |y|;
    assert x == s[..|x|] && y == s[..|y|];
    assert a == s[|x| + 1..] && b == s[|y| + 1..];
  }

  lemma DigitsHaveNoSlash(s: string)
    requires AllDigits(s)
    ensures '/' !in s
  {
  }

  /** Four fields joined by slashes are determined by the text, whatever the second field holds. */
  lemma JoinedFields(c: string, x: string, s: string, e: string, c': string, x': string, s': string, e': string)
    requires AllDigits(c) && AllDigits(s) && AllDigits(e) && AllDigits(c') && AllDigits(s') && AllDigits(e')
    requires Joined([c, x, s, e]) == Joined([c', x', s', e'])
    ensures c == c' && x == x' && s == s' && e == e'
  {
    JoinedFour(c, x, s, e);
    JoinedFour(c', x', s', e');
    DigitsHaveNoSlash(c);
    DigitsHaveNoSlash(c');
    FirstSlash(c, x + "/" + (s + "/" + e), c', x' + "/" + (s' + "/" + e'));
    LastTwo(x, s, e, x', s', e');
  }

  lemma LastTwo(x: string, s: string, e: string, x': string, s': string, e': string)
    requires AllDigits(s) && AllDigits(e) && AllDigits(s') && AllDigits(e')
    requires x + "/" + (s + "/" + e) == x' + "/" + (s' + "/" + e')
    ensures x == x' && s == s' && e == e'
  {
    DigitsHaveNoSlash(s);
    DigitsHaveNoSlash(e);
    DigitsHaveNoSlash(s');
    DigitsHaveNoSlash(e');
    assert x + "/" + (s + "/" + e) == (x + "/" + s) + "/" + e;
    assert x' + "/" + (s' + "/" + e') == (x' + "/" + s') + "/" + e';
    LastSlash(x + "/" + s, e, x' + "/" + s', e');
    LastSlash(x, s, x', s');
  }

  lemma PeriodKeyIsInjective(p: Period, q: Period)
    requires PeriodKey(p) == PeriodKey(q)
    ensures p == q
  {
    JoinedFields(Render(p.chain), p.asset, Render(p.start), Render(p.end), Render(q.chain), q.asset, Render(q.start),
                 Render(q.end));
    RenderIsInjective(p.chain, q.chain);
    RenderIsInjective(p.start, q.start);
    RenderIsInjective(p.end, q.end);
  }

  lemma GroupKeyIsInjective(p: Period, q: Period)
    requires GroupKey(p) == GroupKey(q)
    ensures p == q
  {
    JoinedFields(Render(p.chain), p.asset, Padded(p.start), Padded(p.end), Render(q.chain), q.asset, Padded(q.start),
                 Padded(q.end));
    RenderIsInjective(p.chain, q.chain);
    ValueOfPadded(p.start);
    ValueOfPadded(q.start);
    ValueOfPadded(p.end);
    ValueOfPadded(q.end);
  }

  lemma RenderIsInjective(m: nat, n: nat)
    requires Render(m) == Render(n)
    ensures m == n
  {
    ValueOfRender(m);
    ValueOfRender(n);
  }

  /** Both keys are injective, even for assets that contain slashes. */
  lemma KeysAreInjective(p: Period, q: Period)
    ensures PeriodKey(p) == PeriodKey(q) <==> p == q
    ensures GroupKey(p) == GroupKey(q) <==> p == q
  {
    if PeriodKey(p) == PeriodKey(q) { PeriodKeyIsInjective(p, q); }
    if GroupKey(p) == GroupKey(q) { GroupKeyIsInjective(p, q); }
  }
}
