/** Why the group keys are padded: within a chain and an asset, their text order is the order of rounds. */
module RoundOrder {
  import opened Decimals
  import opened Orders
  import opened MemberReport
  import opened CombineReports
  import opened CombineResults

  /** Rounds are uint64. */
  const UINT64: nat := 0x1_0000_0000_0000_0000

  lemma {:induction false} LessBehind(p: string, a: string, b: string)
    ensures Less(p + a, p + b) <==> Less(a, b)
  {
    if p == [] {
      assert p + a == a && p + b == b;
    } else {
      assert (p + a)[1..] == p[1..] + a && (p + b)[1..] == p[1..] + b;
      LessBehind(p[1..], a, b);
    }
  }

  /** Texts of one length are compared before what follows them. */
  lemma {:induction false} LessThenRest(a: string, x: string, b: string, y: string)
    requires |a| == |b|
    ensures Less(a + x, b + y) <==> Less(a, b) || (a == b && Less(x, y))
    decreases |a|
  {
    if a == [] {
      assert a + x == x && b + y == y;
    } else {
      assert (a + x)[1..] == a[1..] + x && (b + y)[1..] == b[1..] + y;
      LessThenRest(a[1..], x, b[1..], y);
      assert a == [a[0]] + a[1..] && b == [b[0]] + b[1..];
    }
  }

  /** Digit texts of one length compare as the numbers they write. */
  lemma {:induction false} DigitsCompare(a: string, b: string)
    requires |a| == |b| && AllDigits(a) && AllDigits(b)
    ensures Less(a, b) <==> Value(a) < Value(b)
    ensures a == b <==> Value(a) == Value(b)
    decreases |a|
  {
    if a != [] {
      var n := |a| - 1;
      DigitsCompare(a[..n], b[..n]);
      assert a == a[..n] + [a[n]] && b == b[..n] + [b[n]];
      LessThenRest(a[..n], [a[n]], b[..n], [b[n]]);
      assert Less([a[n]], [b[n]]) <==> a[n] < b[n];
      assert a[n] < b[n] <==> DigitValue(a[n]) < DigitValue(b[n]);
    }
  }

  function Pow10(k: nat): (p: nat)
    ensures p >= 1
  {
    if k == 0 then 1 else 10 * Pow10(k - 1)
  }

  lemma {:induction false} RenderLength(n: nat, k: nat)
    requires 1 <= k && n < Pow10(k)
    ensures |Render(n)| <= k
    decreases k
  {
    if n >= 10 {
      RenderLength(n / 10, k - 1);
    }
  }

  lemma PaddedLength(n: nat)
    requires n < UINT64
    ensures |Padded(n)| == 20
  {
    assert Pow10(5) == 100_000;
    assert Pow10(10) == 10_000_000_000;
    assert Pow10(15) == 1_000_000_000_000_000;
    assert Pow10(20) == 100_000_000_000_000_000_000;
    RenderLength(n, 20);
  }

  lemma PaddedCompare(m: nat, n: nat)
    requires m < UINT64 && n < UINT64
    ensures Less(Padded(m), Padded(n)) <==> m < n
    ensures Padded(m) == Padded(n) <==> m == n
  {
    PaddedLength(m);
    PaddedLength(n);
    DigitsCompare(Padded(m), Padded(n));
    ValueOfPadded(m);
    ValueOfPadded(n);
  }

  /** Two periods of one chain and asset are ordered by their first round, then by their last. */
  ghost predicate Earlier(p: Period, q: Period) {
    p.start < q.start || (p.start == q.start && p.end < q.end)
  }

  lemma KeysCompareAsRounds(p: Period, q: Period)
    requires p.chain == q.chain && p.asset == q.asset
    requires p.start < UINT64 && p.end < UINT64 && q.start < UINT64 && q.end < UINT64
    ensures Less(GroupKey(p), GroupKey(q)) <==> Earlier(p, q)
  {
    var head := Render(p.chain) + "/" + p.asset + "/";
    KeyParts(p);
    KeyParts(q);
    hide GroupKey, Padded;
    LessBehind(head, Padded(p.start) + ("/" + Padded(p.end)), Padded(q.start) + ("/" + Padded(q.end)));
    PaddedLength(p.start);
    PaddedLength(q.start);
    LessThenRest(Padded(p.start), "/" + Padded(p.end), Padded(q.start), "/" + Padded(q.end));
    LessBehind("/", Padded(p.end), Padded(q.end));
    PaddedCompare(p.start, q.start);
    PaddedCompare(p.end, q.end);
  }

  lemma KeyParts(p: Period)
    ensures GroupKey(p) == Render(p.chain) + "/" + p.asset + "/" + (Padded(p.start) + ("/" + Padded(p.end)))
  {
    JoinedFour(Render(p.chain), p.asset, Padded(p.start), Padded(p.end));
  }

  /** The combined groups of one chain and asset come in the order of their rounds. */
  lemma GroupsComeInRoundOrder(regions: seq<Region>, i: nat, j: nat)
    requires Accepted(regions) && i < j < |Combined(regions).value|
    requires var p, q := Combined(regions).value[i].period, Combined(regions).value[j].period;
             && p.chain == q.chain && p.asset == q.asset
             && p.start < UINT64 && p.end < UINT64 && q.start < UINT64 && q.end < UINT64
    ensures Earlier(Combined(regions).value[i].period, Combined(regions).value[j].period)
  {
    GroupsOfExactlyThePeriods(regions);
    var out := Combined(regions).value;
    assert Less(GroupKeyOf(out[i]), GroupKeyOf(out[j]));
    hide Combined;
    KeysCompareAsRounds(out[i].period, out[j].period);
  }
}
