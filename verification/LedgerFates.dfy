/** How authorizations end: settlement on the cumulative curve, finality, and safe retries. */
module LedgerFates {
  import opened Optional
  import opened Pricing
  import opened Sums
  import opened Ledger
  import opened LedgerInvariant
  import opened LedgerRuns

  // ---- settlement ----

  /** Settling the tip of any chain, in whatever state, succeeds exactly when its hold covers what is owed. An
      admitted tip's chain has then paid the larger of the bill and what was billed before; a closed one's pays
      nothing more. The record reports the bill, which is what the chain has paid exactly when an admitted tip
      had not billed more, or a closed chain had already paid just that. */
  lemma SettlementPaysTheBill(ops: seq<Op>, c: seq<AuthKey>, units: nat, seqno: nat)
    requires IsChain(Run(ops).auths, c)
    ensures var tip := Run(ops).auths[c[|c| - 1]];
            var op := SettleOp(c[|c| - 1], units, seqno);
            var bill := BillFor(tip.payload.price, tip.payload.per, units);
            && (Apply(Run(ops), op).outcome.Settlement? <==> bill <= tip.billed + tip.reserved)
            && (Apply(Run(ops), op).outcome.Settlement? ==>
                  && c[|c| - 1] in Run(ops + [op]).auths
                  && Run(ops + [op]).auths[c[|c| - 1]].state == Settled
                  && Run(ops + [op]).auths[c[|c| - 1]].billed == bill
                  && ChainPaid(ops + [op], c) == (if tip.state != Admitted then ChainPaid(ops, c)
                                                  else if bill < tip.billed then tip.billed else bill)
                  && (bill == ChainPaid(ops + [op], c) <==>
                        if tip.state == Admitted then tip.billed <= bill else bill == ChainPaid(ops, c)))
  {
    var k := c[|c| - 1];
    var op := SettleOp(k, units, seqno);
    KnownInRun(ops, k);
    EveryChainIsLawful(ops, c);
    OnlyTheTipIsCharged(ops, op, c);
    RunExtends(ops, op);
    SettleCharges(Run(ops), k, units, seqno);
    assert Apply(Run(ops), op) == Settle(Run(ops), k, units, seqno);
  }

  /** What one settlement charges and leaves, on any authorization of a valid ledger. */
  lemma SettleCharges(l: Ledger, k: AuthKey, units: nat, seqno: nat)
    requires k in l.auths && WithinCap(l.auths[k]) && k.owner in l.accounts
    ensures var auth, step := l.auths[k], Settle(l, k, units, seqno);
            var bill := BillFor(auth.payload.price, auth.payload.per, units);
            && (step.outcome.Settlement? <==> bill <= auth.billed + auth.reserved)
            && (step.outcome.Settlement? ==>
                  && k in step.ledger.auths
                  && step.ledger.auths[k].state == Settled && step.ledger.auths[k].billed == bill
                  && Debited(step.ledger, k.owner) - Debited(l, k.owner)
                     == (if bill < auth.billed then 0 else bill - auth.billed)
                  && (auth.state != Admitted ==> bill <= auth.billed))
  {
  }

  ghost predicate OnePrice(auths: map<AuthKey, Auth>, c: seq<AuthKey>, price: nat, per: nat) {
    forall k :: k in c ==> k in auths && auths[k].payload.price == price && auths[k].payload.per == per
  }

  /** Whatever was advanced and however it was revised, an admitted tip of a one-price chain stands on the
      cumulative curve at its own unit count. */
  lemma {:induction false} OnePriceChainIsOnTheCurve(ops: seq<Op>, c: seq<AuthKey>, price: nat, per: nat)
    requires IsChain(Run(ops).auths, c) && OnePrice(Run(ops).auths, c, price, per)
    requires Run(ops).auths[c[|c| - 1]].state == Admitted
    ensures var tip := Run(ops).auths[c[|c| - 1]];
            tip.billed == BillFor(price, per, tip.units)
  {
    var before, op, k := ops[..|ops| - 1], ops[|ops| - 1], c[|c| - 1];
    assert ops == before + [op];
    RunExtends(before, op);
    hide Run, Apply, BillFor;
    var l := Run(before);
    RunRemembers(before, op);
    RunIsChained(before);
    if k in l.auths {
      KnownInRun(before, k);
      KnownAuthEvolves(l, op, k);
      if l.auths[k] != Run(ops).auths[k] {
        OnlyAdvanceRewrites(l, op, k);
      } else {
        ChainWasThere(l.auths, Run(ops).auths, c);
        ChainKeysAreKnown(l.auths, c);
        OnePriceChainIsOnTheCurve(before, c, price, per);
      }
    } else {
      NewKeyIsAdmitted(l, op, k);
      if |c| > 1 {
        var rest := c[..|c| - 1];
        ChainWasThere(l.auths, Run(ops).auths, rest);
        ChainKeysAreKnown(l.auths, rest);
        OnePriceChainIsOnTheCurve(before, rest, price, per);
      }
    }
  }

  lemma OnlyAdvanceRewrites(l: Ledger, op: Op, k: AuthKey)
    requires k in l.auths && k in Apply(l, op).ledger.auths
    requires l.auths[k] != Apply(l, op).ledger.auths[k] && Apply(l, op).ledger.auths[k].state == Admitted
    ensures var auth := Apply(l, op).ledger.auths[k];
            auth.billed == BillFor(auth.payload.price, auth.payload.per, auth.units)
  {
    if op.AdmitOp? {
      AdmitAuths(l, op.wire, op.inlinePayment, op.reservation);
    } else if op.AdvanceOp? {
      AdvanceRewrites(l, op.key, op.units, op.target, op.seqno, k);
    } else if op.SettleOp? {
      SettleRewrites(l, op.key, op.units, op.seqno, k);
    }
  }

  lemma AdvanceRewrites(l: Ledger, key: AuthKey, units: nat, target: nat, seqno: nat, k: AuthKey)
    requires k in l.auths && k in Advance(l, key, units, target, seqno).ledger.auths
    ensures var auth := Advance(l, key, units, target, seqno).ledger.auths[k];
            auth == l.auths[k] || auth.billed == BillFor(auth.payload.price, auth.payload.per, auth.units)
  {
  }

  lemma SettleRewrites(l: Ledger, key: AuthKey, units: nat, seqno: nat, k: AuthKey)
    requires k in l.auths && k in Settle(l, key, units, seqno).ledger.auths
    ensures var auth := Settle(l, key, units, seqno).ledger.auths[k];
            auth == l.auths[k] || auth.state == Settled
  {
  }

  lemma {:induction false} ChainKeysAreKnown(auths: map<AuthKey, Auth>, c: seq<AuthKey>)
    requires IsChain(auths, c)
    ensures forall k :: k in c ==> k in auths
    decreases |c|
  {
    if |c| > 1 {
      ChainKeysAreKnown(auths, c[..|c| - 1]);
      assert c == c[..|c| - 1] + [c[|c| - 1]];
    }
  }

  /** Once its tip is no longer admitted, a chain pays nothing more, whatever is called. */
  lemma {:induction false} ClosedChainPaysNoMore(ops: seq<Op>, more: seq<Op>, c: seq<AuthKey>)
    requires IsChain(Run(ops).auths, c) && Run(ops).auths[c[|c| - 1]].state != Admitted
    ensures IsChain(Run(ops + more).auths, c) && Run(ops + more).auths[c[|c| - 1]].state != Admitted
    ensures ChainPaid(ops + more, c) == ChainPaid(ops, c)
    decreases |more|
  {
    hide Run, Apply, ChainPaid;
    if more == [] {
      assert ops + more == ops;
    } else {
      var rest, op := more[..|more| - 1], more[|more| - 1];
      ClosedChainPaysNoMore(ops, rest, c);
      assert ops + more == ops + rest + [op];
      RunExtends(ops + rest, op);
      RunRemembers(ops + rest, op);
      ChainStays(Run(ops + rest).auths, Run(ops + more).auths, c);
      OnlyTheTipIsCharged(ops + rest, op, c);
      KnownInRun(ops + rest, c[|c| - 1]);
      KnownAuthEvolves(Run(ops + rest), op, c[|c| - 1]);
    }
  }

  function Max(a: nat, b: nat): nat { if a < b then b else a }

  /** The rule the protocol states: at one price, a settled session has paid one ceiling over the units it was
      settled at, or over those it was advanced to if these are more, however it was chunked, revised, retried
      or settled again afterwards. */
  lemma SettledChainPaidOneCeiling(ops: seq<Op>, c: seq<AuthKey>, units: nat, seqno: nat, more: seq<Op>,
                                   price: nat, per: nat)
    requires IsChain(Run(ops).auths, c) && OnePrice(Run(ops).auths, c, price, per)
    requires Run(ops).auths[c[|c| - 1]].state == Admitted
    requires Apply(Run(ops), SettleOp(c[|c| - 1], units, seqno)).outcome.Settlement?
    ensures ChainPaid(ops + [SettleOp(c[|c| - 1], units, seqno)] + more, c)
            == BillFor(price, per, Max(Run(ops).auths[c[|c| - 1]].units, units))
  {
    var op := SettleOp(c[|c| - 1], units, seqno);
    var tip := Run(ops).auths[c[|c| - 1]];
    OnePriceChainIsOnTheCurve(ops, c, price, per);
    if tip.units < units {
      BillMonotone(price, per, tip.units, units);
    } else {
      BillMonotone(price, per, units, tip.units);
    }
    assert c[|c| - 1] in c;
    SettlementPaysTheBill(ops, c, units, seqno);
    RunRemembers(ops, op);
    RunExtends(ops, op);
    ChainStays(Run(ops).auths, Run(ops + [op]).auths, c);
    ClosedChainPaysNoMore(ops + [op], more, c);
  }

  /** Settling below what was billed refunds nothing, yet the settled record reports the smaller bill: here
      5 wei were paid and 3 are reported. */
  lemma SettlingLowReportsLessThanPaid()
    ensures var p := Payload(MOCK_PAYER, MOCK_PAYEE, "pool", "job", "", 10, 1, 1);
            var k := KeyOf(p);
            var ops := [AdmitOp(SpendAuthorization(Some(p), []), [], None), AdvanceOp(k, 5, 0, 1), SettleOp(k, 3, 2)];
            && k in Run(ops).auths && Run(ops).auths[k].state == Settled
            && Run(ops).auths[k].billed == 3 && ChainPaid(ops, [k]) == 5
  {
    var p := Payload(MOCK_PAYER, MOCK_PAYEE, "pool", "job", "", 10, 1, 1);
    var k, wire := KeyOf(p), SpendAuthorization(Some(p), []);
    var admit, advance, settle := AdmitOp(wire, [], None), AdvanceOp(k, 5, 0, 1), SettleOp(k, 3, 2);
    FirstAdmission(p, wire);
    var l1 := Run([admit]);
    var l2 := Advance(l1, k, 5, 0, 1).ledger;
    RunExtends([admit], advance);
    assert [admit] + [advance] == [admit, advance] && [admit, advance] + [settle] == [admit, advance, settle];
    assert BillFor(1, 1, 5) == 5 && BillFor(1, 1, 3) == 3;
    EveryRunIsValid([admit]);
    assert Conserved(l1, k.owner);
    HoldsAreNonNegative(l1.auths, k.owner);
    assert l2.auths[k] == Auth(p, 0, 5, 0, Admitted, 5, 1, wire);
    assert Run([admit, advance]) == l2 && IsChain(l2.auths, [k]);
    SettlementPaysTheBill([admit, advance], [k], 3, 2);
  }

  /** Nor does a settled record stay as it was paid: settling again at fewer units rewrites it, here from the 5 wei
      that were paid to 3. */
  lemma ResettlingRewritesTheRecord()
    ensures var p := Payload(MOCK_PAYER, MOCK_PAYEE, "pool", "job", "", 10, 1, 1);
            var k := KeyOf(p);
            var ops := [AdmitOp(SpendAuthorization(Some(p), []), [], None), SettleOp(k, 5, 1), SettleOp(k, 3, 2)];
            && k in Run(ops).auths && Run(ops).auths[k].state == Settled
            && Run(ops).auths[k].billed == 3 && ChainPaid(ops, [k]) == 5
  {
    var p := Payload(MOCK_PAYER, MOCK_PAYEE, "pool", "job", "", 10, 1, 1);
    var k, wire := KeyOf(p), SpendAuthorization(Some(p), []);
    var admit, settle, again := AdmitOp(wire, [], None), SettleOp(k, 5, 1), SettleOp(k, 3, 2);
    FirstAdmission(p, wire);
    assert [admit] + [settle] == [admit, settle] && [admit, settle] + [again] == [admit, settle, again];
    assert BillFor(1, 1, 5) == 5 && BillFor(1, 1, 3) == 3;
    hide Run, ChainPaid, BillFor;
    SettlingAnOriginal([admit], k, 5, 1);
    SettlingAnOriginal([admit, settle], k, 3, 2);
  }

  /** Settling an authorization without predecessor, whose chain is itself alone. */
  lemma SettlingAnOriginal(ops: seq<Op>, k: AuthKey, units: nat, seqno: nat)
    requires k in Run(ops).auths && Run(ops).auths[k].payload.predecessor == ""
    requires var auth := Run(ops).auths[k];
             BillFor(auth.payload.price, auth.payload.per, units) <= auth.billed + auth.reserved
    ensures var auth, after, op := Run(ops).auths[k], Run(ops + [SettleOp(k, units, seqno)]), SettleOp(k, units, seqno);
            var bill := BillFor(auth.payload.price, auth.payload.per, units);
            && k in after.auths && after.auths[k].payload == auth.payload && after.auths[k].state == Settled
            && after.auths[k].billed == bill && after.auths[k].reserved == 0
            && ChainPaid(ops + [op], [k]) == if auth.state != Admitted then ChainPaid(ops, [k])
                                             else if bill < auth.billed then auth.billed else bill
  {
    hide Run, ChainPaid, BillFor;
    var op := SettleOp(k, units, seqno);
    assert IsChain(Run(ops).auths, [k]);
    SettlementPaysTheBill(ops, [k], units, seqno);
    KnownInRun(ops, k);
    KnownAuthEvolves(Run(ops), op, k);
    RunExtends(ops, op);
  }

  /** A first admission for a payload of ten wei without predecessor, from a new client. */
  lemma FirstAdmission(p: Payload, wire: Wire)
    requires p == Payload(MOCK_PAYER, MOCK_PAYEE, "pool", "job", "", 10, 1, 1)
             && wire == SpendAuthorization(Some(p), [])
    ensures var l := Run([AdmitOp(wire, [], None)]);
            KeyOf(p) in l.auths && l.auths[KeyOf(p)] == Auth(p, 10, 0, 0, Admitted, 0, 0, wire)
  {
    var admit := AdmitOp(wire, [], None);
    RunExtends([], admit);
    assert [] + [admit] == [admit];
    assert Run([admit]) == Admit(EMPTY, wire, [], None).ledger;
  }

  // ---- finality ----

  /** The call is about k: it advances, settles, admits, cancels or revises k. */
  ghost predicate Names(op: Op, k: AuthKey) {
    match op
    case AdvanceOp(key, _, _, _) => key == k
    case SettleOp(key, _, _) => key == k
    case AdmitOp(wire, _, _) =>
      && wire.SpendAuthorization? && wire.payload.Some?
      && (KeyOf(wire.payload.value) == k
          || (wire.payload.value.predecessor != "" && PredecessorKey(wire.payload.value) == k))
    case CancelOp(wire) => wire.SpendAuthorization? && wire.payload.Some? && KeyOf(wire.payload.value) == k
    case _ => false
  }

  ghost predicate SameMoney(x: Account, y: Account) {
    x.credited == y.credited && x.available == y.available && x.reserved == y.reserved && x.debited == y.debited
  }

  ghost predicate MovesNoMoney(l: Ledger, l': Ledger) {
    l'.accounts.Keys == l.accounts.Keys && forall a :: a in l.accounts ==> SameMoney(l.accounts[a], l'.accounts[a])
  }

  lemma AdmissionAboutClosedIsSilent(l: Ledger, wire: Wire, payment: Bytes, reservation: Option<int>, k: AuthKey)
    requires Valid(l) && k in l.auths && l.auths[k].state != Admitted && Names(AdmitOp(wire, payment, reservation), k)
    ensures Admit(l, wire, payment, reservation).ledger == l
  {
    var p := wire.payload.value;
    assert KeyOf(p).owner == k.owner && k.owner in l.accounts;
    if KeyOf(p) !in l.auths {
      assert !HasUsablePredecessor(l, p);
    }
  }

  lemma SettlingClosedIsSilent(l: Ledger, k: AuthKey, units: nat, seqno: nat)
    requires Valid(l) && k in l.auths && l.auths[k].state != Admitted
    ensures MovesNoMoney(l, Settle(l, k, units, seqno).ledger)
  {
    assert WithinCap(l.auths[k]);
  }

  /** A settled or superseded authorization stays so, holds nothing, and a call about it moves no money. */
  lemma FateIsFinal(l: Ledger, op: Op, k: AuthKey)
    requires Valid(l) && k in l.auths && l.auths[k].state != Admitted
    ensures var l' := Apply(l, op).ledger;
            && k in l'.auths && l'.auths[k].state != Admitted && l'.auths[k].reserved == 0
            && (Names(op, k) ==> MovesNoMoney(l, l'))
  {
    AuthEvolves(l, op, k);
    if Names(op, k) {
      match op
      case AdvanceOp(_, units, target, seqno) => assert Advance(l, k, units, target, seqno).ledger == l;
      case SettleOp(_, units, seqno) => SettlingClosedIsSilent(l, k, units, seqno);
      case AdmitOp(wire, payment, reservation) => AdmissionAboutClosedIsSilent(l, wire, payment, reservation, k);
      case CancelOp(wire) => assert Cancel(l, wire).ledger == l;
    }
  }

  /** Finality over every later run: closed for good, holding nothing, and no call about it ever moves money. */
  lemma FateIsFinalForever(ops: seq<Op>, more: seq<Op>, k: AuthKey)
    requires k in Run(ops).auths && Run(ops).auths[k].state != Admitted
    ensures k in Run(ops + more).auths && Run(ops + more).auths[k].state != Admitted
            && Run(ops + more).auths[k].reserved == 0
    ensures forall op :: Names(op, k) ==> MovesNoMoney(Run(ops + more), Apply(Run(ops + more), op).ledger)
  {
    StaysClosed(ops, more, k);
    EveryRunIsValid(ops + more);
    forall op | Names(op, k) ensures MovesNoMoney(Run(ops + more), Apply(Run(ops + more), op).ledger) {
      FateIsFinal(Run(ops + more), op, k);
    }
  }

  lemma {:induction false} StaysClosed(ops: seq<Op>, more: seq<Op>, k: AuthKey)
    requires k in Run(ops).auths && Run(ops).auths[k].state != Admitted
    ensures k in Run(ops + more).auths && Run(ops + more).auths[k].state != Admitted
            && Run(ops + more).auths[k].reserved == 0
    decreases |more|
  {
    hide Run, Apply;
    if more == [] {
      assert ops + more == ops;
      KnownInRun(ops, k);
    } else {
      var rest, op := more[..|more| - 1], more[|more| - 1];
      StaysClosed(ops, rest, k);
      assert ops + more == ops + rest + [op];
      RunExtends(ops + rest, op);
      KnownInRun(ops + rest, k);
      KnownAuthEvolves(Run(ops + rest), op, k);
    }
  }

  // ---- retries ----

  /** Retrying the bytes of an admitted authorization is answered from the record and changes nothing. */
  lemma AdmittedRetryIsSilent(l: Ledger, wire: Wire, payment: Bytes, reservation: Option<int>)
    requires Valid(l) && wire.SpendAuthorization? && wire.payload.Some?
    requires var p := wire.payload.value; |p.payer| == 20 && p.id != "" && KeyOf(p) in l.auths
    ensures var step := Admit(l, wire, payment, reservation);
            && step.ledger == l
            && (step.outcome.Admission? <==> l.auths[KeyOf(wire.payload.value)].fingerprint == wire)
            && (step.outcome.Admission? ==> step.outcome.replayed && step.outcome.credited == 0)
  {
  }

  /** The two fates exclude each other for good: admitted bytes keep their record and can never be canceled,
      canceled bytes keep their fence and can never be admitted, and repeating the deciding call changes nothing. */
  lemma {:induction false} FatesExcludeEachOther(ops: seq<Op>, wire: Wire, more: seq<Op>, payment: Bytes,
                                                 reservation: Option<int>)
    requires wire.SpendAuthorization? && wire.payload.Some?
    requires var p := wire.payload.value; |p.payer| == 20 && p.id != ""
    ensures var k, l, l' := KeyOf(wire.payload.value), Run(ops), Run(ops + more);
            && (k in l.auths && l.auths[k].fingerprint == wire ==>
                  && k in l'.auths && k !in l'.canceled && l'.auths[k].fingerprint == wire
                  && Admit(l', wire, payment, reservation).ledger == l'
                  && Cancel(l', wire).ledger == l' && Cancel(l', wire).outcome.Cancellation?
                  && !Cancel(l', wire).outcome.canceled)
            && (k in l.canceled && l.canceled[k] == wire ==>
                  && k in l'.canceled && k !in l'.auths && l'.canceled[k] == wire
                  && Admit(l', wire, payment, reservation) == Step(l', Rejected(AdmissionCanceled))
                  && Cancel(l', wire).ledger == l' && Cancel(l', wire).outcome.Cancellation?
                  && Cancel(l', wire).outcome.canceled)
    decreases |more|
  {
    var k := KeyOf(wire.payload.value);
    if more == [] {
      assert ops + more == ops;
      EveryRunIsValid(ops);
      DecisionsAreStable(Run(ops), wire, payment, reservation);
    } else {
      var rest, op := more[..|more| - 1], more[|more| - 1];
      FatesExcludeEachOther(ops, wire, rest, payment, reservation);
      assert ops + more == ops + rest + [op];
      RunExtends(ops + rest, op);
      EveryRunIsValid(ops + rest);
      EveryRunIsValid(ops + more);
      if k in Run(ops + rest).canceled {
        CanceledStays(Run(ops + rest), op, k);
      }
      if k in Run(ops + rest).auths {
        AuthEvolves(Run(ops + rest), op, k);
      }
      DecisionsAreStable(Run(ops + more), wire, payment, reservation);
    }
  }

  lemma DecisionsAreStable(l: Ledger, wire: Wire, payment: Bytes, reservation: Option<int>)
    requires Valid(l) && wire.SpendAuthorization? && wire.payload.Some?
    requires var p := wire.payload.value; |p.payer| == 20 && p.id != ""
    ensures var k := KeyOf(wire.payload.value);
            && (k in l.auths && l.auths[k].fingerprint == wire ==>
                  && k !in l.canceled && Admit(l, wire, payment, reservation).ledger == l
                  && Cancel(l, wire).ledger == l && Cancel(l, wire).outcome.Cancellation?
                  && !Cancel(l, wire).outcome.canceled)
            && (k in l.canceled && l.canceled[k] == wire ==>
                  && k !in l.auths && Admit(l, wire, payment, reservation) == Step(l, Rejected(AdmissionCanceled))
                  && Cancel(l, wire).ledger == l && Cancel(l, wire).outcome.Cancellation?
                  && Cancel(l, wire).outcome.canceled)
  {
    var k := KeyOf(wire.payload.value);
    if k in l.canceled && l.canceled[k] == wire {
      assert l.canceled[k := wire] == l.canceled;
    }
  }

  lemma CanceledStays(l: Ledger, op: Op, k: AuthKey)
    requires k in l.canceled
    ensures k in Apply(l, op).ledger.canceled && Apply(l, op).ledger.canceled[k] == l.canceled[k]
  {
  }

  // ---- where the money went ----

  ghost function PaidIn(ops: seq<Op>, a: AccountKey): AuthKey -> int {
    (k: AuthKey) => if k.owner == a then Paid(ops, k) else 0
  }

  /** Everything an account was debited is accounted for by the payments of its authorizations. */
  lemma {:induction false} DebitsAreAttributed(ops: seq<Op>, a: AccountKey)
    ensures Debited(Run(ops), a) == Sum(Run(ops).auths.Keys, PaidIn(ops, a))
  {
    if ops != [] {
      var before, op := ops[..|ops| - 1], ops[|ops| - 1];
      assert ops == before + [op];
      DebitsAreAttributed(before, a);
      if (op.AdvanceOp? || op.SettleOp?) && op.key in Run(before).auths && op.key.owner == a {
        ChargedStep(before, op, a);
      } else {
        QuietStep(before, op, a);
      }
    }
  }

  lemma ChargedStep(ops: seq<Op>, op: Op, a: AccountKey)
    requires (op.AdvanceOp? || op.SettleOp?) && op.key in Run(ops).auths && op.key.owner == a
    requires Debited(Run(ops), a) == Sum(Run(ops).auths.Keys, PaidIn(ops, a))
    ensures Debited(Run(ops + [op]), a) == Sum(Run(ops + [op]).auths.Keys, PaidIn(ops + [op], a))
  {
    RunExtends(ops, op);
    NewcomersPaidNothing(ops, op, a);
    var keys := Run(ops).auths.Keys;
    SumChange(keys, PaidIn(ops, a), PaidIn(ops + [op], a), op.key);
    SumGrow(keys, Run(ops + [op]).auths.Keys, PaidIn(ops + [op], a), PaidIn(ops + [op], a));
  }

  lemma QuietStep(ops: seq<Op>, op: Op, a: AccountKey)
    requires !((op.AdvanceOp? || op.SettleOp?) && op.key in Run(ops).auths && op.key.owner == a)
    requires Debited(Run(ops), a) == Sum(Run(ops).auths.Keys, PaidIn(ops, a))
    ensures Debited(Run(ops + [op]), a) == Sum(Run(ops + [op]).auths.Keys, PaidIn(ops + [op], a))
  {
    RunExtends(ops, op);
    EveryRunIsValid(ops);
    DebitsUntouched(Run(ops), op, a);
    NewcomersPaidNothing(ops, op, a);
    SumGrow(Run(ops).auths.Keys, Run(ops + [op]).auths.Keys, PaidIn(ops, a), PaidIn(ops + [op], a));
  }

  lemma NewcomersPaidNothing(before: seq<Op>, op: Op, a: AccountKey)
    ensures var l, l' := Run(before), Run(before + [op]);
            && l.auths.Keys <= l'.auths.Keys
            && forall k :: k in l'.auths && k !in l.auths ==> PaidIn(before + [op], a)(k) == 0
  {
    RunExtends(before, op);
    EveryRunIsValid(before);
    var l, l' := Run(before), Run(before + [op]);
    StepRemembers(l, op);
    forall k | k in l'.auths && k !in l.auths
      ensures PaidIn(before + [op], a)(k) == 0
    {
      NewKeyIsAdmitted(l, op, k);
      UnknownPaysNothing(before, k);
    }
  }

  lemma DebitsUntouched(l: Ledger, op: Op, a: AccountKey)
    requires !((op.AdvanceOp? || op.SettleOp?) && op.key in l.auths && op.key.owner == a)
    ensures Debited(Apply(l, op).ledger, a) == Debited(l, a)
  {
    match op
    case ViewOp(_) =>
    case FundOp(_, _) =>
    case AdmitOp(wire, payment, reservation) => AdmitAccounts(l, wire, payment, reservation, a);
    case AdvanceOp(key, units, target, seqno) => AdvanceElsewhere(l, key, units, target, seqno, a);
    case SettleOp(key, units, seqno) => SettleElsewhere(l, key, units, seqno, a);
    case CancelOp(wire) => assert Debited(Cancel(l, wire).ledger, a) == Debited(l, a);
  }

  lemma AdvanceElsewhere(l: Ledger, k: AuthKey, units: nat, target: nat, seqno: nat, a: AccountKey)
    requires !(k in l.auths && k.owner == a)
    ensures Debited(Advance(l, k, units, target, seqno).ledger, a) == Debited(l, a)
  {
  }

  lemma SettleElsewhere(l: Ledger, k: AuthKey, units: nat, seqno: nat, a: AccountKey)
    requires !(k in l.auths && k.owner == a)
    ensures Debited(Settle(l, k, units, seqno).ledger, a) == Debited(l, a)
  {
  }

  /** An admission debits nothing and cancels nothing. Inline funding kept by a refusal for lack of credit is the
      one change of an account its version does not count. */
  lemma AdmitAccounts(l: Ledger, wire: Wire, payment: Bytes, reservation: Option<int>, a: AccountKey)
    ensures AdmissionFrame(l, wire, payment, reservation, Admit(l, wire, payment, reservation), a)
  {
    if wire.SpendAuthorization? && wire.payload.Some? {
      var p := wire.payload.value;
      var l1 := WithAccount(l, KeyOf(p).owner, p.payee);
      if |p.payer| == 20 && p.id != "" && KeyOf(p) !in l.canceled && KeyOf(p) !in l.auths {
        AdmitNewAccounts(l1, wire, p, payment, reservation, a);
      }
    }
  }

  lemma AdmitNewAccounts(l: Ledger, wire: Wire, p: Payload, payment: Bytes, reservation: Option<int>, a: AccountKey)
    requires KeyOf(p).owner in l.accounts && wire.SpendAuthorization? && wire.payload == Some(p)
    requires |p.payer| == 20 && p.id != "" && KeyOf(p) !in l.canceled && KeyOf(p) !in l.auths
    ensures AdmissionFrame(l, wire, payment, reservation, AdmitNew(l, wire, p, payment, reservation), a)
  {
  }

  ghost predicate AdmissionFrame(l: Ledger, wire: Wire, payment: Bytes, reservation: Option<int>, step: Step,
                                 a: AccountKey)
  {
    && step.ledger.canceled == l.canceled && Debited(step.ledger, a) == Debited(l, a)
    && (a in l.accounts ==>
          && a in step.ledger.accounts
          && var before, after := l.accounts[a], step.ledger.accounts[a];
          && Funding(before, after, payment != [])
          && (before != after && before.version == after.version <==>
                UncountedFunding(l, wire, payment, reservation, a)))
  }

  ghost predicate Funding(before: Account, after: Account, paid: bool) {
    after.credited == before.credited || (paid && after.credited == before.credited + CREDIT_PER_PAYMENT)
  }

  /** Before the call: a well-formed, unseen authorization of this account carries a payment, may hold what it asks
      for, and asks for more than the account will have even with the payment and the predecessor's hold. */
  ghost predicate UncountedFunding(l: Ledger, wire: Wire, payment: Bytes, reservation: Option<int>, a: AccountKey)
    requires a in l.accounts
  {
    && payment != [] && wire.SpendAuthorization? && wire.payload.Some?
    && var p := wire.payload.value;
    && KeyOf(p).owner == a && |p.payer| == 20 && p.id != ""
    && KeyOf(p) !in l.canceled && KeyOf(p) !in l.auths && HasUsablePredecessor(l, p)
    && var remaining := p.maxDebit - BaseOf(l, p).billed;
    && var reserved := Requested(reservation, remaining);
    && 0 <= reserved <= remaining
    && l.accounts[a].available + CREDIT_PER_PAYMENT + BaseOf(l, p).reserved < reserved
  }

  /** Credit enters an existing account one payment at a time, with a call that carries one, and its version
      counts every change except the funding kept by an admission refused for lack of credit. */
  lemma CreditComesFromPayments(l: Ledger, op: Op, a: AccountKey)
    requires Valid(l) && a in l.accounts
    ensures a in Apply(l, op).ledger.accounts
    ensures var before, after := l.accounts[a], Apply(l, op).ledger.accounts[a];
            && Funding(before, after, (op.FundOp? && op.payment != []) || (op.AdmitOp? && op.inlinePayment != []))
            && (before != after && before.version == after.version <==>
                  op.AdmitOp? && UncountedFunding(l, op.wire, op.inlinePayment, op.reservation, a))
  {
    hide Admit, Advance, Settle;
    match op
    case ViewOp(_) =>
    case FundOp(_, _) =>
    case AdmitOp(wire, payment, reservation) => AdmitAccounts(l, wire, payment, reservation, a);
    case AdvanceOp(key, units, target, seqno) => AdvanceIsCounted(l, key, units, target, seqno, a);
    case SettleOp(key, units, seqno) => SettleIsCounted(l, key, units, seqno, a);
    case CancelOp(wire) => assert Cancel(l, wire).ledger.accounts[a] == l.accounts[a];
  }

  /** Such an admission: two ether asked of an account that holds its float of one. It is refused, the payment stays,
      and the version does not move. */
  lemma RefusedAdmissionKeepsItsPayment()
    ensures var p := Payload(MOCK_PAYER, MOCK_PAYEE, "pool", "job", "", 2 * FLOAT, 1, 1);
            var a := KeyOf(p).owner;
            var l := View(EMPTY, a).ledger;
            var step := Admit(l, SpendAuthorization(Some(p), []), [1], None);
            && step.outcome == Rejected(InsufficientCredit) && a in l.accounts && a in step.ledger.accounts
            && step.ledger.accounts[a].credited == l.accounts[a].credited + CREDIT_PER_PAYMENT
            && step.ledger.accounts[a].version == l.accounts[a].version
  {
  }

  lemma AdvanceIsCounted(l: Ledger, k: AuthKey, units: nat, target: nat, seqno: nat, a: AccountKey)
    requires Valid(l) && a in l.accounts
    ensures var l' := Advance(l, k, units, target, seqno).ledger;
            && a in l'.accounts && l'.accounts[a].credited == l.accounts[a].credited
            && (l'.accounts[a] != l.accounts[a] ==> l'.accounts[a].version != l.accounts[a].version)
  {
  }

  lemma SettleIsCounted(l: Ledger, k: AuthKey, units: nat, seqno: nat, a: AccountKey)
    requires Valid(l) && a in l.accounts
    ensures var l' := Settle(l, k, units, seqno).ledger;
            && a in l'.accounts && l'.accounts[a].credited == l.accounts[a].credited
            && (l'.accounts[a] != l.accounts[a] ==> l'.accounts[a].version != l.accounts[a].version)
  {
  }
}
