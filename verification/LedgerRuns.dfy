/** Whole runs of the ledger: what a revision chain pays, and the one fate of an authorization. */
module LedgerRuns {
  import opened Optional
  import opened Pricing
  import opened Ledger
  import opened LedgerInvariant

  // ---- charges, attributed to the authorization a call names ----

  function Debited(l: Ledger, a: AccountKey): int {
    if a in l.accounts then l.accounts[a].debited else 0
  }

  predicate Charges(op: Op, k: AuthKey) {
    (op.AdvanceOp? || op.SettleOp?) && op.key == k
  }

  /** The wei a call takes from the account of k by naming k. */
  function Charge(l: Ledger, op: Op, k: AuthKey): int {
    if Charges(op, k) then Debited(Apply(l, op).ledger, k.owner) - Debited(l, k.owner) else 0
  }

  /** The wei taken in the name of k over a run. */
  function Paid(ops: seq<Op>, k: AuthKey): int {
    if ops == [] then 0
    else Paid(ops[..|ops| - 1], k) + Charge(Run(ops[..|ops| - 1]), ops[|ops| - 1], k)
  }

  /** c lists an authorization's revisions, from the original to k's own. */
  predicate IsChain(auths: map<AuthKey, Auth>, c: seq<AuthKey>) {
    && c != []
    && var tip := c[|c| - 1];
    && tip in auths
    && var p := auths[tip].payload;
    if |c| == 1 then p.predecessor == ""
    else p.predecessor != "" && c[|c| - 2] == PredecessorKey(p) && IsChain(auths, c[..|c| - 1])
  }

  function ChainPaid(ops: seq<Op>, c: seq<AuthKey>): int {
    if c == [] then 0 else ChainPaid(ops, c[..|c| - 1]) + Paid(ops, c[|c| - 1])
  }

  lemma RunExtends(ops: seq<Op>, op: Op)
    ensures Run(ops + [op]) == Apply(Run(ops), op).ledger
    ensures forall k :: Paid(ops + [op], k) == Paid(ops, k) + Charge(Run(ops), op, k)
  {
    assert (ops + [op])[..|ops + [op]| - 1] == ops;
  }

  // ---- what one call may do to one authorization ----

  /** The authorization after the call, and the charge the call made in its name. */
  ghost predicate Evolves(before: Auth, after: Auth, charge: int) {
    && after.payload == before.payload && after.fingerprint == before.fingerprint
    && match (before.state, after.state)
       case (Admitted, Admitted) => 0 <= charge && after.billed == before.billed + charge
       case (Admitted, Superseded) => charge == 0 && after.billed == before.billed && after.reserved == 0
       case (Admitted, Settled) =>
         && after.reserved == 0 && 0 <= charge <= before.reserved
         && after.billed == BillFor(after.payload.price, after.payload.per, after.units)
         && charge == if before.billed <= after.billed then after.billed - before.billed else 0
       case (_, _) => charge == 0 && after.state != Admitted && after.reserved == 0
  }

  /** The authorizations once p is admitted with this hold: its predecessor superseded, its own record added. */
  function AuthsWith(l: Ledger, wire: Wire, p: Payload, reserved: int): map<AuthKey, Auth>
    requires HasUsablePredecessor(l, p)
  {
    var base := BaseOf(l, p);
    Supersede(l, p)[KeyOf(p) := Auth(p, reserved, base.billed, 0, Admitted, base.units, base.seqno, wire)]
  }

  lemma AdmitNewAuths(l: Ledger, wire: Wire, p: Payload, payment: Bytes, reservation: Option<int>)
    requires KeyOf(p).owner in l.accounts
    ensures var step := AdmitNew(l, wire, p, payment, reservation);
            if step.outcome.Admission?
            then HasUsablePredecessor(l, p) && step.ledger.auths == AuthsWith(l, wire, p, step.outcome.reserved)
            else step.ledger.auths == l.auths
  {
  }

  /** An admission either leaves the authorizations alone or supersedes the predecessor and adds its own key. */
  lemma AdmitAuths(l: Ledger, wire: Wire, payment: Bytes, reservation: Option<int>)
    ensures var auths' := Admit(l, wire, payment, reservation).ledger.auths;
            || auths' == l.auths
            || (&& wire.SpendAuthorization? && wire.payload.Some?
                && var p := wire.payload.value;
                && KeyOf(p) !in l.auths && HasUsablePredecessor(l, p)
                && exists reserved :: auths' == AuthsWith(l, wire, p, reserved))
  {
    if wire.SpendAuthorization? && wire.payload.Some? {
      var p := wire.payload.value;
      var l1 := WithAccount(l, KeyOf(p).owner, p.payee);
      AdmitNewAuths(l1, wire, p, payment, reservation);
      hide AdmitNew;
      var step := AdmitNew(l1, wire, p, payment, reservation);
      if step.outcome.Admission? {
        assert AuthsWith(l1, wire, p, step.outcome.reserved) == AuthsWith(l, wire, p, step.outcome.reserved);
      }
    }
  }

  lemma AdmitEvolves(l: Ledger, wire: Wire, payment: Bytes, reservation: Option<int>, k: AuthKey)
    requires k in l.auths && WithinCap(l.auths[k])
    ensures k in Admit(l, wire, payment, reservation).ledger.auths
    ensures Evolves(l.auths[k], Admit(l, wire, payment, reservation).ledger.auths[k], 0)
  {
    AdmitAuths(l, wire, payment, reservation);
  }

  lemma AdvanceEvolves(l: Ledger, key: AuthKey, units: nat, target: nat, seqno: nat, k: AuthKey)
    requires k in l.auths && WithinCap(l.auths[k]) && k.owner in l.accounts
    ensures var l' := Advance(l, key, units, target, seqno).ledger;
            && k in l'.auths
            && Evolves(l.auths[k], l'.auths[k], if key == k then Debited(l', k.owner) - Debited(l, k.owner) else 0)
  {
  }

  lemma SettleEvolves(l: Ledger, key: AuthKey, units: nat, seqno: nat, k: AuthKey)
    requires k in l.auths && WithinCap(l.auths[k]) && k.owner in l.accounts
    ensures var l' := Settle(l, key, units, seqno).ledger;
            && k in l'.auths
            && Evolves(l.auths[k], l'.auths[k], if key == k then Debited(l', k.owner) - Debited(l, k.owner) else 0)
  {
  }

  lemma KnownAuthEvolves(l: Ledger, op: Op, k: AuthKey)
    requires k in l.auths && WithinCap(l.auths[k]) && k.owner in l.accounts
    ensures k in Apply(l, op).ledger.auths
    ensures Evolves(l.auths[k], Apply(l, op).ledger.auths[k], Charge(l, op, k))
  {
    match op
    case AdmitOp(wire, payment, reservation) => AdmitEvolves(l, wire, payment, reservation, k);
    case AdvanceOp(key, units, target, seqno) => AdvanceEvolves(l, key, units, target, seqno, k);
    case SettleOp(key, units, seqno) => SettleEvolves(l, key, units, seqno, k);
    case _ =>
  }

  lemma AuthEvolves(l: Ledger, op: Op, k: AuthKey)
    requires Valid(l) && k in l.auths
    ensures k in Apply(l, op).ledger.auths
    ensures Evolves(l.auths[k], Apply(l, op).ledger.auths[k], Charge(l, op, k))
  {
    KnownAuthEvolves(l, op, k);
  }

  /** A key appears only by its own admission, on top of a then-admitted predecessor. */
  lemma NewKeyIsAdmitted(l: Ledger, op: Op, k: AuthKey)
    requires k !in l.auths && k in Apply(l, op).ledger.auths
    ensures op.AdmitOp?
    ensures var auth := Apply(l, op).ledger.auths[k];
            && KeyOf(auth.payload) == k && auth.state == Admitted && op.wire.SpendAuthorization?
            && op.wire.payload == Some(auth.payload) && auth.fingerprint == op.wire
            && HasUsablePredecessor(l, auth.payload)
            && auth.billed == BaseOf(l, auth.payload).billed
            && auth.units == BaseOf(l, auth.payload).units
  {
    if op.AdmitOp? {
      AdmitAuths(l, op.wire, op.inlinePayment, op.reservation);
    }
  }

  // ---- the laws of a chain ----

  /** What was paid is what an admitted tip reports, and with what the tip holds stays within its signed cap. */
  ghost predicate TipLaw(tip: Auth, paid: int) {
    && 0 <= paid
    && (tip.state == Admitted ==> paid == tip.billed)
    && paid + tip.reserved <= tip.payload.maxDebit
  }

  ghost predicate ChainLaw(auths: map<AuthKey, Auth>, c: seq<AuthKey>, paid: int)
    requires IsChain(auths, c)
  {
    TipLaw(auths[c[|c| - 1]], paid)
  }

  lemma TipLawEvolves(before: Auth, after: Auth, paid: int, charge: int)
    requires TipLaw(before, paid) && WithinCap(before) && Evolves(before, after, charge) && WithinCap(after)
    ensures TipLaw(after, paid + charge)
  {
  }

  /** A key that has not been admitted has not been charged. */
  lemma {:induction false} UnknownPaysNothing(ops: seq<Op>, k: AuthKey)
    requires k !in Run(ops).auths
    ensures Paid(ops, k) == 0
  {
    if ops != [] {
      var l := Run(ops[..|ops| - 1]);
      EveryRunIsValid(ops[..|ops| - 1]);
      if k in l.auths {
        AuthEvolves(l, ops[|ops| - 1], k);
      } else {
        UnknownPaysNothing(ops[..|ops| - 1], k);
      }
    }
  }

  /** No authorization is forgotten and no payload rewritten. */
  ghost predicate Remembers(auths: map<AuthKey, Auth>, auths': map<AuthKey, Auth>) {
    forall k :: k in auths ==> k in auths' && auths'[k].payload == auths[k].payload
  }

  lemma StepRemembers(l: Ledger, op: Op)
    requires Valid(l)
    ensures Remembers(l.auths, Apply(l, op).ledger.auths)
  {
    forall k | k in l.auths
      ensures k in Apply(l, op).ledger.auths && Apply(l, op).ledger.auths[k].payload == l.auths[k].payload
    {
      AuthEvolves(l, op, k);
    }
  }

  /** What validity says of one authorization of a run. */
  lemma KnownInRun(ops: seq<Op>, k: AuthKey)
    requires k in Run(ops).auths
    ensures WithinCap(Run(ops).auths[k]) && k.owner in Run(ops).accounts && Linked(Run(ops).auths, k)
  {
    EveryRunIsValid(ops);
  }

  lemma RunIsChained(ops: seq<Op>)
    ensures Chained(Run(ops).auths)
  {
    EveryRunIsValid(ops);
  }

  lemma RunRemembers(ops: seq<Op>, op: Op)
    ensures Remembers(Run(ops).auths, Run(ops + [op]).auths)
  {
    EveryRunIsValid(ops);
    RunExtends(ops, op);
    StepRemembers(Run(ops), op);
  }

  /** Chains are never rewritten: a chain whose tip was already known was already that chain. */
  lemma {:induction false} ChainWasThere(auths: map<AuthKey, Auth>, auths': map<AuthKey, Auth>, c: seq<AuthKey>)
    requires Chained(auths) && Remembers(auths, auths') && IsChain(auths', c) && c[|c| - 1] in auths
    ensures IsChain(auths, c)
    decreases |c|
  {
    assert Linked(auths, c[|c| - 1]);
    if |c| > 1 {
      ChainWasThere(auths, auths', c[..|c| - 1]);
    }
  }

  lemma {:induction false} ChainStays(auths: map<AuthKey, Auth>, auths': map<AuthKey, Auth>, c: seq<AuthKey>)
    requires Remembers(auths, auths') && IsChain(auths, c)
    ensures IsChain(auths', c)
    decreases |c|
  {
    if |c| > 1 {
      ChainStays(auths, auths', c[..|c| - 1]);
    }
  }

  /** Only the tip of a chain can be charged. */
  lemma {:induction false} OnlyTheTipIsCharged(ops: seq<Op>, op: Op, c: seq<AuthKey>)
    requires IsChain(Run(ops).auths, c)
    ensures ChainPaid(ops + [op], c) == ChainPaid(ops, c) + Charge(Run(ops), op, c[|c| - 1])
    decreases |c|
  {
    RunExtends(ops, op);
    if |c| > 1 {
      var rest := c[..|c| - 1];
      OnlyTheTipIsCharged(ops, op, rest);
      KnownInRun(ops, c[|c| - 1]);
      KnownInRun(ops, rest[|rest| - 1]);
      KnownAuthEvolves(Run(ops), op, rest[|rest| - 1]);
    } else {
      assert ChainPaid(ops, c[..0]) == 0 && ChainPaid(ops + [op], c[..0]) == 0;
    }
  }

  /** Nothing is charged to a chain by the call that admits its next revision. */
  lemma AdmissionChargesNothing(ops: seq<Op>, op: Op, c: seq<AuthKey>)
    requires op.AdmitOp?
    ensures ChainPaid(ops + [op], c) == ChainPaid(ops, c)
    decreases |c|
  {
    RunExtends(ops, op);
    if c != [] {
      AdmissionChargesNothing(ops, op, c[..|c| - 1]);
    }
  }

  /** A call leaves a known chain lawful. */
  lemma KnownTipStaysLawful(ops: seq<Op>, op: Op, c: seq<AuthKey>)
    requires IsChain(Run(ops).auths, c) && IsChain(Apply(Run(ops), op).ledger.auths, c)
    requires ChainLaw(Run(ops).auths, c, ChainPaid(ops, c))
    ensures ChainLaw(Apply(Run(ops), op).ledger.auths, c, ChainPaid(ops + [op], c))
  {
    var l, tip := Run(ops), c[|c| - 1];
    RunExtends(ops, op);
    KnownInRun(ops, tip);
    KnownInRun(ops + [op], tip);
    OnlyTheTipIsCharged(ops, op, c);
    KnownAuthEvolves(l, op, tip);
    TipLawEvolves(l.auths[tip], Apply(l, op).ledger.auths[tip], ChainPaid(ops, c), Charge(l, op, tip));
  }

  /** An admitted revision starts where its chain stands. */
  lemma NewTipIsLawful(ops: seq<Op>, op: Op, c: seq<AuthKey>)
    requires IsChain(Apply(Run(ops), op).ledger.auths, c) && c[|c| - 1] !in Run(ops).auths
    requires |c| > 1 ==> IsChain(Run(ops).auths, c[..|c| - 1])
    requires |c| > 1 ==> ChainLaw(Run(ops).auths, c[..|c| - 1], ChainPaid(ops, c[..|c| - 1]))
    ensures ChainLaw(Apply(Run(ops), op).ledger.auths, c, ChainPaid(ops + [op], c))
  {
    var l, tip := Run(ops), c[|c| - 1];
    RunExtends(ops, op);
    KnownInRun(ops + [op], tip);
    NewKeyIsAdmitted(l, op, tip);
    UnknownPaysNothing(ops, tip);
    AdmissionChargesNothing(ops, op, c);
    assert |c| == 1 ==> ChainPaid(ops, c[..0]) == 0;
  }

  /** In every run, settles repeated included, a chain's payments equal its admitted tip's bill and, with
      what the tip still holds, stay within the tip's signed cap. */
  lemma {:induction false} EveryChainIsLawful(ops: seq<Op>, c: seq<AuthKey>)
    requires IsChain(Run(ops).auths, c)
    ensures ChainLaw(Run(ops).auths, c, ChainPaid(ops, c))
  {
    var before, op := ops[..|ops| - 1], ops[|ops| - 1];
    assert ops == before + [op];
    RunExtends(before, op);
    hide Run, Apply, ChainPaid;
    var l := Run(before);
    RunRemembers(before, op);
    RunIsChained(before);
    if c[|c| - 1] in l.auths {
      ChainWasThere(l.auths, Run(ops).auths, c);
      EveryChainIsLawful(before, c);
      KnownTipStaysLawful(before, op, c);
    } else {
      if |c| > 1 {
        NewKeyIsAdmitted(l, op, c[|c| - 1]);
        ChainWasThere(l.auths, Run(ops).auths, c[..|c| - 1]);
        EveryChainIsLawful(before, c[..|c| - 1]);
      }
      NewTipIsLawful(before, op, c);
    }
  }

  /** Every authorization is the tip of a chain, so the laws above speak about all of them. */
  lemma {:induction false} ChainOf(ops: seq<Op>, k: AuthKey) returns (c: seq<AuthKey>)
    requires k in Run(ops).auths
    ensures IsChain(Run(ops).auths, c) && c[|c| - 1] == k
  {
    var before, op := ops[..|ops| - 1], ops[|ops| - 1];
    var l := Run(before);
    EveryRunIsValid(before);
    StepRemembers(l, op);
    if k in l.auths {
      c := ChainOf(before, k);
      ChainStays(l.auths, Run(ops).auths, c);
    } else {
      NewKeyIsAdmitted(l, op, k);
      var p := Run(ops).auths[k].payload;
      if p.predecessor == "" {
        c := [k];
      } else {
        c := ChainOf(before, PredecessorKey(p));
        ChainStays(l.auths, Run(ops).auths, c);
        c := c + [k];
      }
    }
  }
}
