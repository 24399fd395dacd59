/** What every reachable ledger keeps: conservation, holds, and the bounds of each authorization. */
module LedgerInvariant {
  import opened Optional
  import opened Pricing
  import opened Sums
  import opened Ledger

  ghost function HeldBy(auths: map<AuthKey, Auth>, a: AccountKey): AuthKey -> int {
    k => if k in auths && k.owner == a then auths[k].reserved else 0
  }

  /** The reservations of all authorizations of an account. */
  ghost function TotalHeld(auths: map<AuthKey, Auth>, a: AccountKey): int {
    Sum(auths.Keys, HeldBy(auths, a))
  }

  /** Value is conserved inside an account and its hold is exactly its authorizations' holds. */
  ghost predicate Conserved(l: Ledger, a: AccountKey)
    requires a in l.accounts
  {
    var account := l.accounts[a];
    && account.credited == account.available + account.reserved + account.debited
    && 0 <= account.available && 0 <= account.reserved && 0 <= account.debited
    && account.reserved == TotalHeld(l.auths, a)
  }

  /** An authorization holds nothing once it is superseded or settled, and while it is admitted what it
      billed and holds stays inside the signed cap. */
  ghost predicate WithinCap(auth: Auth) {
    && 0 <= auth.reserved && 0 <= auth.billed
    && (auth.state == Admitted ==> auth.billed + auth.reserved <= auth.payload.maxDebit)
    && (auth.state != Admitted ==> auth.reserved == 0)
  }

  /** A revision's predecessor is known and no longer admitted. */
  ghost predicate Linked(auths: map<AuthKey, Auth>, k: AuthKey)
    requires k in auths
  {
    var p := auths[k].payload;
    p.predecessor != "" ==> PredecessorKey(p) in auths && auths[PredecessorKey(p)].state != Admitted
  }

  ghost predicate Balanced(l: Ledger) {
    forall a :: a in l.accounts ==> Conserved(l, a)
  }

  ghost predicate Bounded(auths: map<AuthKey, Auth>) {
    forall k :: k in auths ==> WithinCap(auths[k])
  }

  ghost predicate Chained(auths: map<AuthKey, Auth>) {
    forall k {:trigger Linked(auths, k)} :: k in auths ==> Linked(auths, k)
  }

  /** Every authorization sits under its own key in a known account, and none is also canceled. */
  ghost predicate Keyed(l: Ledger) {
    && (forall k :: k in l.auths ==> k == KeyOf(l.auths[k].payload) && k.owner in l.accounts && k !in l.canceled)
    && (forall k :: k in l.canceled ==> k.owner in l.accounts)
  }

  ghost predicate Valid(l: Ledger) {
    Balanced(l) && Bounded(l.auths) && Chained(l.auths) && Keyed(l)
  }

  /** An account nobody has looked up has no authorizations. */
  lemma NothingHeld(l: Ledger, a: AccountKey)
    requires Valid(l) && a !in l.accounts
    ensures TotalHeld(l.auths, a) == 0
  {
    SumSame(l.auths.Keys, HeldBy(l.auths, a), _ => 0);
    SumGrow({}, l.auths.Keys, _ => 0, _ => 0);
  }

  lemma WithAccountKeeps(l: Ledger, a: AccountKey, payee: Bytes)
    requires Valid(l)
    ensures Valid(WithAccount(l, a, payee))
  {
    if a !in l.accounts {
      NothingHeld(l, a);
      var l' := WithAccount(l, a, payee);
      forall b | b in l'.accounts
        ensures Conserved(l', b)
      {
        if b != a {
          assert Conserved(l, b);
        }
      }
    }
  }

  /** Replacing one authorization shifts its own account's hold and no other. */
  lemma HeldAfterUpdate(auths: map<AuthKey, Auth>, k: AuthKey, auth: Auth, a: AccountKey)
    ensures TotalHeld(auths[k := auth], a)
            == TotalHeld(auths, a) - HeldBy(auths, a)(k) + (if k.owner == a then auth.reserved else 0)
  {
    var auths' := auths[k := auth];
    if k !in auths {
      SumGrow(auths.Keys, auths'.Keys, HeldBy(auths, a), HeldBy(auths, a));
    } else {
      assert auths'.Keys == auths.Keys;
    }
    SumChange(auths'.Keys, HeldBy(auths, a), HeldBy(auths', a), k);
  }

  /** Crediting an account keeps the ledger valid. */
  lemma CreditKeeps(l: Ledger, a: AccountKey, amount: nat, version: nat)
    requires Valid(l) && a in l.accounts
    ensures Valid(l.(accounts := l.accounts[a := Credited(l.accounts[a], amount).(version := version)]))
  {
    var l' := l.(accounts := l.accounts[a := Credited(l.accounts[a], amount).(version := version)]);
    forall b | b in l'.accounts
      ensures Conserved(l', b)
    {
      assert Conserved(l, b);
    }
  }

  lemma PlaceHolds(l: Ledger, p: Payload, auth: Auth, b: AccountKey)
    requires KeyOf(p) !in l.auths && HasUsablePredecessor(l, p)
    ensures TotalHeld(Supersede(l, p)[KeyOf(p) := auth], b)
            == TotalHeld(l.auths, b) + if KeyOf(p).owner == b then auth.reserved - BaseOf(l, p).reserved else 0
  {
    var auths1 := Supersede(l, p);
    if p.predecessor != "" {
      HeldAfterUpdate(l.auths, PredecessorKey(p), auths1[PredecessorKey(p)], b);
    }
    HeldAfterUpdate(auths1, KeyOf(p), auth, b);
  }

  lemma PlaceBalances(l: Ledger, wire: Wire, p: Payload, reserved: int)
    requires Balanced(l) && KeyOf(p) !in l.auths && KeyOf(p).owner in l.accounts && HasUsablePredecessor(l, p)
    requires 0 <= reserved <= l.accounts[KeyOf(p).owner].available + BaseOf(l, p).reserved
    requires Bounded(Place(l, wire, p, reserved).auths)
    ensures Balanced(Place(l, wire, p, reserved))
  {
    var l' := Place(l, wire, p, reserved);
    forall b | b in l'.accounts
      ensures Conserved(l', b)
    {
      assert Conserved(l, b);
      PlaceHolds(l, p, l'.auths[KeyOf(p)], b);
      HoldsAreNonNegative(l'.auths, b);
    }
  }

  lemma PlaceBounds(l: Ledger, wire: Wire, p: Payload, reserved: int)
    requires Bounded(l.auths) && Chained(l.auths) && KeyOf(p) !in l.auths
    requires KeyOf(p).owner in l.accounts && HasUsablePredecessor(l, p)
    requires 0 <= reserved <= p.maxDebit - BaseOf(l, p).billed
    ensures Bounded(Place(l, wire, p, reserved).auths)
    ensures Chained(Place(l, wire, p, reserved).auths)
  {
    var l' := Place(l, wire, p, reserved);
    assert p.predecessor != "" ==> WithinCap(l.auths[PredecessorKey(p)]);
    forall k | k in l'.auths
      ensures Linked(l'.auths, k)
    {
      assert k in l.auths ==> Linked(l.auths, k);
    }
  }

  lemma PlaceKeeps(l: Ledger, wire: Wire, p: Payload, reserved: int)
    requires Valid(l) && KeyOf(p) !in l.auths && KeyOf(p) !in l.canceled && KeyOf(p).owner in l.accounts
    requires HasUsablePredecessor(l, p)
    requires 0 <= reserved <= p.maxDebit - BaseOf(l, p).billed
    requires reserved <= l.accounts[KeyOf(p).owner].available + BaseOf(l, p).reserved
    ensures Valid(Place(l, wire, p, reserved))
  {
    PlaceBounds(l, wire, p, reserved);
    PlaceBalances(l, wire, p, reserved);
    PlaceKeys(l, wire, p, reserved);
  }

  lemma PlaceKeys(l: Ledger, wire: Wire, p: Payload, reserved: int)
    requires Keyed(l) && KeyOf(p) !in l.canceled && KeyOf(p).owner in l.accounts && HasUsablePredecessor(l, p)
    ensures Keyed(Place(l, wire, p, reserved))
  {
  }

  lemma HoldsAreNonNegative(auths: map<AuthKey, Auth>, a: AccountKey)
    requires Bounded(auths)
    ensures 0 <= TotalHeld(auths, a)
    ensures forall k :: k in auths && k.owner == a ==> auths[k].reserved <= TotalHeld(auths, a)
  {
    SumNonNegative(auths.Keys, HeldBy(auths, a));
    forall k | k in auths && k.owner == a
      ensures auths[k].reserved <= TotalHeld(auths, a)
    {
      assert HeldBy(auths, a)(k) == auths[k].reserved;
    }
  }

  lemma AdmitNewKeeps(l: Ledger, wire: Wire, p: Payload, payment: Bytes, reservation: Option<int>)
    requires Valid(l) && KeyOf(p).owner in l.accounts && KeyOf(p) !in l.auths && KeyOf(p) !in l.canceled
    ensures Valid(AdmitNew(l, wire, p, payment, reservation).ledger)
  {
    var a := KeyOf(p).owner;
    var credit := if payment == [] then 0 else CREDIT_PER_PAYMENT;
    var funded := l.(accounts := l.accounts[a := Credited(l.accounts[a], credit)]);
    CreditKeeps(l, a, credit, l.accounts[a].version);
    var step := AdmitNew(l, wire, p, payment, reservation);
    if step.outcome.Admission? {
      assert BaseOf(funded, p) == BaseOf(l, p);
      PlaceKeeps(funded, wire, p, step.outcome.reserved);
    }
  }

  lemma AdmitKeeps(l: Ledger, wire: Wire, payment: Bytes, reservation: Option<int>)
    requires Valid(l)
    ensures Valid(Admit(l, wire, payment, reservation).ledger)
  {
    if wire.SpendAuthorization? && wire.payload.Some? {
      var p := wire.payload.value;
      WithAccountKeeps(l, KeyOf(p).owner, p.payee);
      if KeyOf(p) !in l.auths && KeyOf(p) !in l.canceled {
        AdmitNewKeeps(WithAccount(l, KeyOf(p).owner, p.payee), wire, p, payment, reservation);
      }
    }
  }

  /** The account moved as its rewritten authorization did. */
  ghost predicate MovesWith(before: Account, after: Account, held: int) {
    && after.reserved == before.reserved + held
    && after.credited == after.available + after.reserved + after.debited
    && 0 <= after.available && before.debited <= after.debited
  }

  lemma RewriteBalances(l: Ledger, k: AuthKey, auth: Auth, account: Account)
    requires Balanced(l) && k in l.auths && k.owner in l.accounts && Bounded(l.auths[k := auth])
    requires MovesWith(l.accounts[k.owner], account, auth.reserved - l.auths[k].reserved)
    ensures Balanced(Ledger(l.accounts[k.owner := account], l.auths[k := auth], l.canceled))
  {
    var l' := Ledger(l.accounts[k.owner := account], l.auths[k := auth], l.canceled);
    forall b | b in l'.accounts
      ensures Conserved(l', b)
    {
      assert Conserved(l, b);
      HeldAfterUpdate(l.auths, k, auth, b);
      HoldsAreNonNegative(l'.auths, b);
    }
  }

  /** Rewriting an authorization in place, with the matching move of its account, keeps the ledger valid. */
  lemma RewriteKeeps(l: Ledger, k: AuthKey, auth: Auth, account: Account)
    requires Valid(l) && k in l.auths
    requires auth.payload == l.auths[k].payload && WithinCap(auth)
    requires auth.state == Admitted ==> l.auths[k].state == Admitted
    requires MovesWith(l.accounts[k.owner], account, auth.reserved - l.auths[k].reserved)
    ensures Valid(Ledger(l.accounts[k.owner := account], l.auths[k := auth], l.canceled))
  {
    RewriteBalances(l, k, auth, account);
    RewriteChains(l.auths, k, auth);
    RewriteKeys(l, k, auth, account);
  }

  lemma RewriteChains(auths: map<AuthKey, Auth>, k: AuthKey, auth: Auth)
    requires Chained(auths) && k in auths && auth.payload == auths[k].payload
    requires auth.state == Admitted ==> auths[k].state == Admitted
    ensures Chained(auths[k := auth])
  {
    var auths' := auths[k := auth];
    forall j | j in auths'
      ensures Linked(auths', j)
    {
      assert Linked(auths, j);
    }
  }

  lemma RewriteKeys(l: Ledger, k: AuthKey, auth: Auth, account: Account)
    requires Keyed(l) && k in l.auths && auth.payload == l.auths[k].payload
    ensures Keyed(Ledger(l.accounts[k.owner := account], l.auths[k := auth], l.canceled))
  {
  }

  lemma AdvanceKeeps(l: Ledger, k: AuthKey, units: nat, target: nat, seqno: nat)
    requires Valid(l)
    ensures Valid(Advance(l, k, units, target, seqno).ledger)
  {
    if k in l.auths {
      WithAccountKeeps(l, k.owner, l.auths[k].payload.payee);
      var step := Advance(l, k, units, target, seqno);
      if step.outcome.Advanced? {
        BillMonotone(l.auths[k].payload.price, l.auths[k].payload.per, 0, units);
        assert Conserved(l, k.owner);
        RewriteKeeps(l, k, step.ledger.auths[k], step.ledger.accounts[k.owner]);
      }
    }
  }

  lemma SettleKeeps(l: Ledger, k: AuthKey, units: nat, seqno: nat)
    requires Valid(l)
    ensures Valid(Settle(l, k, units, seqno).ledger)
  {
    if k in l.auths {
      WithAccountKeeps(l, k.owner, l.auths[k].payload.payee);
      var step := Settle(l, k, units, seqno);
      if step.outcome.Settlement? {
        BillMonotone(l.auths[k].payload.price, l.auths[k].payload.per, 0, units);
        assert Conserved(l, k.owner);
        RewriteKeeps(l, k, step.ledger.auths[k], step.ledger.accounts[k.owner]);
      }
    }
  }

  lemma CancelKeeps(l: Ledger, wire: Wire)
    requires Valid(l)
    ensures Valid(Cancel(l, wire).ledger)
  {
    if wire.SpendAuthorization? {
      var p := if wire.payload == None then ZERO_PAYLOAD else wire.payload.value;
      var l1 := WithAccount(l, KeyOf(p).owner, p.payee);
      WithAccountKeeps(l, KeyOf(p).owner, p.payee);
      var l' := Cancel(l, wire).ledger;
      forall a | a in l'.accounts && a in l1.accounts && l'.accounts == l1.accounts
        ensures Conserved(l', a)
      {
        assert Conserved(l1, a);
      }
    }
  }

  lemma StepKeeps(l: Ledger, op: Op)
    requires Valid(l)
    ensures Valid(Apply(l, op).ledger)
  {
    match op
    case ViewOp(a) => WithAccountKeeps(l, a, MOCK_PAYEE);
    case FundOp(payment, account) =>
      var a := AccountKey(MOCK_PAYER, account);
      WithAccountKeeps(l, a, MOCK_PAYEE);
      var l1 := WithAccount(l, a, MOCK_PAYEE);
      CreditKeeps(l1, a, CREDIT_PER_PAYMENT, l1.accounts[a].version + 1);
    case AdmitOp(wire, payment, reservation) => AdmitKeeps(l, wire, payment, reservation);
    case AdvanceOp(k, units, target, seqno) => AdvanceKeeps(l, k, units, target, seqno);
    case SettleOp(k, units, seqno) => SettleKeeps(l, k, units, seqno);
    case CancelOp(wire) => CancelKeeps(l, wire);
  }

  /** Conservation, exact holds and the caps hold after every run, failed calls included. */
  lemma {:induction false} EveryRunIsValid(ops: seq<Op>)
    ensures Valid(Run(ops))
  {
    if ops != [] {
      EveryRunIsValid(ops[..|ops| - 1]);
      StepKeeps(Run(ops[..|ops| - 1]), ops[|ops| - 1]);
    }
  }
}
