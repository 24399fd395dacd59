/** What each ledger call answers and leaves behind, stated on the ledger before it, and what follows over runs. */
module LedgerCalls {
  import opened Optional
  import opened Pricing
  import opened Ledger
  import opened LedgerInvariant
  import opened LedgerRuns
  import LedgerFates

  // ---- advancing ----

  function BillOf(auth: Auth, units: nat): int {
    BillFor(auth.payload.price, auth.payload.per, units)
  }

  /** An admitted authorization may move forward, within its cap and within what its account has and it holds. */
  ghost predicate MayAdvance(l: Ledger, k: AuthKey, units: nat, target: nat, seqno: nat)
    requires k in l.auths && k.owner in l.accounts
  {
    var auth, bill := l.auths[k], BillOf(l.auths[k], units);
    && auth.state == Admitted && auth.billed <= bill && auth.seqno <= seqno && bill + target <= auth.payload.maxDebit
    && bill - auth.billed + target <= l.accounts[k.owner].available + auth.reserved
  }

  /** No record but this one differs, and no account but its owner's. */
  ghost predicate OnlyTouches(l: Ledger, l': Ledger, k: AuthKey) {
    && l'.auths.Keys == l.auths.Keys && (forall j :: j in l.auths && j != k ==> l'.auths[j] == l.auths[j])
    && OnlyAccount(l, l', k.owner)
  }

  ghost predicate OnlyAccount(l: Ledger, l': Ledger, a: AccountKey) {
    && l'.accounts.Keys == l.accounts.Keys + {a}
    && forall b :: b in l.accounts && b != a ==> l'.accounts[b] == l.accounts[b]
  }

  /** The record after an advance: moved to these units, holding the target. */
  ghost predicate MovedTo(auth: Auth, after: Auth, units: nat, target: nat, seqno: nat) {
    && after.state == Admitted && after.payload == auth.payload && after.fingerprint == auth.fingerprint
    && after.reserved == target && after.units == units && after.seqno == seqno
    && after.billed == BillOf(auth, units) && after.released == auth.released
  }

  /** The record after a settlement: closed at these units, holding nothing. */
  ghost predicate ClosedAt(auth: Auth, after: Auth, units: nat, seqno: nat) {
    && after.state == Settled && after.payload == auth.payload && after.fingerprint == auth.fingerprint
    && after.reserved == 0 && after.units == units && after.seqno == seqno && after.billed == BillOf(auth, units)
  }

  /** The account after this much was charged and its hold went from one amount to another. */
  ghost predicate Pays(was: Account, now: Account, charge: int, from: int, to: int) {
    && now.debited == was.debited + charge && now.reserved - to == was.reserved - from
    && now.available + to + charge == was.available + from
    && now.credited == was.credited && now.payee == was.payee && now.version == was.version + 1
  }

  lemma KnownOwner(l: Ledger, k: AuthKey)
    requires Valid(l) && k in l.auths
    ensures k.owner in l.accounts && WithinCap(l.auths[k]) && KeyOf(l.auths[k].payload) == k
  {
  }

  /** An advance is accepted exactly when it may be. Then its target is what is held, the further bill is what is
      charged, and the rest of the old hold is free again. Otherwise nothing changes. */
  lemma AdvanceIsExact(l: Ledger, k: AuthKey, units: nat, target: nat, seqno: nat)
    requires k in l.auths && k.owner in l.accounts
    ensures var step := Advance(l, k, units, target, seqno);
            && (step.outcome.Advanced? <==> MayAdvance(l, k, units, target, seqno))
            && (!step.outcome.Advanced? ==> step.ledger == l && step.outcome.Rejected?)
            && (step.outcome.Advanced? ==>
                  && OnlyTouches(l, step.ledger, k) && step.ledger.canceled == l.canceled
                  && var auth, after := l.auths[k], step.ledger.auths[k];
                  var was, now := l.accounts[k.owner], step.ledger.accounts[k.owner];
                  var charge := after.billed - auth.billed;
                  && MovedTo(auth, after, units, target, seqno) && Pays(was, now, charge, auth.reserved, target)
                  && step.outcome == Advanced(Admitted, now, charge, after.billed, target))
  {
    hide BillFor;
  }

  /** Why an advance is refused: the first of these that applies. */
  lemma AdvanceRefusals(l: Ledger, k: AuthKey, units: nat, target: nat, seqno: nat)
    requires k in l.auths && k.owner in l.accounts
    ensures var outcome, auth := Advance(l, k, units, target, seqno).outcome, l.auths[k];
            var bill := BillOf(auth, units);
            var invalid := bill < auth.billed || auth.state != Admitted || seqno < auth.seqno;
            && (outcome == Rejected(InvalidAdvance) <==> invalid)
            && (outcome == Rejected(ReservationExceedsRemaining) <==> !invalid && auth.payload.maxDebit < bill + target)
            && (outcome.Rejected? ==>
                  outcome.error in {InvalidAdvance, ReservationExceedsRemaining, InsufficientCredit})
  {
    hide BillFor;
  }

  lemma UnknownIsNotFound(l: Ledger, k: AuthKey, units: nat, target: nat, seqno: nat)
    requires k !in l.auths
    ensures Advance(l, k, units, target, seqno) == Step(l, Rejected(NotFound))
    ensures Settle(l, k, units, seqno) == Step(l, Rejected(NotFound))
  {
  }

  // ---- settling ----

  /** A settlement is accepted exactly when the hold covers what is still owed. It takes what is owed from the hold,
      frees the rest, and closes the record at the units it names. Otherwise nothing changes. */
  lemma SettleIsExact(l: Ledger, k: AuthKey, units: nat, seqno: nat)
    requires k in l.auths && k.owner in l.accounts
    ensures var auth, bill, step := l.auths[k], BillOf(l.auths[k], units), Settle(l, k, units, seqno);
            var charge := if bill < auth.billed then 0 else bill - auth.billed;
            && (step.outcome.Settlement? <==> charge <= auth.reserved)
            && (!step.outcome.Settlement? ==> step == Step(l, Rejected(SettlementExceedsReservation)))
            && (step.outcome.Settlement? ==>
                  && OnlyTouches(l, step.ledger, k) && step.ledger.canceled == l.canceled
                  && var after, was, now := step.ledger.auths[k], l.accounts[k.owner], step.ledger.accounts[k.owner];
                  && ClosedAt(auth, after, units, seqno) && after.released == auth.reserved - charge
                  && Pays(was, now, charge, auth.reserved, 0)
                  && step.outcome == Settlement(Settled, now, bill, after.released))
  {
    hide BillFor;
  }

  // ---- admitting ----

  /** What is asked to be held: the amount named, or everything still unspent where none is. */
  ghost predicate AsksFor(reservation: Option<int>, remaining: int, hold: int) {
    if reservation.Some? && reservation.value != 0 then hold == reservation.value else hold == remaining
  }

  function HeldBefore(l: Ledger, p: Payload): int
    requires HasUsablePredecessor(l, p)
  {
    if p.predecessor == "" then 0 else l.auths[PredecessorKey(p)].reserved
  }

  function BilledBefore(l: Ledger, p: Payload): int
    requires HasUsablePredecessor(l, p)
  {
    if p.predecessor == "" then 0 else l.auths[PredecessorKey(p)].billed
  }

  /** What an account can spend; one never looked up has its float. */
  function Spendable(l: Ledger, a: AccountKey): int {
    if a in l.accounts then l.accounts[a].available else FLOAT
  }

  function InlineCredit(payment: Bytes): int {
    if payment == [] then 0 else CREDIT_PER_PAYMENT
  }

  /** The bytes name an authorization that is neither known nor canceled. */
  ghost predicate IsUnseen(l: Ledger, wire: Wire) {
    && wire.SpendAuthorization? && wire.payload.Some?
    && var p := wire.payload.value;
    |p.payer| == 20 && p.id != "" && KeyOf(p) !in l.canceled && KeyOf(p) !in l.auths
  }

  /** The hold is the one asked for, and fits in what the cap leaves after the predecessor's bill. */
  ghost predicate CapAllows(l: Ledger, p: Payload, reservation: Option<int>, hold: int) {
    && HasUsablePredecessor(l, p)
    && AsksFor(reservation, p.maxDebit - BilledBefore(l, p), hold)
    && 0 <= hold && BilledBefore(l, p) + hold <= p.maxDebit
  }

  /** It fits too in what the account can spend with the payment and the predecessor's hold. */
  ghost predicate MayHold(l: Ledger, p: Payload, payment: Bytes, reservation: Option<int>, hold: int) {
    && CapAllows(l, p, reservation, hold)
    && hold <= Spendable(l, KeyOf(p).owner) + InlineCredit(payment) + HeldBefore(l, p)
  }

  /** A revision continues its predecessor's bill, units and sequence; an original starts from nothing. */
  ghost predicate Continues(l: Ledger, p: Payload, auth: Auth)
    requires HasUsablePredecessor(l, p)
  {
    if p.predecessor == "" then auth.billed == 0 && auth.units == 0 && auth.seqno == 0
    else
      var previous := l.auths[PredecessorKey(p)];
      auth.billed == previous.billed && auth.units == previous.units && auth.seqno == previous.seqno
  }

  /** The records once p is admitted: its own is new, its predecessor's is superseded, and no other differs. */
  ghost predicate RecordsAdmission(l: Ledger, l': Ledger, wire: Wire, p: Payload, hold: int)
    requires HasUsablePredecessor(l, p)
  {
    && l'.auths.Keys == l.auths.Keys + {KeyOf(p)} && l'.canceled == l.canceled
    && (forall j :: j in l.auths && j != KeyOf(p) && !(p.predecessor != "" && j == PredecessorKey(p)) ==>
          l'.auths[j] == l.auths[j])
    && (p.predecessor != "" ==>
          && PredecessorKey(p) != KeyOf(p)
          && var previous, left := l.auths[PredecessorKey(p)], l'.auths[PredecessorKey(p)];
          && left.state == Superseded && left.reserved == 0
          && left == previous.(state := left.state, reserved := left.reserved))
    && var auth := l'.auths[KeyOf(p)];
    && auth.payload == p && auth.fingerprint == wire && auth.state == Admitted && auth.released == 0
    && auth.reserved == hold && Continues(l, p, auth)
  }

  /** The owner's account with the payment added and the predecessor's hold replaced by the new one. */
  ghost predicate HoldsInstead(l: Ledger, l': Ledger, p: Payload, payment: Bytes, hold: int)
    requires HasUsablePredecessor(l, p) && KeyOf(p).owner in l'.accounts
  {
    var a, now := KeyOf(p).owner, l'.accounts[KeyOf(p).owner];
    && now.available + hold == Spendable(l, a) + InlineCredit(payment) + HeldBefore(l, p)
    && (a in l.accounts ==>
          && var was := l.accounts[a];
          && now.reserved + HeldBefore(l, p) == was.reserved + hold && now.debited == was.debited
          && now.credited == was.credited + InlineCredit(payment)
          && now.payee == was.payee && now.version == was.version + 1)
    && (a !in l.accounts ==> now == Account(p.payee, FLOAT + InlineCredit(payment), hold, 0, now.available, 2))
  }

  lemma PlacedRecords(l: Ledger, wire: Wire, p: Payload, hold: int)
    requires KeyOf(p).owner in l.accounts && HasUsablePredecessor(l, p) && KeyOf(p) !in l.auths
    ensures RecordsAdmission(l, Place(l, wire, p, hold), wire, p, hold)
  {
  }

  lemma PlacedAccount(l: Ledger, wire: Wire, p: Payload, payment: Bytes, reservation: Option<int>, hold: int)
    requires KeyOf(p).owner in l.accounts && KeyOf(p) !in l.auths && MayHold(l, p, payment, reservation, hold)
    ensures var step := AdmitNew(l, wire, p, payment, reservation);
            && step.ledger.auths == Place(l, wire, p, hold).auths
            && step.ledger.canceled == Place(l, wire, p, hold).canceled && OnlyAccount(l, step.ledger, KeyOf(p).owner)
            && HoldsInstead(l, step.ledger, p, payment, hold)
            && step.outcome
               == Admission(Admitted, step.ledger.accounts[KeyOf(p).owner], hold, InlineCredit(payment), false)
  {
  }

  lemma SeenFromBefore(l: Ledger, p: Payload, l': Ledger, wire: Wire, payment: Bytes, hold: int)
    requires HasUsablePredecessor(l, p) && (p.predecessor != "" ==> KeyOf(p).owner in l.accounts)
    requires var l1 := WithAccount(l, KeyOf(p).owner, p.payee);
             && RecordsAdmission(l1, l', wire, p, hold) && OnlyAccount(l1, l', KeyOf(p).owner)
             && HoldsInstead(l1, l', p, payment, hold)
    ensures RecordsAdmission(l, l', wire, p, hold) && OnlyAccount(l, l', KeyOf(p).owner)
    ensures HoldsInstead(l, l', p, payment, hold)
  {
  }

  lemma FreshAdmission(l: Ledger, wire: Wire, payment: Bytes, reservation: Option<int>, hold: int)
    requires Valid(l) && IsUnseen(l, wire) && MayHold(l, wire.payload.value, payment, reservation, hold)
    ensures var p, step := wire.payload.value, Admit(l, wire, payment, reservation);
            && RecordsAdmission(l, step.ledger, wire, p, hold) && OnlyAccount(l, step.ledger, KeyOf(p).owner)
            && HoldsInstead(l, step.ledger, p, payment, hold)
            && step.outcome
               == Admission(Admitted, step.ledger.accounts[KeyOf(p).owner], hold, InlineCredit(payment), false)
  {
    var p := wire.payload.value;
    assert p.predecessor != "" ==> KeyOf(p).owner in l.accounts;
    hide Valid, Place, AdmitNew, RecordsAdmission, HoldsInstead;
    var l1 := WithAccount(l, KeyOf(p).owner, p.payee);
    assert MayHold(l1, p, payment, reservation, hold);
    PlacedRecords(l1, wire, p, hold);
    PlacedAccount(l1, wire, p, payment, reservation, hold);
    var step := AdmitNew(l1, wire, p, payment, reservation);
    SameRecords(l1, Place(l1, wire, p, hold), step.ledger, wire, p, hold);
    SeenFromBefore(l, p, step.ledger, wire, payment, hold);
  }

  lemma SameRecords(l: Ledger, placed: Ledger, l': Ledger, wire: Wire, p: Payload, hold: int)
    requires HasUsablePredecessor(l, p) && RecordsAdmission(l, placed, wire, p, hold)
    requires placed.auths == l'.auths && placed.canceled == l'.canceled
    ensures RecordsAdmission(l, l', wire, p, hold)
  {
  }

  lemma FreshRefusal(l: Ledger, wire: Wire, payment: Bytes, reservation: Option<int>)
    requires IsUnseen(l, wire)
    requires forall hold :: !MayHold(l, wire.payload.value, payment, reservation, hold)
    ensures var step := Admit(l, wire, payment, reservation);
            step.outcome.Rejected? && step.ledger.auths == l.auths
  {
    var p := wire.payload.value;
    if HasUsablePredecessor(l, p) {
      var remaining := p.maxDebit - BilledBefore(l, p);
      var hold := if reservation.Some? && reservation.value != 0 then reservation.value else remaining;
      assert AsksFor(reservation, remaining, hold) && !MayHold(l, p, payment, reservation, hold);
    }
  }

  /** Unseen bytes are admitted exactly when some hold is asked for that fits. */
  lemma AdmitIsExact(l: Ledger, wire: Wire, payment: Bytes, reservation: Option<int>)
    requires Valid(l)
    ensures var step := Admit(l, wire, payment, reservation);
            && (step.outcome.Admission? && !step.outcome.replayed <==>
                  IsUnseen(l, wire) && exists hold :: MayHold(l, wire.payload.value, payment, reservation, hold))
            && (IsUnseen(l, wire) ==>
                  forall hold :: MayHold(l, wire.payload.value, payment, reservation, hold) ==>
                                   && step.outcome.Admission? && step.outcome.reserved == hold
                                   && RecordsAdmission(l, step.ledger, wire, wire.payload.value, hold)
                                   && OnlyAccount(l, step.ledger, KeyOf(wire.payload.value).owner)
                                   && HoldsInstead(l, step.ledger, wire.payload.value, payment, hold))
            && (!(step.outcome.Admission? && !step.outcome.replayed) ==> step.ledger.auths == l.auths)
  {
    hide Valid, MayHold, RecordsAdmission, HoldsInstead, OnlyAccount;
    if IsUnseen(l, wire) {
      if exists hold :: MayHold(l, wire.payload.value, payment, reservation, hold) {
        forall hold | MayHold(l, wire.payload.value, payment, reservation, hold)
          ensures var step := Admit(l, wire, payment, reservation);
                  && step.outcome.Admission? && !step.outcome.replayed && step.outcome.reserved == hold
                  && RecordsAdmission(l, step.ledger, wire, wire.payload.value, hold)
                  && OnlyAccount(l, step.ledger, KeyOf(wire.payload.value).owner)
                  && HoldsInstead(l, step.ledger, wire.payload.value, payment, hold)
        {
          FreshAdmission(l, wire, payment, reservation, hold);
        }
      } else {
        FreshRefusal(l, wire, payment, reservation);
      }
    }
  }

  /** Why unseen bytes are refused: their predecessor, else their hold against the cap, else the credit. */
  lemma AdmitRefusals(l: Ledger, wire: Wire, payment: Bytes, reservation: Option<int>)
    requires IsUnseen(l, wire)
    ensures var outcome, p := Admit(l, wire, payment, reservation).outcome, wire.payload.value;
            && (outcome == Rejected(InvalidPredecessor) <==> !HasUsablePredecessor(l, p))
            && (outcome == Rejected(ReservationExceedsRemaining) <==>
                  HasUsablePredecessor(l, p) && forall hold :: !CapAllows(l, p, reservation, hold))
            && (outcome.Rejected? ==>
                  outcome.error in {InvalidPredecessor, ReservationExceedsRemaining, InsufficientCredit})
  {
    var p := wire.payload.value;
    if HasUsablePredecessor(l, p) {
      OneHoldAsked(l, p, reservation);
    }
  }

  /** Other bytes: malformed, without an identity, canceled, or known. */
  lemma SeenOrMalformed(l: Ledger, wire: Wire, payment: Bytes, reservation: Option<int>)
    requires Valid(l) && !IsUnseen(l, wire)
    ensures var step := Admit(l, wire, payment, reservation);
            && step.ledger == l
            && if wire.Undecodable? || wire.payload == None then step.outcome == Rejected(MalformedAuthorization)
               else
                 var p, k := wire.payload.value, KeyOf(wire.payload.value);
                 if |p.payer| != 20 || p.id == "" then step.outcome == Rejected(InvalidIdentity)
                 else if k in l.canceled then step.outcome == Rejected(AdmissionCanceled)
                 else
                   && k in l.auths && k.owner in l.accounts
                   && step.outcome == if l.auths[k].fingerprint != wire then Rejected(FingerprintMismatch)
                   else Admission(l.auths[k].state, l.accounts[k.owner], l.auths[k].reserved, 0, true)
  {
  }

  // ---- funding and cancelling ----

  /** A payment raises the credit of the account it names by the fixed amount, and an empty one is refused. */
  lemma FundIsExact(l: Ledger, payment: Bytes, account: string)
    ensures var a, step := AccountKey(MOCK_PAYER, account), Fund(l, payment, account);
            && (payment == [] ==> step == Step(l, Rejected(PaymentRequired)))
            && (payment != [] ==>
                  && OnlyAccount(l, step.ledger, a)
                  && var now := step.ledger.accounts[a];
                  && step.outcome == Funded(now, CREDIT_PER_PAYMENT)
                  && now.available == Spendable(l, a) + CREDIT_PER_PAYMENT
                  && (a in l.accounts ==>
                        && var was := l.accounts[a];
                        && now.credited == was.credited + CREDIT_PER_PAYMENT && now.reserved == was.reserved
                        && now.debited == was.debited && now.payee == was.payee && now.version == was.version + 1)
                  && (a !in l.accounts ==> now == Account(MOCK_PAYEE, now.available, 0, 0, now.available, 2)))
  {
  }

  /** The key a cancellation is about; bytes without a payload name the all-empty one. */
  function NamedBy(wire: Wire): AuthKey
    requires wire.SpendAuthorization?
  {
    if wire.payload == None then AuthKey(AccountKey([], ""), "") else KeyOf(wire.payload.value)
  }

  /** A cancellation fences the key exactly when it is not known, nor canceled under other bytes. It answers with the
      record exactly when the key is known under these bytes. Otherwise nothing changes. */
  lemma CancelIsExact(l: Ledger, wire: Wire)
    requires wire.SpendAuthorization?
    ensures var k, step := NamedBy(wire), Cancel(l, wire);
            && (step.outcome.Cancellation? && step.outcome.canceled <==>
                  k !in l.auths && (k in l.canceled ==> l.canceled[k] == wire))
            && (step.outcome.Cancellation? && !step.outcome.canceled <==>
                  k in l.auths && l.auths[k].fingerprint == wire)
            && (step.outcome.Cancellation? ==>
                  && OnlyAccount(l, step.ledger, k.owner) && step.outcome.account == step.ledger.accounts[k.owner]
                  && (k.owner in l.accounts ==> step.ledger.accounts == l.accounts)
                  && step.ledger.canceled == (if step.outcome.canceled then l.canceled[k := wire] else l.canceled)
                  && step.outcome.authorization == if step.outcome.canceled then None else Some(l.auths[k]))
            && (!step.outcome.Cancellation? ==> step == Step(l, Rejected(FingerprintMismatch)))
  {
  }

  /** Bytes canceled before they were seen are never admitted, whatever is called in between. */
  lemma CanceledBytesStayOut(ops: seq<Op>, wire: Wire, more: seq<Op>, payment: Bytes, reservation: Option<int>)
    requires wire.SpendAuthorization? && wire.payload.Some?
    requires var p := wire.payload.value;
             && |p.payer| == 20 && p.id != "" && KeyOf(p) !in Run(ops).auths
             && (KeyOf(p) in Run(ops).canceled ==> Run(ops).canceled[KeyOf(p)] == wire)
    ensures var l := Run(ops + [CancelOp(wire)] + more);
            && KeyOf(wire.payload.value) !in l.auths
            && Admit(l, wire, payment, reservation) == Step(l, Rejected(AdmissionCanceled))
  {
    CancelIsExact(Run(ops), wire);
    RunExtends(ops, CancelOp(wire));
    assert Apply(Run(ops), CancelOp(wire)) == Cancel(Run(ops), wire);
    LedgerFates.FatesExcludeEachOther(ops + [CancelOp(wire)], wire, more, payment, reservation);
  }

  // ---- credit over runs ----

  /** The call brings a payment that is kept: outright, or with unseen bytes whose hold the cap allows, whether or not
      the account can then cover it. */
  ghost predicate KeepsPayment(l: Ledger, op: Op, a: AccountKey) {
    || (op.FundOp? && op.payment != [] && a == AccountKey(MOCK_PAYER, op.account))
    || (&& op.AdmitOp? && op.inlinePayment != [] && IsUnseen(l, op.wire) && KeyOf(op.wire.payload.value).owner == a
        && exists hold :: CapAllows(l, op.wire.payload.value, op.reservation, hold))
  }

  ghost function PaymentsKept(ops: seq<Op>, a: AccountKey): nat {
    if ops == [] then 0
    else
      var before := ops[..|ops| - 1];
      PaymentsKept(before, a) + if KeepsPayment(Run(before), ops[|ops| - 1], a) then 1 else 0
  }

  function CreditOf(l: Ledger, a: AccountKey): int {
    if a in l.accounts then l.accounts[a].credited else FLOAT
  }

  /** The hold asked for is one amount, and the cap allows it or nothing. */
  lemma OneHoldAsked(l: Ledger, p: Payload, reservation: Option<int>)
    requires HasUsablePredecessor(l, p)
    ensures var remaining := p.maxDebit - BilledBefore(l, p);
            (exists hold :: CapAllows(l, p, reservation, hold)) <==> 0 <= Requested(reservation, remaining) <= remaining
  {
    var remaining := p.maxDebit - BilledBefore(l, p);
    assert CapAllows(l, p, reservation, Requested(reservation, remaining)) <==>
           0 <= Requested(reservation, remaining) <= remaining;
  }

  lemma NewAdmissionCredits(l: Ledger, wire: Wire, p: Payload, payment: Bytes, reservation: Option<int>, a: AccountKey)
    requires KeyOf(p).owner in l.accounts
    ensures CreditOf(AdmitNew(l, wire, p, payment, reservation).ledger, a)
            == CreditOf(l, a)
               + if KeyOf(p).owner == a && payment != [] && exists hold :: CapAllows(l, p, reservation, hold)
                 then CREDIT_PER_PAYMENT else 0
  {
    if HasUsablePredecessor(l, p) {
      OneHoldAsked(l, p, reservation);
      hide CapAllows;
    }
  }

  lemma AdmissionCredits(l: Ledger, wire: Wire, payment: Bytes, reservation: Option<int>, a: AccountKey)
    ensures CreditOf(Admit(l, wire, payment, reservation).ledger, a)
            == CreditOf(l, a)
               + if KeepsPayment(l, AdmitOp(wire, payment, reservation), a) then CREDIT_PER_PAYMENT else 0
  {
    if IsUnseen(l, wire) {
      var p := wire.payload.value;
      var l1 := WithAccount(l, KeyOf(p).owner, p.payee);
      NewAdmissionCredits(l1, wire, p, payment, reservation, a);
      assert forall hold :: CapAllows(l1, p, reservation, hold) <==> CapAllows(l, p, reservation, hold);
      hide AdmitNew, CapAllows;
    }
  }

  lemma StepCredits(l: Ledger, op: Op, a: AccountKey)
    ensures CreditOf(Apply(l, op).ledger, a)
            == CreditOf(l, a) + if KeepsPayment(l, op, a) then CREDIT_PER_PAYMENT else 0
  {
    hide Admit, BillFor;
    if op.AdmitOp? {
      AdmissionCredits(l, op.wire, op.inlinePayment, op.reservation, a);
    }
  }

  /** In every run an account's credit is its float and the payments kept for it, and nothing else. */
  lemma {:induction false} CreditIsFloatAndPayments(ops: seq<Op>, a: AccountKey)
    ensures CreditOf(Run(ops), a) == FLOAT + PaymentsKept(ops, a) * CREDIT_PER_PAYMENT
  {
    if ops != [] {
      CreditIsFloatAndPayments(ops[..|ops| - 1], a);
      StepCredits(Run(ops[..|ops| - 1]), ops[|ops| - 1], a);
    }
  }

  // ---- what a record says about the calls before it ----

  /** The call is accepted and decides what k's record says. */
  ghost predicate Decides(l: Ledger, op: Op, k: AuthKey) {
    match op
    case AdvanceOp(key, _, _, _) => key == k && Apply(l, op).outcome.Advanced?
    case SettleOp(key, _, _) => key == k && Apply(l, op).outcome.Settlement?
    case AdmitOp(wire, _, _) =>
      && Apply(l, op).outcome.Admission? && !Apply(l, op).outcome.replayed
      && wire.SpendAuthorization? && wire.payload.Some? && KeyOf(wire.payload.value) == k
    case _ => false
  }

  ghost function LastDecision(ops: seq<Op>, k: AuthKey): Option<Op> {
    if ops == [] then None
    else if Decides(Run(ops[..|ops| - 1]), ops[|ops| - 1], k) then Some(ops[|ops| - 1])
    else LastDecision(ops[..|ops| - 1], k)
  }

  /** The record is as the call left it, except that a later revision may have superseded it. */
  ghost predicate Tells(auth: Auth, op: Op) {
    match op
    case AdvanceOp(_, units, target, seqno) =>
      && auth.units == units && auth.seqno == seqno && auth.billed == BillOf(auth, units)
      && (if auth.state == Admitted then auth.reserved == target else auth.state == Superseded && auth.reserved == 0)
    case SettleOp(_, units, seqno) =>
      && auth.units == units && auth.seqno == seqno && auth.billed == BillOf(auth, units)
      && auth.state == Settled && auth.reserved == 0
    case AdmitOp(wire, _, reservation) =>
      && auth.fingerprint == wire && wire.SpendAuthorization? && wire.payload == Some(auth.payload)
      && (if auth.state == Admitted then AsksFor(reservation, auth.payload.maxDebit - auth.billed, auth.reserved)
          else auth.state == Superseded && auth.reserved == 0)
    case _ => false
  }

  lemma AdmissionTells(l: Ledger, wire: Wire, payment: Bytes, reservation: Option<int>, k: AuthKey)
    requires Valid(l) && k in Admit(l, wire, payment, reservation).ledger.auths
    ensures var op, after := AdmitOp(wire, payment, reservation), Admit(l, wire, payment, reservation).ledger.auths[k];
            if Decides(l, op, k) then Tells(after, op)
            else k in l.auths && (after == l.auths[k] || (l.auths[k].state == Admitted
                                                          && after == l.auths[k].(state := Superseded, reserved := 0)))
  {
    hide Admit, Valid, HoldsInstead, OnlyAccount, MayHold, RecordsAdmission;
    AdmitIsExact(l, wire, payment, reservation);
    var step := Admit(l, wire, payment, reservation);
    if step.outcome.Admission? && !step.outcome.replayed {
      var hold :| MayHold(l, wire.payload.value, payment, reservation, hold);
      RecordedTells(l, step.ledger, wire, payment, reservation, hold, k);
    }
  }

  lemma RecordedTells(l: Ledger, l': Ledger, wire: Wire, payment: Bytes, reservation: Option<int>, hold: int,
                      k: AuthKey)
    requires IsUnseen(l, wire) && MayHold(l, wire.payload.value, payment, reservation, hold)
    requires RecordsAdmission(l, l', wire, wire.payload.value, hold) && k in l'.auths
    ensures if KeyOf(wire.payload.value) == k then Tells(l'.auths[k], AdmitOp(wire, payment, reservation))
            else k in l.auths && (l'.auths[k] == l.auths[k]
                                  || (l.auths[k].state == Admitted
                                      && l'.auths[k] == l.auths[k].(state := Superseded, reserved := 0)))
  {
  }

  lemma StepTells(l: Ledger, op: Op, k: AuthKey)
    requires Valid(l) && k in Apply(l, op).ledger.auths
    ensures var after := Apply(l, op).ledger.auths[k];
            if Decides(l, op, k) then Tells(after, op)
            else k in l.auths && (after == l.auths[k] || (l.auths[k].state == Admitted
                                                          && after == l.auths[k].(state := Superseded, reserved := 0)))
  {
    hide Valid, Admit, Advance, Settle, BillFor;
    match op
    case AdmitOp(wire, payment, reservation) => AdmissionTells(l, wire, payment, reservation, k);
    case AdvanceOp(key, units, target, seqno) =>
      if key in l.auths {
        KnownOwner(l, key);
        AdvanceIsExact(l, key, units, target, seqno);
      } else {
        UnknownIsNotFound(l, key, units, target, seqno);
      }
    case SettleOp(key, units, seqno) =>
      if key in l.auths {
        KnownOwner(l, key);
        SettleIsExact(l, key, units, seqno);
      } else {
        UnknownIsNotFound(l, key, units, 0, seqno);
      }
    case _ =>
  }

  /** In every run each record says what the last call accepted about it said: the units and the sequence number it
      named, the bill there, and as the hold the amount it asked for, until a revision takes that over. */
  lemma {:induction false} RecordTellsItsLastCall(ops: seq<Op>, k: AuthKey)
    requires k in Run(ops).auths
    ensures LastDecision(ops, k).Some? && Tells(Run(ops).auths[k], LastDecision(ops, k).value)
  {
    var before, op := ops[..|ops| - 1], ops[|ops| - 1];
    EveryRunIsValid(before);
    StepTells(Run(before), op, k);
    if !Decides(Run(before), op, k) {
      RecordTellsItsLastCall(before, k);
    }
  }
}
