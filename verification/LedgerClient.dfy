/** The account client: the ledger's maps as fields, updated in place call by call. */
module LedgerClient {
  import opened Optional
  import opened Pricing
  import opened Ledger
  import LedgerInvariant

  class Mock {
    var wholesaleAccounts: map<AccountKey, Account>
    var accountAuthorizations: map<AuthKey, Auth>
    var canceledAdmissions: map<AuthKey, Wire>

    ghost function Value(): Ledger
      reads this
    {
      Ledger(wholesaleAccounts, accountAuthorizations, canceledAdmissions)
    }

    /** What every reachable ledger keeps. */
    ghost predicate Valid()
      reads this
    {
      LedgerInvariant.Valid(Value())
    }

    constructor ()
      ensures Value() == EMPTY && Valid()
    {
      wholesaleAccounts, accountAuthorizations, canceledAdmissions := map[], map[], map[];
    }

    method MockAccount(a: AccountKey, payee: Bytes)
      modifies this`wholesaleAccounts
      ensures Value() == WithAccount(old(Value()), a, payee)
    {
      if a !in wholesaleAccounts {
        wholesaleAccounts := wholesaleAccounts[a := Account(payee, FLOAT, 0, 0, FLOAT, 1)];
      }
    }

    method FundWholesaleAccount(payment: Bytes, account: string) returns (outcome: Outcome)
      modifies this`wholesaleAccounts
      ensures Step(Value(), outcome) == Fund(old(Value()), payment, account)
      ensures old(Valid()) ==> Valid()
    {
      hide LedgerInvariant.Valid;
      if Valid() { LedgerInvariant.StepKeeps(Value(), FundOp(payment, account)); }
      if payment == [] {
        return Rejected(PaymentRequired);
      }
      var a := AccountKey(MOCK_PAYER, account);
      MockAccount(a, MOCK_PAYEE);
      var funded := wholesaleAccounts[a];
      funded := funded.(credited := funded.credited + CREDIT_PER_PAYMENT);
      funded := funded.(available := funded.available + CREDIT_PER_PAYMENT);
      funded := funded.(version := funded.version + 1);
      wholesaleAccounts := wholesaleAccounts[a := funded];
      return Funded(funded, CREDIT_PER_PAYMENT);
    }

    method AdmitAuthorization(wire: Wire, payment: Bytes, reservation: Option<int>) returns (outcome: Outcome)
      modifies this`wholesaleAccounts, this`accountAuthorizations
      ensures Step(Value(), outcome) == Admit(old(Value()), wire, payment, reservation)
      ensures old(Valid()) ==> Valid()
    {
      hide LedgerInvariant.Valid;
      if Valid() { LedgerInvariant.StepKeeps(Value(), AdmitOp(wire, payment, reservation)); }
      if wire.Undecodable? || wire.payload == None {
        return Rejected(MalformedAuthorization);
      }
      var p := wire.payload.value;
      if |p.payer| != 20 || p.id == "" {
        return Rejected(InvalidIdentity);
      }
      var key := KeyOf(p);
      if key in canceledAdmissions {
        return Rejected(AdmissionCanceled);
      }
      if key in accountAuthorizations {
        var prior := accountAuthorizations[key];
        if prior.fingerprint != wire {
          return Rejected(FingerprintMismatch);
        }
        MockAccount(key.owner, p.payee);
        return Admission(prior.state, wholesaleAccounts[key.owner], prior.reserved, 0, true);
      }
      MockAccount(key.owner, p.payee);
      outcome := AdmitFresh(wire, p, payment, reservation);
    }

    method AdmitFresh(wire: Wire, p: Payload, payment: Bytes, reservation: Option<int>) returns (outcome: Outcome)
      requires KeyOf(p) !in accountAuthorizations && KeyOf(p).owner in wholesaleAccounts
      modifies this`wholesaleAccounts, this`accountAuthorizations
      ensures Step(Value(), outcome) == AdmitNew(old(Value()), wire, p, payment, reservation)
    {
      var a, previous := KeyOf(p).owner, PredecessorKey(p);
      var inherited, held := 0, 0;
      if p.predecessor != "" {
        if previous !in accountAuthorizations || accountAuthorizations[previous].state != Admitted {
          return Rejected(InvalidPredecessor);
        }
        inherited := accountAuthorizations[previous].billed;
        held := accountAuthorizations[previous].reserved;
      }
      var remaining := p.maxDebit - inherited;
      var reserved := if reservation == None then 0 else reservation.value;
      if reserved == 0 {
        reserved := remaining;
      }
      if reserved < 0 || remaining < reserved {
        return Rejected(ReservationExceedsRemaining);
      }
      var credited := 0;
      if payment != [] {
        credited := CREDIT_PER_PAYMENT;
      }
      var account := wholesaleAccounts[a];
      account := account.(credited := account.credited + credited, available := account.available + credited);
      wholesaleAccounts := wholesaleAccounts[a := account];
      if account.available + held < reserved {
        return Rejected(InsufficientCredit);
      }
      Hold(wire, p, reserved);
      return Admission(Admitted, wholesaleAccounts[a], reserved, credited, false);
    }

    /** The moves of a successful admission: the predecessor's hold back, the new hold out, the record in. */
    method Hold(wire: Wire, p: Payload, reserved: int)
      requires KeyOf(p).owner in wholesaleAccounts && HasUsablePredecessor(Value(), p)
      modifies this`wholesaleAccounts, this`accountAuthorizations
      ensures Value() == Place(old(Value()), wire, p, reserved)
    {
      var a, previous := KeyOf(p).owner, PredecessorKey(p);
      var account := wholesaleAccounts[a];
      var inherited, units, seqno := 0, 0, 0;
      if p.predecessor != "" {
        var predecessor := accountAuthorizations[previous];
        inherited, units, seqno := predecessor.billed, predecessor.units, predecessor.seqno;
        account := account.(reserved := account.reserved - predecessor.reserved);
        account := account.(available := account.available + predecessor.reserved);
        accountAuthorizations := accountAuthorizations[previous := predecessor.(reserved := 0, state := Superseded)];
      }
      account := account.(available := account.available - reserved);
      account := account.(reserved := account.reserved + reserved);
      account := account.(version := account.version + 1);
      wholesaleAccounts := wholesaleAccounts[a := account];
      accountAuthorizations :=
        accountAuthorizations[KeyOf(p) := Auth(p, reserved, inherited, 0, Admitted, units, seqno, wire)];
    }

    method AdvanceAuthorization(k: AuthKey, units: nat, target: nat, seqno: nat) returns (outcome: Outcome)
      modifies this`wholesaleAccounts, this`accountAuthorizations
      ensures Step(Value(), outcome) == Advance(old(Value()), k, units, target, seqno)
      ensures old(Valid()) ==> Valid()
    {
      hide LedgerInvariant.Valid;
      if Valid() { LedgerInvariant.StepKeeps(Value(), AdvanceOp(k, units, target, seqno)); }
      if k !in accountAuthorizations {
        return Rejected(NotFound);
      }
      var auth := accountAuthorizations[k];
      MockAccount(k.owner, auth.payload.payee);
      var billed := BillFor(auth.payload.price, auth.payload.per, units);
      var delta := billed - auth.billed;
      if delta < 0 || auth.state != Admitted || seqno < auth.seqno {
        return Rejected(InvalidAdvance);
      }
      if auth.payload.maxDebit - billed < target {
        return Rejected(ReservationExceedsRemaining);
      }
      var account := wholesaleAccounts[k.owner];
      var available := account.available + auth.reserved;
      var cost := delta + target;
      if available < cost {
        return Rejected(InsufficientCredit);
      }
      account := account.(available := available - cost);
      account := account.(reserved := account.reserved - auth.reserved + target);
      account := account.(debited := account.debited + delta);
      account := account.(version := account.version + 1);
      wholesaleAccounts := wholesaleAccounts[k.owner := account];
      auth := auth.(reserved := target);
      auth := auth.(billed := billed);
      auth := auth.(units := units, seqno := seqno);
      accountAuthorizations := accountAuthorizations[k := auth];
      return Advanced(auth.state, account, delta, billed, auth.reserved);
    }

    method SettleAuthorization(k: AuthKey, units: nat, seqno: nat) returns (outcome: Outcome)
      modifies this`wholesaleAccounts, this`accountAuthorizations
      ensures Step(Value(), outcome) == Settle(old(Value()), k, units, seqno)
      ensures old(Valid()) ==> Valid()
    {
      hide LedgerInvariant.Valid;
      if Valid() { LedgerInvariant.StepKeeps(Value(), SettleOp(k, units, seqno)); }
      if k !in accountAuthorizations {
        return Rejected(NotFound);
      }
      var auth := accountAuthorizations[k];
      MockAccount(k.owner, auth.payload.payee);
      var total := BillFor(auth.payload.price, auth.payload.per, units);
      var owed := total - auth.billed;
      if owed < 0 {
        owed := 0;
      }
      var release := auth.reserved - owed;
      if release < 0 {
        return Rejected(SettlementExceedsReservation);
      }
      var account := wholesaleAccounts[k.owner];
      account := account.(reserved := account.reserved - auth.reserved);
      account := account.(debited := account.debited + owed);
      account := account.(available := account.available + release);
      account := account.(version := account.version + 1);
      wholesaleAccounts := wholesaleAccounts[k.owner := account];
      auth := auth.(billed := total);
      auth := auth.(released := release);
      auth := auth.(reserved := 0);
      auth := auth.(state := Settled);
      auth := auth.(units := units, seqno := seqno);
      accountAuthorizations := accountAuthorizations[k := auth];
      return Settlement(auth.state, account, total, release);
    }

    method CancelAuthorizationAdmission(wire: Wire) returns (outcome: Outcome)
      modifies this`wholesaleAccounts, this`canceledAdmissions
      ensures Step(Value(), outcome) == Cancel(old(Value()), wire)
      ensures old(Valid()) ==> Valid()
    {
      hide LedgerInvariant.Valid;
      if Valid() { LedgerInvariant.StepKeeps(Value(), CancelOp(wire)); }
      if wire.Undecodable? {
        return Rejected(MalformedAuthorization);
      }
      var p := if wire.payload == None then ZERO_PAYLOAD else wire.payload.value;
      var key := KeyOf(p);
      if key in accountAuthorizations {
        if accountAuthorizations[key].fingerprint != wire {
          return Rejected(FingerprintMismatch);
        }
        MockAccount(key.owner, p.payee);
        return Cancellation(false, wholesaleAccounts[key.owner], Some(accountAuthorizations[key]));
      }
      if key in canceledAdmissions && canceledAdmissions[key] != wire {
        return Rejected(FingerprintMismatch);
      }
      canceledAdmissions := canceledAdmissions[key := wire];
      MockAccount(key.owner, p.payee);
      return Cancellation(true, wholesaleAccounts[key.owner], None);
    }
  }
}
