/** The wholesale-account ledger as a value and a step function: fund, admit, advance, settle, cancel. */
module Ledger {
  import opened Optional
  import opened Pricing

  newtype byte = x: int | 0 <= x < 256
  type Bytes = seq<byte>

  /** What a payer signs. Amounts travel as unsigned integers. */
  datatype Payload = Payload(payer: Bytes, payee: Bytes, account: string, id: string,
                             predecessor: string, maxDebit: nat, price: nat, per: nat)

  /** Authorization bytes as received. Decoding is a function of the bytes and their fingerprint is
      collision free, so the bytes are represented by what they decode to plus the signature. */
  datatype Wire =
    | Undecodable(raw: Bytes)
    | SpendAuthorization(payload: Option<Payload>, signature: Bytes)

  datatype AccountKey = AccountKey(payer: Bytes, account: string)
  datatype AuthKey = AuthKey(owner: AccountKey, id: string)

  datatype Account = Account(payee: Bytes, credited: int, reserved: int, debited: int, available: int, version: nat)

  datatype AuthState = Admitted | Superseded | Settled

  datatype Auth = Auth(payload: Payload, reserved: int, billed: int, released: int, state: AuthState,
                       units: nat, seqno: nat, fingerprint: Wire)

  datatype Ledger = Ledger(accounts: map<AccountKey, Account>, auths: map<AuthKey, Auth>, canceled: map<AuthKey, Wire>)

  datatype Error =
    | PaymentRequired | MalformedAuthorization | InvalidIdentity | AdmissionCanceled | FingerprintMismatch
    | InvalidPredecessor | ReservationExceedsRemaining | InsufficientCredit | NotFound | InvalidAdvance
    | SettlementExceedsReservation

  datatype Outcome =
    | Rejected(error: Error)
    | Viewed(account: Account)
    | Funded(account: Account, credited: int)
    | Admission(state: AuthState, account: Account, reserved: int, credited: int, replayed: bool)
    | Advanced(state: AuthState, account: Account, billedDelta: int, cumulativeBilled: int, reserved: int)
    | Settlement(state: AuthState, account: Account, billed: int, released: int)
    | Cancellation(canceled: bool, account: Account, authorization: Option<Auth>)

  datatype Step = Step(ledger: Ledger, outcome: Outcome)

  const FLOAT: int := 1_000_000_000_000_000_000
  const CREDIT_PER_PAYMENT: int := 1_000_000_000_000_000
  const EMPTY: Ledger := Ledger(map[], map[], map[])
  const ZERO_PAYLOAD: Payload := Payload([], [], "", "", "", 0, 0, 0)
  const MOCK_PAYER: Bytes := [1, 1, 1, 1, 1, 1, 1, 1, 1, 1, 1, 1, 1, 1, 1, 1, 1, 1, 1, 1]
  const MOCK_PAYEE: Bytes := [2, 2, 2, 2, 2, 2, 2, 2, 2, 2, 2, 2, 2, 2, 2, 2, 2, 2, 2, 2]

  function KeyOf(p: Payload): AuthKey {
    AuthKey(AccountKey(p.payer, p.account), p.id)
  }

  function PredecessorKey(p: Payload): AuthKey {
    AuthKey(AccountKey(p.payer, p.account), p.predecessor)
  }

  /** An account comes into being, with its fixture float, the first time it is looked up. */
  function WithAccount(l: Ledger, a: AccountKey, payee: Bytes): (l': Ledger)
    ensures a in l'.accounts
  {
    if a in l.accounts then l
    else l.(accounts := l.accounts[a := Account(payee, FLOAT, 0, 0, FLOAT, 1)])
  }

  function View(l: Ledger, a: AccountKey): (step: Step)
    ensures step.ledger.auths == l.auths && step.ledger.canceled == l.canceled
  {
    var l1 := WithAccount(l, a, MOCK_PAYEE);
    Step(l1, Viewed(l1.accounts[a]))
  }

  function Credited(account: Account, amount: int): Account {
    account.(credited := account.credited + amount, available := account.available + amount)
  }

  function Fund(l: Ledger, payment: Bytes, account: string): (step: Step)
    ensures step.ledger.auths == l.auths && step.ledger.canceled == l.canceled
  {
    if payment == [] then Step(l, Rejected(PaymentRequired))
    else
      var a := AccountKey(MOCK_PAYER, account);
      var l1 := WithAccount(l, a, MOCK_PAYEE);
      var before := l1.accounts[a];
      var after := Credited(before, CREDIT_PER_PAYMENT).(version := before.version + 1);
      Step(l1.(accounts := l1.accounts[a := after]), Funded(after, CREDIT_PER_PAYMENT))
  }

  /** What a revision takes over from the authorization it supersedes. */
  datatype Base = Base(billed: int, units: nat, seqno: nat, reserved: int)

  predicate HasUsablePredecessor(l: Ledger, p: Payload) {
    p.predecessor == "" || (PredecessorKey(p) in l.auths && l.auths[PredecessorKey(p)].state == Admitted)
  }

  function BaseOf(l: Ledger, p: Payload): Base
    requires HasUsablePredecessor(l, p)
  {
    if p.predecessor == "" then Base(0, 0, 0, 0)
    else
      var previous := l.auths[PredecessorKey(p)];
      Base(previous.billed, previous.units, previous.seqno, previous.reserved)
  }

  /** A zero or absent reservation asks for everything still unspent. */
  function Requested(reservation: Option<int>, remaining: int): int {
    if reservation == None || reservation.value == 0 then remaining else reservation.value
  }

  function Supersede(l: Ledger, p: Payload): map<AuthKey, Auth>
    requires HasUsablePredecessor(l, p)
  {
    if p.predecessor == "" then l.auths
    else l.auths[PredecessorKey(p) := l.auths[PredecessorKey(p)].(reserved := 0, state := Superseded)]
  }

  /** Move the predecessor's hold back, take the new one, and record the authorization. */
  function Place(l: Ledger, wire: Wire, p: Payload, reserved: int): Ledger
    requires KeyOf(p).owner in l.accounts && HasUsablePredecessor(l, p)
  {
    var base := BaseOf(l, p);
    var account := l.accounts[KeyOf(p).owner];
    var held := account.(available := account.available + base.reserved - reserved,
                         reserved := account.reserved - base.reserved + reserved,
                         version := account.version + 1);
    Ledger(l.accounts[KeyOf(p).owner := held],
           Supersede(l, p)[KeyOf(p) := Auth(p, reserved, base.billed, 0, Admitted, base.units, base.seqno, wire)],
           l.canceled)
  }

  function AdmitNew(l: Ledger, wire: Wire, p: Payload, payment: Bytes, reservation: Option<int>): (step: Step)
    requires KeyOf(p).owner in l.accounts
    ensures step.ledger.canceled == l.canceled
  {
    if !HasUsablePredecessor(l, p) then Step(l, Rejected(InvalidPredecessor))
    else
      var base := BaseOf(l, p);
      var remaining := p.maxDebit - base.billed;
      var reserved := Requested(reservation, remaining);
      if reserved < 0 || remaining < reserved then Step(l, Rejected(ReservationExceedsRemaining))
      else
        var a := KeyOf(p).owner;
        var credit := if payment == [] then 0 else CREDIT_PER_PAYMENT;
        var funded := l.(accounts := l.accounts[a := Credited(l.accounts[a], credit)]);
        if funded.accounts[a].available + base.reserved < reserved then Step(funded, Rejected(InsufficientCredit))
        else
          var l' := Place(funded, wire, p, reserved);
          Step(l', Admission(Admitted, l'.accounts[a], reserved, credit, false))
  }

  function Admit(l: Ledger, wire: Wire, payment: Bytes, reservation: Option<int>): (step: Step)
    ensures step.ledger.canceled == l.canceled
  {
    if wire.Undecodable? || wire.payload == None then Step(l, Rejected(MalformedAuthorization))
    else
      var p := wire.payload.value;
      var k := KeyOf(p);
      if |p.payer| != 20 || p.id == "" then Step(l, Rejected(InvalidIdentity))
      else if k in l.canceled then Step(l, Rejected(AdmissionCanceled))
      else if k in l.auths && l.auths[k].fingerprint != wire then Step(l, Rejected(FingerprintMismatch))
      else
        var l1 := WithAccount(l, k.owner, p.payee);
        if k in l.auths
        then Step(l1, Admission(l.auths[k].state, l1.accounts[k.owner], l.auths[k].reserved, 0, true))
        else AdmitNew(l1, wire, p, payment, reservation)
  }

  function Advance(l: Ledger, k: AuthKey, units: nat, target: nat, seqno: nat): (step: Step)
    ensures step.ledger.canceled == l.canceled
  {
    if k !in l.auths then Step(l, Rejected(NotFound))
    else
      var auth := l.auths[k];
      var l1 := WithAccount(l, k.owner, auth.payload.payee);
      var account := l1.accounts[k.owner];
      var billed := BillFor(auth.payload.price, auth.payload.per, units);
      var delta := billed - auth.billed;
      if delta < 0 || auth.state != Admitted || seqno < auth.seqno then Step(l1, Rejected(InvalidAdvance))
      else if auth.payload.maxDebit - billed < target then Step(l1, Rejected(ReservationExceedsRemaining))
      else if account.available + auth.reserved < delta + target then Step(l1, Rejected(InsufficientCredit))
      else
        var after := account.(available := account.available + auth.reserved - (delta + target),
                              reserved := account.reserved - auth.reserved + target,
                              debited := account.debited + delta,
                              version := account.version + 1);
        var auth' := auth.(reserved := target, billed := billed, units := units, seqno := seqno);
        Step(Ledger(l1.accounts[k.owner := after], l1.auths[k := auth'], l1.canceled),
             Advanced(auth.state, after, delta, billed, target))
  }

  /** What a settlement at these units still charges; a bill below what was billed charges nothing. */
  function Owed(auth: Auth, units: nat): int {
    var owed := BillFor(auth.payload.price, auth.payload.per, units) - auth.billed;
    if owed < 0 then 0 else owed
  }

  function Settle(l: Ledger, k: AuthKey, units: nat, seqno: nat): (step: Step)
    ensures step.ledger.canceled == l.canceled
  {
    if k !in l.auths then Step(l, Rejected(NotFound))
    else
      var auth := l.auths[k];
      var l1 := WithAccount(l, k.owner, auth.payload.payee);
      var account := l1.accounts[k.owner];
      var total := BillFor(auth.payload.price, auth.payload.per, units);
      var owed := Owed(auth, units);
      var release := auth.reserved - owed;
      if release < 0 then Step(l1, Rejected(SettlementExceedsReservation))
      else
        var after := account.(reserved := account.reserved - auth.reserved,
                              debited := account.debited + owed,
                              available := account.available + release,
                              version := account.version + 1);
        var auth' := auth.(billed := total, released := release, reserved := 0, state := Settled,
                           units := units, seqno := seqno);
        Step(Ledger(l1.accounts[k.owner := after], l1.auths[k := auth'], l1.canceled),
             Settlement(Settled, after, total, release))
  }

  /** Cancelling decodes leniently: bytes without a payload name the all-empty key. */
  function Cancel(l: Ledger, wire: Wire): (step: Step)
    ensures step.ledger.auths == l.auths
    ensures forall k :: k in l.canceled ==> k in step.ledger.canceled && step.ledger.canceled[k] == l.canceled[k]
  {
    if wire.Undecodable? then Step(l, Rejected(MalformedAuthorization))
    else
      var p := if wire.payload == None then ZERO_PAYLOAD else wire.payload.value;
      var k := KeyOf(p);
      if k in l.auths && l.auths[k].fingerprint != wire then Step(l, Rejected(FingerprintMismatch))
      else if k !in l.auths && k in l.canceled && l.canceled[k] != wire then Step(l, Rejected(FingerprintMismatch))
      else
        var l1 := WithAccount(l, k.owner, p.payee);
        if k in l.auths
        then Step(l1, Cancellation(false, l1.accounts[k.owner], Some(l.auths[k])))
        else Step(l1.(canceled := l1.canceled[k := wire]), Cancellation(true, l1.accounts[k.owner], None))
  }

  datatype Op =
    | ViewOp(viewed: AccountKey)
    | FundOp(payment: Bytes, account: string)
    | AdmitOp(wire: Wire, inlinePayment: Bytes, reservation: Option<int>)
    | AdvanceOp(key: AuthKey, units: nat, target: nat, seqno: nat)
    | SettleOp(key: AuthKey, units: nat, seqno: nat)
    | CancelOp(wire: Wire)

  function Apply(l: Ledger, op: Op): Step {
    match op
    case ViewOp(a) => View(l, a)
    case FundOp(payment, account) => Fund(l, payment, account)
    case AdmitOp(wire, payment, reservation) => Admit(l, wire, payment, reservation)
    case AdvanceOp(k, units, target, seqno) => Advance(l, k, units, target, seqno)
    case SettleOp(k, units, seqno) => Settle(l, k, units, seqno)
    case CancelOp(wire) => Cancel(l, wire)
  }

  /** The ledger after a run of calls, successful or not, from a new client. */
  function Run(ops: seq<Op>): Ledger {
    if ops == [] then EMPTY else Apply(Run(ops[..|ops| - 1]), ops[|ops| - 1]).ledger
  }
}
