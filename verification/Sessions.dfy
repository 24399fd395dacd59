/** The per-session ledger: priced once, debited by sequence number, billed on one cumulative curve. */
module Sessions {
  import opened Optional
  import opened Pricing
  import opened Sums
  import opened Ledger

  const UINT64: int := 0x1_0000_0000_0000_0000

  newtype int64 = x: int | -0x8000_0000_0000_0000 <= x < 0x8000_0000_0000_0000

  /** A payment as decoded: the sender it names (or the one derived from its bytes) and the signed price. */
  datatype PaymentBytes = PaymentBytes(raw: Bytes, sender: Bytes, signedPrice: Option<int>)
  type Payment = p: PaymentBytes | p.sender != [] witness PaymentBytes([], [0], None)

  datatype DebitRecord = DebitRecord(seqno: nat, units: int64, wei: int)

  datatype Session = Session(sender: Bytes, price: Option<int>, per: nat, balance: int, debitedUnits: nat,
                             closed: bool, debitLog: seq<DebitRecord>)

  datatype DebitKey = DebitKey(sender: Bytes, workId: string, seqno: nat)

  datatype Book = Book(sessions: map<string, Session>, debits: map<DebitKey, int64>)

  datatype SessionError =
    | WorkIdEmpty | PaymentEmpty | NoSession | PricingConflict | PricingUnset | SessionClosed | SenderMismatch
    | SenderRequired | SignedPriceMismatch

  datatype Reply =
    | Refused(error: SessionError)
    | Opened(alreadyOpen: bool)
    | Paid(credited: int, balance: int, rejected: bool)
    | Debited(balance: int, wei: int, cumulativeUnits: nat, replayed: bool)
    | Runway(sufficient: bool, balance: int)
    | Done

  datatype Turn = Turn(book: Book, reply: Reply)

  const NO_SESSIONS: Book := Book(map[], map[])

  /** Go's conversion of a signed count to uint64. */
  function ToUint64(n: int): (u: nat)
    ensures u < UINT64
    ensures 0 <= n < UINT64 ==> u == n
  {
    n % UINT64
  }

  /** The bill of a session; an unset price bills as zero. */
  function Bill(price: Option<int>, per: nat, units: nat): int {
    if price == None then 0 else BillFor(price.value, per, units)
  }

  /** Issuing ticket parameters brings the session into being, unpriced. */
  function Issue(b: Book, w: string): Turn {
    if w in b.sessions then Turn(b, Done)
    else Turn(b.(sessions := b.sessions[w := Session([], None, 0, 0, 0, false, [])]), Done)
  }

  function Open(b: Book, w: string, price: Option<int>, per: nat): Turn {
    var quoted := if price == None then 0 else price.value;
    if w == "" then Turn(b, Refused(WorkIdEmpty))
    else if w !in b.sessions then
      Turn(b.(sessions := b.sessions[w := Session([], Some(quoted), per, 0, 0, false, [])]), Opened(false))
    else
      var s := b.sessions[w];
      if s.price == None then
        Turn(b.(sessions := b.sessions[w := s.(price := Some(quoted), per := per)]), Opened(true))
      else if price != None && (s.price != price || s.per != per) then Turn(b, Refused(PricingConflict))
      else Turn(b, Opened(true))
  }

  /** A payment seals the sender before its signed price is checked, so a refused price still seals. */
  function Pay(b: Book, w: string, payment: Payment): Turn {
    if w == "" then Turn(b, Refused(WorkIdEmpty))
    else if payment.raw == [] then Turn(b, Refused(PaymentEmpty))
    else if w !in b.sessions then Turn(b, Refused(NoSession))
    else
      var s := b.sessions[w];
      if s.closed then Turn(b, Paid(0, s.balance, true))
      else
        var sealed := if s.sender == [] then s.(sender := payment.sender) else s;
        if s.price != None && payment.signedPrice != None && payment.signedPrice != s.price
        then Turn(b.(sessions := b.sessions[w := sealed]), Refused(SignedPriceMismatch))
        else
          var paid := sealed.(balance := sealed.balance + CREDIT_PER_PAYMENT);
          Turn(b.(sessions := b.sessions[w := paid]), Paid(CREDIT_PER_PAYMENT, paid.balance, false))
  }

  function Debit(b: Book, sender: Bytes, w: string, units: int64, seqno: nat): Turn {
    if sender == [] || w == "" then Turn(b, Refused(SenderRequired))
    else if w !in b.sessions then Turn(b, Refused(NoSession))
    else
      var s := b.sessions[w];
      var key := DebitKey(sender, w, seqno);
      if s.closed then Turn(b, Refused(SessionClosed))
      else if s.price == None then Turn(b, Refused(PricingUnset))
      else if s.sender != sender then Turn(b, Refused(SenderMismatch))
      else if key in b.debits then Turn(b, Debited(s.balance, 0, s.debitedUnits, true))
      else
        var after := ToUint64(s.debitedUnits + ToUint64(units as int));
        var wei := Bill(s.price, s.per, after) - Bill(s.price, s.per, s.debitedUnits);
        var s' := s.(debitedUnits := after, balance := s.balance - wei,
                     debitLog := s.debitLog + [DebitRecord(seqno, units, wei)]);
        Turn(Book(b.sessions[w := s'], b.debits[key := units]), Debited(s'.balance, wei, after, false))
  }

  /** The runway check: does the balance cover the difference of two cumulative bills? */
  function Sufficient(b: Book, sender: Bytes, w: string, minUnits: int64): Reply {
    if sender == [] || w == "" then Refused(SenderRequired)
    else if w !in b.sessions then Refused(NoSession)
    else
      var s := b.sessions[w];
      if s.sender != sender then Refused(SenderMismatch)
      else if s.closed then Runway(false, s.balance)
      else
        var min := if minUnits < 0 then 0 else minUnits as int;
        var required := Bill(s.price, s.per, ToUint64(s.debitedUnits + min)) - Bill(s.price, s.per, s.debitedUnits);
        Runway(required <= s.balance, s.balance)
  }

  function Close(b: Book, sender: Bytes, w: string): Turn {
    if w == "" then Turn(b, Refused(WorkIdEmpty))
    else if w !in b.sessions then Turn(b, Refused(NoSession))
    else if b.sessions[w].sender != [] && b.sessions[w].sender != sender then Turn(b, Refused(SenderMismatch))
    else Turn(b.(sessions := b.sessions[w := b.sessions[w].(closed := true)]), Done)
  }

  datatype Call =
    | IssueCall(w: string)
    | OpenCall(w: string, price: Option<int>, per: nat)
    | PayCall(w: string, payment: Payment)
    | DebitCall(sender: Bytes, w: string, units: int64, seqno: nat)
    | CloseCall(sender: Bytes, w: string)

  function Serve(b: Book, call: Call): Turn {
    match call
    case IssueCall(w) => Issue(b, w)
    case OpenCall(w, price, per) => Open(b, w, price, per)
    case PayCall(w, payment) => Pay(b, w, payment)
    case DebitCall(sender, w, units, seqno) => Debit(b, sender, w, units, seqno)
    case CloseCall(sender, w) => Close(b, sender, w)
  }

  function After(b: Book, calls: seq<Call>): Book {
    if calls == [] then b else Serve(After(b, calls[..|calls| - 1]), calls[|calls| - 1]).book
  }

  // ---- what every book keeps ----

  ghost function UnitsOf(debits: map<DebitKey, int64>, w: string): DebitKey -> int {
    (k: DebitKey) => if k in debits && k.workId == w then debits[k] as int else 0
  }

  /** The units of the distinct debits recorded for a session. */
  ghost function DistinctUnits(b: Book, w: string): int {
    Sum(b.debits.Keys, UnitsOf(b.debits, w))
  }

  function TotalWei(log: seq<DebitRecord>): int {
    if log == [] then 0 else TotalWei(log[..|log| - 1]) + log[|log| - 1].wei
  }

  /** A session stands on the curve at its distinct units, and has charged exactly the bill there. */
  ghost predicate OnCurve(b: Book, w: string)
    requires w in b.sessions
  {
    var s := b.sessions[w];
    && s.debitedUnits == ToUint64(DistinctUnits(b, w))
    && TotalWei(s.debitLog) == Bill(s.price, s.per, s.debitedUnits)
    && (s.price == None ==> s.debitedUnits == 0 && s.debitLog == [])
  }

  /** Debits belong to a known, priced session and carry its sealed sender. */
  ghost predicate DebitsOwned(b: Book) {
    forall k :: k in b.debits ==>
      && k.workId in b.sessions && b.sessions[k.workId].price != None
      && k.sender != [] && b.sessions[k.workId].sender == k.sender
  }

  ghost predicate Sound(b: Book) {
    DebitsOwned(b) && forall w :: w in b.sessions ==> OnCurve(b, w)
  }

  lemma UnitsAfterDebit(b: Book, key: DebitKey, units: int64, w: string)
    requires key !in b.debits
    ensures Sum(b.debits[key := units].Keys, UnitsOf(b.debits[key := units], w))
            == DistinctUnits(b, w) + if key.workId == w then units as int else 0
  {
    var debits' := b.debits[key := units];
    SumTake(debits'.Keys, UnitsOf(debits', w), key);
    assert debits'.Keys - {key} == b.debits.Keys;
    SumSame(b.debits.Keys, UnitsOf(debits', w), UnitsOf(b.debits, w));
  }

  lemma Uint64Adds(n: int, m: int)
    ensures ToUint64(ToUint64(n) + ToUint64(m)) == ToUint64(n + m)
  {
    var q, r := n / UINT64, m / UINT64;
    assert n + m == (n % UINT64 + m % UINT64) + (q + r) * UINT64;
    MultiplesVanish(n % UINT64 + m % UINT64, q + r);
  }

  lemma Uint64AddsLeft(n: int, m: int)
    ensures ToUint64(ToUint64(n) + m) == ToUint64(n + m)
  {
    assert n + m == (n % UINT64 + m) + n / UINT64 * UINT64;
    MultiplesVanish(n % UINT64 + m, n / UINT64);
  }

  lemma {:induction false} MultiplesVanish(x: int, q: int)
    ensures (x + q * UINT64) % UINT64 == x % UINT64
    decreases if q < 0 then -q else q
  {
    if q > 0 {
      MultiplesVanish(x, q - 1);
    } else if q < 0 {
      MultiplesVanish(x, q + 1);
    }
  }

  lemma DebitedSessionIsOnCurve(b: Book, sender: Bytes, w: string, units: int64, seqno: nat)
    requires w in b.sessions && OnCurve(b, w)
    requires var reply := Debit(b, sender, w, units, seqno).reply; reply.Debited? && !reply.replayed
    ensures OnCurve(Debit(b, sender, w, units, seqno).book, w)
  {
    var s, s' := b.sessions[w], Debit(b, sender, w, units, seqno).book.sessions[w];
    UnitsAfterDebit(b, DebitKey(sender, w, seqno), units, w);
    Uint64Adds(DistinctUnits(b, w), units as int);
    assert s'.debitLog[..|s.debitLog|] == s.debitLog;
  }

  lemma OtherSessionStaysOnCurve(b: Book, sender: Bytes, w: string, units: int64, seqno: nat, v: string)
    requires v in b.sessions && OnCurve(b, v) && v != w
    requires var reply := Debit(b, sender, w, units, seqno).reply; reply.Debited? && !reply.replayed
    ensures v in Debit(b, sender, w, units, seqno).book.sessions && OnCurve(Debit(b, sender, w, units, seqno).book, v)
  {
    UnitsAfterDebit(b, DebitKey(sender, w, seqno), units, v);
  }

  lemma DebitStaysOwned(b: Book, sender: Bytes, w: string, units: int64, seqno: nat)
    requires DebitsOwned(b)
    ensures DebitsOwned(Debit(b, sender, w, units, seqno).book)
  {
  }

  lemma DebitKeeps(b: Book, sender: Bytes, w: string, units: int64, seqno: nat)
    requires Sound(b)
    ensures Sound(Debit(b, sender, w, units, seqno).book)
  {
    var turn := Debit(b, sender, w, units, seqno);
    if turn.reply.Debited? && !turn.reply.replayed {
      DebitStaysOwned(b, sender, w, units, seqno);
      forall v | v in turn.book.sessions
        ensures OnCurve(turn.book, v)
      {
        assert v in b.sessions && OnCurve(b, v);
        if v == w {
          DebitedSessionIsOnCurve(b, sender, w, units, seqno);
        } else {
          OtherSessionStaysOnCurve(b, sender, w, units, seqno, v);
        }
      }
    } else {
      assert turn.book == b;
    }
  }

  /** A call that records no debit keeps the book sound if the touched session's curve position survives. */
  lemma QuietKeeps(b: Book, w: string, s: Session)
    requires Sound(b)
    requires w in b.sessions ==>
               var o := b.sessions[w];
               && s.debitedUnits == o.debitedUnits && s.debitLog == o.debitLog
               && (o.price != None ==> s.price == o.price && s.per == o.per)
               && (o.sender != [] ==> s.sender == o.sender)
    requires w !in b.sessions ==> s.debitedUnits == 0 && s.debitLog == []
    ensures Sound(b.(sessions := b.sessions[w := s]))
  {
    var b' := b.(sessions := b.sessions[w := s]);
    assert DebitsOwned(b');
    forall v | v in b'.sessions
      ensures OnCurve(b', v)
    {
      if v in b.sessions {
        assert OnCurve(b, v);
      } else {
        NoSessionNoUnits(b, v);
      }
    }
  }

  lemma NoSessionNoUnits(b: Book, w: string)
    requires DebitsOwned(b) && w !in b.sessions
    ensures DistinctUnits(b, w) == 0
  {
    SumSame(b.debits.Keys, UnitsOf(b.debits, w), _ => 0);
    SumGrow({}, b.debits.Keys, _ => 0, _ => 0);
  }

  lemma CallKeeps(b: Book, call: Call)
    requires Sound(b)
    ensures Sound(Serve(b, call).book)
  {
    var b' := Serve(b, call).book;
    match call
    case DebitCall(sender, w, units, seqno) => DebitKeeps(b, sender, w, units, seqno);
    case IssueCall(w) => if b' != b { QuietKeeps(b, w, b'.sessions[w]); }
    case OpenCall(w, _, _) => if b' != b { QuietKeeps(b, w, b'.sessions[w]); }
    case PayCall(w, _) => if b' != b { QuietKeeps(b, w, b'.sessions[w]); }
    case CloseCall(_, w) => if b' != b { QuietKeeps(b, w, b'.sessions[w]); }
  }

  /** Every session in every run has charged one ceiling over its distinct debits, in whatever order, split
      or repetition they came. Units are uint64, so the total is taken modulo 2^64. */
  lemma {:induction false} EverySessionPaysItsBill(calls: seq<Call>)
    ensures Sound(After(NO_SESSIONS, calls))
    ensures forall w :: w in After(NO_SESSIONS, calls).sessions ==>
              var b := After(NO_SESSIONS, calls);
              var s := b.sessions[w];
              && TotalWei(s.debitLog) == Bill(s.price, s.per, ToUint64(DistinctUnits(b, w)))
              && (0 <= DistinctUnits(b, w) < UINT64 ==>
                    TotalWei(s.debitLog) == Bill(s.price, s.per, DistinctUnits(b, w)))
  {
    if calls != [] {
      EverySessionPaysItsBill(calls[..|calls| - 1]);
      CallKeeps(After(NO_SESSIONS, calls[..|calls| - 1]), calls[|calls| - 1]);
    }
    assert forall w :: w in After(NO_SESSIONS, calls).sessions ==> OnCurve(After(NO_SESSIONS, calls), w);
  }

  /** An open session takes a payment that is not empty and is signed, if at all, for the session's own price. */
  predicate TakesPayment(b: Book, w: string, payment: Payment) {
    && w != "" && payment.raw != [] && w in b.sessions && !b.sessions[w].closed
    && (b.sessions[w].price.Some? && payment.signedPrice.Some? ==> payment.signedPrice == b.sessions[w].price)
  }

  /** What the payments a session took during a run come to. */
  function CreditIn(b: Book, calls: seq<Call>, w: string): int {
    if calls == [] then 0
    else
      var before, call := calls[..|calls| - 1], calls[|calls| - 1];
      var taken := call.PayCall? && call.w == w && TakesPayment(After(b, before), w, call.payment);
      CreditIn(b, before, w) + if taken then CREDIT_PER_PAYMENT else 0
  }

  /** A balance is what came in less the bill of the distinct units: nothing else moves it. */
  lemma {:induction false} BalanceIsCreditLessBill(calls: seq<Call>, w: string)
    requires w in After(NO_SESSIONS, calls).sessions
    ensures var s := After(NO_SESSIONS, calls).sessions[w];
            s.balance == CreditIn(NO_SESSIONS, calls, w) - TotalWei(s.debitLog)
  {
    var before, call := calls[..|calls| - 1], calls[|calls| - 1];
    var b := After(NO_SESSIONS, before);
    if w in b.sessions {
      BalanceIsCreditLessBill(before, w);
      BalanceMove(b, call, w);
    } else {
      NoCreditBeforeSession(before, w);
    }
  }

  lemma BalanceMove(b: Book, call: Call, w: string)
    requires w in b.sessions
    ensures var turn := Serve(b, call);
            && w in turn.book.sessions
            && var s, s' := b.sessions[w], turn.book.sessions[w];
            s'.balance + TotalWei(s'.debitLog) == s.balance + TotalWei(s.debitLog)
              + if call.PayCall? && call.w == w && TakesPayment(b, w, call.payment) then CREDIT_PER_PAYMENT else 0
  {
    if call.DebitCall? {
      var s' := Debit(b, call.sender, call.w, call.units, call.seqno).book.sessions[w];
      assert s'.debitLog != b.sessions[w].debitLog ==> s'.debitLog[..|s'.debitLog| - 1] == b.sessions[w].debitLog;
    }
  }

  lemma {:induction false} NoCreditBeforeSession(calls: seq<Call>, w: string)
    requires w !in After(NO_SESSIONS, calls).sessions
    ensures CreditIn(NO_SESSIONS, calls, w) == 0
  {
    if calls != [] {
      var before := calls[..|calls| - 1];
      if w in After(NO_SESSIONS, before).sessions {
        BalanceMove(After(NO_SESSIONS, before), calls[|calls| - 1], w);
      }
      NoCreditBeforeSession(before, w);
    }
  }

  // ---- the runway check ----

  /** The units of the debits of w that were newly applied during the calls. */
  function Applied(b: Book, calls: seq<Call>, w: string): int {
    if calls == [] then 0
    else
      var before, call := calls[..|calls| - 1], calls[|calls| - 1];
      var reply := Serve(After(b, before), call).reply;
      Applied(b, before, w)
      + if call.DebitCall? && call.w == w && reply.Debited? && !reply.replayed then call.units as int else 0
  }

  ghost predicate NoRefunds(calls: seq<Call>, w: string) {
    forall i :: 0 <= i < |calls| && calls[i].DebitCall? && calls[i].w == w ==> 0 <= calls[i].units
  }

  lemma {:induction false} SplitsAddUp(b: Book, calls: seq<Call>, w: string)
    requires NoRefunds(calls, w)
    ensures 0 <= Applied(b, calls, w)
    decreases |calls|
  {
    if calls != [] {
      SplitsAddUp(b, calls[..|calls| - 1], w);
    }
  }

  /** The session stands `applied` units further along the curve, and has paid no more than that costs. */
  ghost predicate FollowsTheCurve(s: Session, s': Session, applied: int) {
    && s'.price == s.price && s'.per == s.per && s'.debitedUnits == ToUint64(s.debitedUnits + applied)
    && s.balance + Bill(s.price, s.per, s.debitedUnits) <= s'.balance + Bill(s.price, s.per, s'.debitedUnits)
  }

  lemma CurveGoesOn(s: Session, s': Session, s'': Session, first: int, more: int)
    requires FollowsTheCurve(s, s', first) && FollowsTheCurve(s', s'', more)
    ensures FollowsTheCurve(s, s'', first + more)
  {
    Uint64AddsLeft(s.debitedUnits + first, more);
  }

  lemma DebitFollowsTheCurve(b: Book, sender: Bytes, v: string, units: int64, seqno: nat, w: string)
    requires w in b.sessions && b.sessions[w].price != None && b.sessions[w].debitedUnits < UINT64
    ensures var turn := Debit(b, sender, v, units, seqno);
            && w in turn.book.sessions
            && FollowsTheCurve(b.sessions[w], turn.book.sessions[w],
                               if v == w && turn.reply.Debited? && !turn.reply.replayed then units as int else 0)
  {
    Uint64Adds(b.sessions[w].debitedUnits, units as int);
  }

  lemma CallFollowsTheCurve(b: Book, call: Call, w: string)
    requires w in b.sessions && b.sessions[w].price != None && b.sessions[w].debitedUnits < UINT64
    ensures var turn := Serve(b, call);
            && w in turn.book.sessions
            && FollowsTheCurve(b.sessions[w], turn.book.sessions[w],
                               if call.DebitCall? && call.w == w && turn.reply.Debited? && !turn.reply.replayed
                                   then call.units as int else 0)
  {
    if call.DebitCall? {
      DebitFollowsTheCurve(b, call.sender, call.w, call.units, call.seqno, w);
    }
  }

  /** Whatever is called, a priced session follows its curve by the units applied to it. */
  lemma {:induction false} CallsFollowTheCurve(b: Book, calls: seq<Call>, w: string)
    requires w in b.sessions && b.sessions[w].price != None && b.sessions[w].debitedUnits < UINT64
    ensures w in After(b, calls).sessions
            && FollowsTheCurve(b.sessions[w], After(b, calls).sessions[w], Applied(b, calls, w))
    decreases |calls|
  {
    if calls != [] {
      var before := calls[..|calls| - 1];
      CallsFollowTheCurve(b, before, w);
      CallFollowsTheCurve(After(b, before), calls[|calls| - 1], w);
      CurveGoesOn(b.sessions[w], After(b, before).sessions[w], After(b, calls).sessions[w], Applied(b, before, w),
                  Applied(b, calls, w) - Applied(b, before, w));
    }
  }

  /** No way of debiting at most n units in parts that are not negative, with any other calls in between, overdraws. */
  ghost predicate NeverOverdrawn(b: Book, w: string, n: int) {
    forall calls :: NoRefunds(calls, w) && Applied(b, calls, w) <= n ==>
      w in After(b, calls).sessions && 0 <= After(b, calls).sessions[w].balance
  }

  /** What the next k units cost from where the session stands. */
  function CostOf(s: Session, k: int): int {
    Bill(s.price, s.per, ToUint64(s.debitedUnits + k)) - Bill(s.price, s.per, s.debitedUnits)
  }

  /** The balance covers every position up to n units on. */
  ghost predicate EachStepCovered(s: Session, n: int) {
    forall k :: 0 <= k <= n ==> CostOf(s, k) <= s.balance
  }

  /** The session takes debits from this sender. */
  ghost predicate TakesDebits(b: Book, sender: Bytes, w: string) {
    && sender != [] && w != "" && w in b.sessions
    && var s := b.sessions[w];
    !s.closed && s.price != None && s.sender == sender && s.debitedUnits < UINT64
  }

  /** No split of n units overdraws exactly when the balance covers every position on the way, at any price and
      whether or not the unit counter wraps. */
  lemma SplitsAreSafeExactlyWhenCovered(b: Book, sender: Bytes, w: string, n: int64, seqno: nat)
    requires TakesDebits(b, sender, w) && 0 <= n && DebitKey(sender, w, seqno) !in b.debits
    ensures NeverOverdrawn(b, w, n as int) <==> EachStepCovered(b.sessions[w], n as int)
  {
    var s := b.sessions[w];
    if NeverOverdrawn(b, w, n as int) {
      forall k | 0 <= k <= n as int ensures CostOf(s, k) <= s.balance {
        OneDebit(b, sender, w, k as int64, seqno);
        var calls := [DebitCall(sender, w, k as int64, seqno)];
        assert NoRefunds(calls, w) && Applied(b, calls, w) == k && 0 <= After(b, calls).sessions[w].balance;
      }
    }
    if EachStepCovered(s, n as int) {
      forall calls | NoRefunds(calls, w) && Applied(b, calls, w) <= n as int
        ensures w in After(b, calls).sessions && 0 <= After(b, calls).sessions[w].balance
      {
        SplitsAddUp(b, calls, w);
        CallsFollowTheCurve(b, calls, w);
        assert CostOf(s, Applied(b, calls, w)) <= s.balance;
      }
    }
  }

  /** One fresh debit moves the session by exactly its units. */
  lemma OneDebit(b: Book, sender: Bytes, w: string, units: int64, seqno: nat)
    requires TakesDebits(b, sender, w) && DebitKey(sender, w, seqno) !in b.debits
    ensures var calls, s := [DebitCall(sender, w, units, seqno)], b.sessions[w];
            && w in After(b, calls).sessions && Applied(b, calls, w) == units as int
            && After(b, calls).sessions[w].balance == s.balance - CostOf(s, units as int)
  {
    var calls := [DebitCall(sender, w, units, seqno)];
    assert calls[..0] == [] && After(b, calls[..0]) == b && Applied(b, calls[..0], w) == 0;
    assert After(b, calls) == Debit(b, sender, w, units, seqno).book;
    Uint64Adds(b.sessions[w].debitedUnits, units as int);
  }

  function LastBeforeWrap(units: nat, n: nat): nat {
    if units + n < UINT64 then units + n else UINT64 - 1
  }

  lemma PositionsStayBelow(units: nat, n: nat, k: nat)
    requires units < UINT64 && k <= n
    ensures ToUint64(units + k) <= LastBeforeWrap(units, n)
  {
  }

  /** At a price that is not negative the dearest position on the way is the last, or the last before the counter
      wraps. */
  lemma DearestPosition(s: Session, n: nat)
    requires s.price != None && 0 <= s.price.value && s.debitedUnits < UINT64
    ensures EachStepCovered(s, n) <==>
              Bill(s.price, s.per, LastBeforeWrap(s.debitedUnits, n)) - Bill(s.price, s.per, s.debitedUnits)
                  <= s.balance
  {
    var top := LastBeforeWrap(s.debitedUnits, n);
    assert CostOf(s, top - s.debitedUnits) == Bill(s.price, s.per, top) - Bill(s.price, s.per, s.debitedUnits);
    forall k | 0 <= k <= n ensures CostOf(s, k) <= CostOf(s, top - s.debitedUnits) {
      PositionsStayBelow(s.debitedUnits, n, k);
      BillMonotone(s.price.value, s.per, ToUint64(s.debitedUnits + k), top);
    }
  }

  lemma CheckIsTheBill(b: Book, sender: Bytes, w: string, n: int64)
    requires TakesDebits(b, sender, w) && 0 <= n
    ensures Sufficient(b, sender, w, n).Runway?
    ensures Sufficient(b, sender, w, n).sufficient <==> CostOf(b.sessions[w], n as int) <= b.sessions[w].balance
  {
  }

  /** For an open session at a price that is not negative the check approves n units exactly when no split of them,
      with any other calls in between, ever takes the balance below zero, unless the unit counter would wrap within
      them; then no split does exactly when the balance reaches the last unit before the wrap. At a negative price
      none does exactly when the balance covers every position on the way. */
  lemma RunwayLasts(b: Book, sender: Bytes, w: string, n: int64, seqno: nat)
    requires TakesDebits(b, sender, w) && 0 <= n && DebitKey(sender, w, seqno) !in b.debits
    ensures Sufficient(b, sender, w, n).Runway?
    ensures var s := b.sessions[w];
            NeverOverdrawn(b, w, n as int) <==>
              if s.price.value < 0 then EachStepCovered(s, n as int)
              else if s.debitedUnits + n as nat < UINT64 then Sufficient(b, sender, w, n).sufficient
              else Bill(s.price, s.per, UINT64 - 1) - Bill(s.price, s.per, s.debitedUnits) <= s.balance
  {
    hide NeverOverdrawn, EachStepCovered;
    SplitsAreSafeExactlyWhenCovered(b, sender, w, n, seqno);
    CheckIsTheBill(b, sender, w, n);
    if 0 <= b.sessions[w].price.value {
      DearestPosition(b.sessions[w], n as int);
    }
  }

  lemma OneMoreCall(b: Book, calls: seq<Call>, call: Call)
    ensures After(b, calls + [call]) == Serve(After(b, calls), call).book
  {
    assert (calls + [call])[..|calls + [call]| - 1] == calls;
  }

  const MAX_UNITS: int64 := 0x7fff_ffff_ffff_ffff

  /** Two debits of the largest count, at a price that spends one payment over 2^64 - 2 units. */
  function WrappingCalls(sender: Bytes, w: string): seq<Call>
    requires sender != []
  {
    [OpenCall(w, Some(CREDIT_PER_PAYMENT), UINT64 - 2), PayCall(w, PaymentBytes([1], sender, None)),
     DebitCall(sender, w, MAX_UNITS, 1), DebitCall(sender, w, MAX_UNITS, 2)]
  }

  lemma WrappingBills()
    ensures var price, per := CREDIT_PER_PAYMENT, UINT64 - 2;
            && BillFor(price, per, 0) == 0 && BillFor(price, per, 3) == 1
            && BillFor(price, per, MAX_UNITS as int) == CREDIT_PER_PAYMENT / 2
            && BillFor(price, per, UINT64 - 2) == CREDIT_PER_PAYMENT
            && BillFor(price, per, UINT64 - 1) == CREDIT_PER_PAYMENT + 1
  {
  }

  /** One of these debits, at a point of the curve whose two bills are known. */
  lemma OneWrappingDebit(b: Book, sender: Bytes, w: string, seqno: nat)
    requires TakesDebits(b, sender, w) && DebitKey(sender, w, seqno) !in b.debits
    requires b.sessions[w].debitedUnits + MAX_UNITS as int < UINT64
    ensures var s, s' := b.sessions[w], Debit(b, sender, w, MAX_UNITS, seqno).book.sessions[w];
            && s'.debitedUnits == s.debitedUnits + MAX_UNITS as int
            && s' == s.(debitedUnits := s'.debitedUnits, balance := s'.balance, debitLog := s'.debitLog)
            && s'.balance == s.balance - (Bill(s.price, s.per, s.debitedUnits + MAX_UNITS as int)
                                          - Bill(s.price, s.per, s.debitedUnits))
    ensures Debit(b, sender, w, MAX_UNITS, seqno).book.debits == b.debits[DebitKey(sender, w, seqno) := MAX_UNITS]
  {
    hide BillFor;
  }

  /** The run leaves an open session, sealed to the sender, with nothing left at unit 2^64 - 2. */
  lemma WrappingSession(sender: Bytes, w: string)
    requires sender != [] && w != ""
    ensures var b := After(NO_SESSIONS, WrappingCalls(sender, w));
            && w in b.sessions && DebitKey(sender, w, 3) !in b.debits
            && var s := b.sessions[w];
            && s.price == Some(CREDIT_PER_PAYMENT) && s.per == UINT64 - 2 && s.sender == sender && !s.closed
            && s.balance == 0 && s.debitedUnits == UINT64 - 2
  {
    var open, pay := OpenCall(w, Some(CREDIT_PER_PAYMENT), UINT64 - 2), PayCall(w, PaymentBytes([1], sender, None));
    var first, second := DebitCall(sender, w, MAX_UNITS, 1), DebitCall(sender, w, MAX_UNITS, 2);
    assert [] + [open] == [open] && [open] + [pay] == [open, pay];
    assert [open, pay] + [first] == [open, pay, first] && [open, pay, first] + [second] == WrappingCalls(sender, w);
    OneMoreCall(NO_SESSIONS, [], open);
    OneMoreCall(NO_SESSIONS, [open], pay);
    var b := After(NO_SESSIONS, [open, pay]);
    assert b.sessions[w] == Session(sender, Some(CREDIT_PER_PAYMENT), UINT64 - 2, CREDIT_PER_PAYMENT, 0, false, []);
    assert b.debits == map[];
    hide After, BillFor, Debit;
    OneMoreCall(NO_SESSIONS, [open, pay], first);
    OneMoreCall(NO_SESSIONS, [open, pay, first], second);
    WrappingBills();
    OneWrappingDebit(b, sender, w, 1);
    OneWrappingDebit(Debit(b, sender, w, MAX_UNITS, 1).book, sender, w, 2);
  }

  /** The two provisos are needed. Two units before the wrap five units look free, and the first overdraws. */
  lemma WrappingRunwayOverdraws(sender: Bytes, w: string)
    requires sender != [] && w != ""
    ensures var b := After(NO_SESSIONS, WrappingCalls(sender, w));
            && Sufficient(b, sender, w, 5) == Runway(true, 0)
            && w in Debit(b, sender, w, 1, 3).book.sessions && Debit(b, sender, w, 1, 3).book.sessions[w].balance == -1
  {
    WrappingSession(sender, w);
    WrappingBills();
    hide After, BillFor;
  }

  /** At half a wei refunded per unit two units look free, and the first is charged one wei. The payment is refused
      for its price, and seals the sender all the same. */
  lemma NegativePriceOverdraws(sender: Bytes, w: string)
    requires sender != [] && w != ""
    ensures var calls := [OpenCall(w, Some(-1), 2), PayCall(w, PaymentBytes([1], sender, Some(0)))];
            var b := After(NO_SESSIONS, calls);
            && Sufficient(b, sender, w, 2) == Runway(true, 0)
            && w in Debit(b, sender, w, 1, 1).book.sessions && Debit(b, sender, w, 1, 1).book.sessions[w].balance == -1
  {
    var open, pay := OpenCall(w, Some(-1), 2), PayCall(w, PaymentBytes([1], sender, Some(0)));
    assert [] + [open] == [open] && [open] + [pay] == [open, pay];
    OneMoreCall(NO_SESSIONS, [], open);
    OneMoreCall(NO_SESSIONS, [open], pay);
    assert After(NO_SESSIONS, [open, pay]).sessions[w] == Session(sender, Some(-1), 2, 0, 0, false, []);
    assert BillFor(-1, 2, 2) == -1 && BillFor(-1, 2, 1) == 1;
  }

  /** The check is exact: it approves n units just when debiting them at once would not overdraw. */
  lemma RunwayIsExact(b: Book, sender: Bytes, w: string, n: int64, seqno: nat)
    requires sender != [] && w != "" && w in b.sessions && 0 <= n
    requires var s := b.sessions[w];
             !s.closed && s.price != None && s.sender == sender && DebitKey(sender, w, seqno) !in b.debits
    ensures Sufficient(b, sender, w, n).sufficient
            <==> 0 <= Debit(b, sender, w, n, seqno).book.sessions[w].balance
  {
  }
}
