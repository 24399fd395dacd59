/** The session client: the session and debit maps as fields, updated in place call by call. */
module SessionClient {
  import opened Optional
  import opened Ledger
  import opened Sessions

  class MockSessions {
    var sessions: map<string, Session>
    var debits: map<DebitKey, int64>

    ghost function Value(): Book
      reads this
    {
      Book(sessions, debits)
    }

    constructor ()
      ensures Value() == NO_SESSIONS && Sound(Value())
    {
      sessions, debits := map[], map[];
    }

    method OpenSession(w: string, price: Option<int>, per: nat) returns (reply: Reply)
      modifies this`sessions
      ensures Turn(Value(), reply) == Open(old(Value()), w, price, per)
      ensures old(Sound(Value())) ==> Sound(Value())
    {
      hide Sound;
      if Sound(Value()) { CallKeeps(Value(), OpenCall(w, price, per)); }
      if w == "" {
        return Refused(WorkIdEmpty);
      }
      var quoted := if price == None then 0 else price.value;
      if w in sessions {
        var existing := sessions[w];
        if existing.price == None {
          existing := existing.(price := Some(quoted));
          existing := existing.(per := per);
          sessions := sessions[w := existing];
        } else if price != None && (existing.price.value != price.value || existing.per != per) {
          return Refused(PricingConflict);
        }
        return Opened(true);
      }
      sessions := sessions[w := Session([], Some(quoted), per, 0, 0, false, [])];
      return Opened(false);
    }

    method ProcessPayment(w: string, payment: Payment) returns (reply: Reply)
      modifies this`sessions
      ensures Turn(Value(), reply) == Pay(old(Value()), w, payment)
      ensures old(Sound(Value())) ==> Sound(Value())
    {
      hide Sound;
      if Sound(Value()) { CallKeeps(Value(), PayCall(w, payment)); }
      if w == "" {
        return Refused(WorkIdEmpty);
      }
      if payment.raw == [] {
        return Refused(PaymentEmpty);
      }
      if w !in sessions {
        return Refused(NoSession);
      }
      var s := sessions[w];
      if s.closed {
        return Paid(0, s.balance, true);
      }
      if s.sender == [] {
        s := s.(sender := payment.sender);
      }
      sessions := sessions[w := s];
      if s.price != None && payment.signedPrice != None && payment.signedPrice.value != s.price.value {
        assert Value() == Pay(old(Value()), w, payment).book;
        return Refused(SignedPriceMismatch);
      }
      s := s.(balance := s.balance + CREDIT_PER_PAYMENT);
      sessions := sessions[w := s];
      assert sessions == old(sessions)[w := s];
      return Paid(CREDIT_PER_PAYMENT, s.balance, false);
    }

    method DebitBalance(sender: Bytes, w: string, units: int64, seqno: nat) returns (reply: Reply)
      modifies this
      ensures Turn(Value(), reply) == Debit(old(Value()), sender, w, units, seqno)
      ensures old(Sound(Value())) ==> Sound(Value())
    {
      hide Sound;
      if Sound(Value()) { CallKeeps(Value(), DebitCall(sender, w, units, seqno)); }
      if sender == [] || w == "" {
        return Refused(SenderRequired);
      }
      if w !in sessions {
        return Refused(NoSession);
      }
      var s := sessions[w];
      if s.closed {
        return Refused(SessionClosed);
      }
      if s.price == None {
        return Refused(PricingUnset);
      }
      if s.sender != sender {
        return Refused(SenderMismatch);
      }
      var key := DebitKey(sender, w, seqno);
      if key in debits {
        return Debited(s.balance, 0, s.debitedUnits, true);
      }
      var before := Bill(s.price, s.per, s.debitedUnits);
      s := s.(debitedUnits := ToUint64(s.debitedUnits + ToUint64(units as int)));
      var wei := Bill(s.price, s.per, s.debitedUnits) - before;
      s := s.(balance := s.balance - wei);
      s := s.(debitLog := s.debitLog + [DebitRecord(seqno, units, wei)]);
      sessions := sessions[w := s];
      debits := debits[key := units];
      return Debited(s.balance, wei, s.debitedUnits, false);
    }

    method SufficientBalance(sender: Bytes, w: string, minUnits: int64) returns (reply: Reply)
      ensures reply == Sufficient(Value(), sender, w, minUnits)
    {
      if sender == [] || w == "" {
        return Refused(SenderRequired);
      }
      if w !in sessions {
        return Refused(NoSession);
      }
      var s := sessions[w];
      if s.sender != sender {
        return Refused(SenderMismatch);
      }
      if s.closed {
        return Runway(false, s.balance);
      }
      var min := minUnits as int;
      if min < 0 {
        min := 0;
      }
      var required := Bill(s.price, s.per, ToUint64(s.debitedUnits + min)) - Bill(s.price, s.per, s.debitedUnits);
      return Runway(required <= s.balance, s.balance);
    }

    method CloseSession(sender: Bytes, w: string) returns (reply: Reply)
      modifies this`sessions
      ensures Turn(Value(), reply) == Close(old(Value()), sender, w)
      ensures old(Sound(Value())) ==> Sound(Value())
    {
      hide Sound;
      if Sound(Value()) { CallKeeps(Value(), CloseCall(sender, w)); }
      if w == "" {
        return Refused(WorkIdEmpty);
      }
      if w !in sessions {
        return Refused(NoSession);
      }
      var s := sessions[w];
      if s.sender != [] && s.sender != sender {
        return Refused(SenderMismatch);
      }
      sessions := sessions[w := s.(closed := true)];
      return Done;
    }
  }
}
