/** What each session call answers and leaves behind, and what stays fixed over runs: price, sender, closing. */
module SessionCalls {
  import opened Optional
  import opened Ledger
  import opened Sessions

  /** No session but this one differs. */
  ghost predicate OnlySession(b: Book, b': Book, w: string) {
    && b'.sessions.Keys == b.sessions.Keys + {w}
    && forall v :: v in b.sessions && v != w ==> b'.sessions[v] == b.sessions[v]
  }

  /** A payment is credited exactly when the session takes it. The first one an open session sees seals its sender,
      even where its signed price is refused. */
  lemma PayIsExact(b: Book, w: string, payment: Payment)
    ensures var turn := Pay(b, w, payment);
            && (turn.reply.Paid? && !turn.reply.rejected <==> TakesPayment(b, w, payment))
            && turn.book.debits == b.debits
            && (w !in b.sessions || w == "" || payment.raw == [] || b.sessions[w].closed ==> turn.book == b)
            && (w in b.sessions && w != "" && payment.raw != [] ==>
                  var s := b.sessions[w];
                  if s.closed then turn.reply == Paid(0, s.balance, true)
                  else
                    && OnlySession(b, turn.book, w)
                    && var s' := turn.book.sessions[w];
                    && s'.sender == (if s.sender == [] then payment.sender else s.sender)
                    && s' == s.(sender := s'.sender, balance := s'.balance)
                    && s'.balance == s.balance + (if TakesPayment(b, w, payment) then CREDIT_PER_PAYMENT else 0)
                    && turn.reply == if TakesPayment(b, w, payment) then Paid(CREDIT_PER_PAYMENT, s'.balance, false)
                                     else Refused(SignedPriceMismatch))
  {
  }

  /** A debit is applied exactly when the open, priced session is sealed to its sender and has not seen its sequence
      number. One it has seen is answered from the session as it stands, and nothing else changes anything. */
  lemma DebitIsExact(b: Book, sender: Bytes, w: string, units: int64, seqno: nat)
    requires w in b.sessions ==> b.sessions[w].debitedUnits < UINT64
    ensures var turn, known := Debit(b, sender, w, units, seqno), DebitKey(sender, w, seqno) in b.debits;
            && (turn.reply.Debited? <==> TakesDebits(b, sender, w))
            && (turn.reply.Debited? ==> turn.reply.replayed == known)
            && (!turn.reply.Debited? || known ==> turn.book == b)
            && (turn.reply.Debited? ==>
                  var s := b.sessions[w];
                  && w in turn.book.sessions
                  && var s' := turn.book.sessions[w];
                  && turn.reply.balance == s'.balance && turn.reply.cumulativeUnits == s'.debitedUnits
                  && turn.reply.wei == s.balance - s'.balance
                  && (!known ==>
                        && OnlySession(b, turn.book, w)
                        && turn.book.debits == b.debits[DebitKey(sender, w, seqno) := units]
                        && s'.debitedUnits == ToUint64(s.debitedUnits + units as int)
                        && s'.balance == s.balance - CostOf(s, units as int)
                        && s'.debitLog == s.debitLog + [DebitRecord(seqno, units, CostOf(s, units as int))]
                        && s' == s.(debitedUnits := s'.debitedUnits, balance := s'.balance, debitLog := s'.debitLog)))
  {
    if w in b.sessions {
      Uint64Adds(b.sessions[w].debitedUnits, units as int);
    }
  }

  /** A session is priced once: by the first opening, also where asking for parameters had brought it into being, with
      zero for a price left out. A later opening is refused exactly when it names another price. */
  lemma OpenIsExact(b: Book, w: string, price: Option<int>, per: nat)
    ensures var turn, quoted := Open(b, w, price, per), if price == None then 0 else price.value;
            var priced := w in b.sessions && b.sessions[w].price.Some?;
            && (turn.reply == Refused(WorkIdEmpty) <==> w == "")
            && (turn.reply == Refused(PricingConflict) <==>
                  w != "" && priced && price.Some? && (price != b.sessions[w].price || per != b.sessions[w].per))
            && (w == "" || priced ==> turn.book == b)
            && (turn.reply.Opened? <==> turn.reply !in {Refused(WorkIdEmpty), Refused(PricingConflict)})
            && (turn.reply.Opened? ==> turn.reply.alreadyOpen == (w in b.sessions))
            && (w != "" && !priced ==>
                  && OnlySession(b, turn.book, w) && turn.book.debits == b.debits
                  && var s' := turn.book.sessions[w];
                  && s'.price == Some(quoted) && s'.per == per
                  && s' == if w in b.sessions then b.sessions[w].(price := s'.price, per := s'.per)
                           else Session([], s'.price, s'.per, 0, 0, false, []))
  {
  }

  /** A session is closed exactly by its sealed sender, or by anyone before it is sealed. */
  lemma CloseIsExact(b: Book, sender: Bytes, w: string)
    ensures var turn := Close(b, sender, w);
            var may := w != "" && w in b.sessions && (b.sessions[w].sender == [] || b.sessions[w].sender == sender);
            && (turn.reply == Done <==> may) && (!may ==> turn.book == b && turn.reply.Refused?)
            && (may ==> OnlySession(b, turn.book, w) && turn.book.sessions[w] == b.sessions[w].(closed := true)
                        && turn.book.debits == b.debits)
  {
  }

  /** Asking for parameters brings an unpriced session into being and touches no other. */
  lemma IssueIsExact(b: Book, w: string)
    ensures var b' := Issue(b, w).book;
            && OnlySession(b, b', w) && b'.debits == b.debits
            && b'.sessions[w] == if w in b.sessions then b.sessions[w] else Session([], None, 0, 0, 0, false, [])
  {
  }

  /** Nothing later changes a set price, a sealed sender or a closing, and a closed session never moves again. */
  ghost predicate Settles(s: Session, s': Session) {
    && (s.price.Some? ==> s'.price == s.price && s'.per == s.per)
    && (s.sender != [] ==> s'.sender == s.sender)
    && (s.closed ==> s'.closed && s'.balance == s.balance && s'.debitedUnits == s.debitedUnits
                     && s'.debitLog == s.debitLog && s'.sender == s.sender)
    && s.debitLog <= s'.debitLog
  }

  lemma CallSettles(b: Book, call: Call, w: string)
    requires w in b.sessions
    ensures w in Serve(b, call).book.sessions && Settles(b.sessions[w], Serve(b, call).book.sessions[w])
  {
  }

  lemma {:induction false} CallsSettle(b: Book, calls: seq<Call>, w: string)
    requires w in b.sessions
    ensures w in After(b, calls).sessions && Settles(b.sessions[w], After(b, calls).sessions[w])
    decreases |calls|
  {
    if calls != [] {
      CallsSettle(b, calls[..|calls| - 1], w);
      CallSettles(After(b, calls[..|calls| - 1]), calls[|calls| - 1], w);
    }
  }

  /** Once closed, a session answers every later debit and payment with a refusal, has no runway, and stands still. */
  lemma ClosedForGood(b: Book, sender: Bytes, w: string, calls: seq<Call>, units: int64, seqno: nat, payment: Payment)
    requires Close(b, sender, w).reply == Done
    ensures var b0, b' := Close(b, sender, w).book, After(Close(b, sender, w).book, calls);
            && w in b0.sessions && w in b'.sessions && b'.sessions[w].closed
            && b'.sessions[w].balance == b.sessions[w].balance && b'.sessions[w].debitLog == b.sessions[w].debitLog
            && Debit(b', sender, w, units, seqno).reply.Refused? && Debit(b', sender, w, units, seqno).book == b'
            && Pay(b', w, payment).book == b' && !TakesPayment(b', w, payment)
            && (Sufficient(b', sender, w, units).Runway? ==> !Sufficient(b', sender, w, units).sufficient)
  {
    CallsSettle(Close(b, sender, w).book, calls, w);
  }

  /** The runway check answers for the sealed sender alone, never for a closed session, and reads a negative count as
      none; before a price is set units cost nothing. */
  lemma RunwayAnswers(b: Book, sender: Bytes, w: string, n: int64)
    ensures var reply := Sufficient(b, sender, w, n);
            && (reply.Runway? <==> sender != [] && w != "" && w in b.sessions && b.sessions[w].sender == sender)
            && (reply.Runway? ==>
                  var s := b.sessions[w];
                  && reply.balance == s.balance
                  && (s.closed ==> !reply.sufficient)
                  && (!s.closed && s.price == None ==> (reply.sufficient <==> 0 <= s.balance)))
            && (n < 0 ==> reply == Sufficient(b, sender, w, 0))
  {
  }

  // ---- debits over runs ----

  /** The call at this position is a debit with this key that its session takes. */
  ghost predicate TakenAt(calls: seq<Call>, i: nat, k: DebitKey) {
    && i < |calls| && calls[i].DebitCall? && DebitKey(calls[i].sender, calls[i].w, calls[i].seqno) == k
    && TakesDebits(After(NO_SESSIONS, calls[..i]), k.sender, k.workId)
  }

  /** It is the first such call, and named these units. */
  ghost predicate FirstTakenAt(calls: seq<Call>, i: nat, k: DebitKey, units: int64) {
    TakenAt(calls, i, k) && calls[i].units == units && forall j: nat :: j < i ==> !TakenAt(calls, j, k)
  }

  lemma TakenBefore(calls: seq<Call>, call: Call, i: nat, k: DebitKey)
    requires i < |calls|
    ensures TakenAt(calls + [call], i, k) <==> TakenAt(calls, i, k)
  {
    assert (calls + [call])[..i] == calls[..i];
  }

  /** A debit is recorded when the session takes it and has not seen it. */
  lemma DebitRecords(b: Book, sender: Bytes, w: string, units: int64, seqno: nat)
    requires w in b.sessions ==> b.sessions[w].debitedUnits < UINT64
    ensures Debit(b, sender, w, units, seqno).book.debits
            == if TakesDebits(b, sender, w) && DebitKey(sender, w, seqno) !in b.debits
               then b.debits[DebitKey(sender, w, seqno) := units] else b.debits
  {
    hide Debit, CostOf, OnlySession, TakesDebits;
    DebitIsExact(b, sender, w, units, seqno);
  }

  lemma OthersRecordNothing(b: Book, call: Call)
    requires !call.DebitCall?
    ensures Serve(b, call).book.debits == b.debits
  {
  }

  /** A call records nothing, or it is a debit the session takes and had not seen. */
  lemma CallRecords(b: Book, call: Call)
    requires Sound(b)
    ensures var debits' := Serve(b, call).book.debits;
            if call.DebitCall? && TakesDebits(b, call.sender, call.w)
               && DebitKey(call.sender, call.w, call.seqno) !in b.debits
            then debits' == b.debits[DebitKey(call.sender, call.w, call.seqno) := call.units]
            else debits' == b.debits
  {
    if call.DebitCall? {
      assert call.w in b.sessions ==> OnCurve(b, call.w);
      hide Sound, Debit, TakesDebits;
      DebitRecords(b, call.sender, call.w, call.units, call.seqno);
    } else {
      OthersRecordNothing(b, call);
    }
  }

  /** In every run the recorded debits are exactly the debits that were taken, each with the units it was first called
      with; so a session's distinct units are those of its distinct debit calls. */
  lemma {:induction false} DebitsAreTheFirstCalls(calls: seq<Call>, k: DebitKey)
    ensures var debits := After(NO_SESSIONS, calls).debits;
            && (k in debits <==> exists i: nat :: TakenAt(calls, i, k))
            && (k in debits ==> exists i: nat :: FirstTakenAt(calls, i, k, debits[k]))
    decreases |calls|
  {
    if calls != [] {
      var before, call := calls[..|calls| - 1], calls[|calls| - 1];
      assert calls == before + [call];
      DebitsAreTheFirstCalls(before, k);
      EverySessionPaysItsBill(before);
      CallRecords(After(NO_SESSIONS, before), call);
      forall i: nat | i < |before| ensures TakenAt(calls, i, k) <==> TakenAt(before, i, k) {
        TakenBefore(before, call, i, k);
      }
      hide After, TakesDebits;
      LastCallTaken(before, call, k);
    }
  }

  lemma LastCallTaken(before: seq<Call>, call: Call, k: DebitKey)
    requires var debits, calls := After(NO_SESSIONS, before).debits, before + [call];
             && (k in debits <==> exists i: nat :: TakenAt(before, i, k))
             && (k in debits ==> exists i: nat :: FirstTakenAt(before, i, k, debits[k]))
             && (forall i: nat :: i < |before| ==> (TakenAt(calls, i, k) <==> TakenAt(before, i, k)))
    requires var b, debits' := After(NO_SESSIONS, before), After(NO_SESSIONS, before + [call]).debits;
             if call.DebitCall? && TakesDebits(b, call.sender, call.w)
                && DebitKey(call.sender, call.w, call.seqno) !in b.debits
             then debits' == b.debits[DebitKey(call.sender, call.w, call.seqno) := call.units]
             else debits' == b.debits
    ensures var debits, calls := After(NO_SESSIONS, before + [call]).debits, before + [call];
            && (k in debits <==> exists i: nat :: TakenAt(calls, i, k))
            && (k in debits ==> exists i: nat :: FirstTakenAt(calls, i, k, debits[k]))
  {
    hide After, TakesDebits;
    var b, calls := After(NO_SESSIONS, before), before + [call];
    assert calls[..|before|] == before;
    if k in b.debits {
      var i: nat :| FirstTakenAt(before, i, k, b.debits[k]);
      assert FirstTakenAt(calls, i, k, b.debits[k]);
    } else if TakenAt(calls, |before|, k) {
      assert FirstTakenAt(calls, |before|, k, call.units);
    }
  }
}
