/** Combining the regional reports of one member into exact groups. */
module MemberReport {
  import opened Optional
  import opened Decimals

  datatype SourceEvidence = SourceEvidence(pool: string, source: string, round: nat, inclusionDigest: string,
                                           workDigest: string)

  /** `payments` lists the pools the window's payments name. */
  datatype Window = Window(pool: string, id: string, period: Period, termsVersion: string, earned: string,
                           awaiting: string, pending: string, paid: string, sources: seq<SourceEvidence>,
                           payments: seq<string>)

  datatype Report = Report(pool: string, wallet: string, observed: bool, windows: seq<Window>)

  datatype Region = Region(pool: string, status: string, report: Option<Report>)

  datatype Contribution = Contribution(pool: string, window: string, status: string)

  datatype Aggregate = Aggregate(period: Period, complete: bool, sources: seq<Contribution>, missing: seq<string>,
                                 earned: string, awaiting: string, pending: string, paid: string)

  const FRESH: string := "fresh"
  const STALE: string := "stale"
  const UNAVAILABLE: string := "unavailable"

  // ---- validation ----

  predicate IsAmount(raw: string) { Number(raw) != None }

  function Wei(raw: string): nat { if IsAmount(raw) then Number(raw).value else 0 }

  predicate SourceOk(s: SourceEvidence, pool: string, period: Period) {
    && s.pool == pool && s.source != "" && period.start <= s.round <= period.end
    && s.inclusionDigest != "" && s.workDigest != ""
  }

  /** The categories are exact amounts that add up to what was earned. */
  predicate AmountsOk(w: Window) {
    && IsAmount(w.earned) && IsAmount(w.awaiting) && IsAmount(w.pending) && IsAmount(w.paid)
    && Wei(w.awaiting) + Wei(w.pending) + Wei(w.paid) == Wei(w.earned)
  }

  predicate AttributionOk(w: Window, pool: string) {
    && (forall i :: 0 <= i < |w.sources| ==> SourceOk(w.sources[i], pool, w.period))
    && (forall i :: 0 <= i < |w.payments| ==> w.payments[i] == pool)
  }

  /** A window that stands on its own: attributed, dated, and conserving. */
  predicate WindowOk(w: Window, pool: string) {
    && w.pool == pool && w.id != "" && w.period.chain != 0 && w.period.asset != "" && w.period.start <= w.period.end
    && w.termsVersion != "" && w.sources != [] && AmountsOk(w) && AttributionOk(w, pool)
  }

  ghost predicate DistinctWindows(ws: seq<Window>) {
    forall i, j :: 0 <= i < j < |ws| ==> ws[i].id != ws[j].id && ws[i].period != ws[j].period
  }

  /** A report that may be counted: the right pool and wallet, sound windows, no window or period twice. */
  ghost predicate ReportOk(r: Report, pool: string, wallet: string) {
    && r.pool == pool && r.wallet == wallet && r.observed
    && (forall i :: 0 <= i < |r.windows| ==> WindowOk(r.windows[i], pool))
    && DistinctWindows(r.windows)
  }

  method ValidateAmounts(w: Window) returns (ok: bool)
    ensures ok == AmountsOk(w)
  {
    if !IsAmount(w.earned) {
      return false;
    }
    var total := 0;
    var categories := [w.awaiting, w.pending, w.paid];
    var i := 0;
    while i < 3
      invariant 0 <= i <= 3
      invariant forall j :: 0 <= j < i ==> IsAmount(categories[j])
      invariant total == (if i > 0 then Wei(w.awaiting) else 0) + (if i > 1 then Wei(w.pending) else 0)
                + (if i > 2 then Wei(w.paid) else 0)
    {
      if !IsAmount(categories[i]) {
        assert categories[i] == w.awaiting || categories[i] == w.pending || categories[i] == w.paid;
        return false;
      }
      total := total + Number(categories[i]).value;
      i := i + 1;
    }
    assert IsAmount(categories[0]) && IsAmount(categories[1]) && IsAmount(categories[2]);
    ok := total == Number(w.earned).value;
  }

  method ValidateAttribution(w: Window, pool: string) returns (ok: bool)
    ensures ok == AttributionOk(w, pool)
  {
    for j := 0 to |w.sources|
      invariant forall k :: 0 <= k < j ==> SourceOk(w.sources[k], pool, w.period)
    {
      var s := w.sources[j];
      if s.pool != pool || s.source == "" || s.round < w.period.start || s.round > w.period.end
          || s.inclusionDigest == "" || s.workDigest == "" {
        assert !SourceOk(w.sources[j], pool, w.period);
        return false;
      }
    }
    for j := 0 to |w.payments|
      invariant forall k :: 0 <= k < j ==> w.payments[k] == pool
    {
      if w.payments[j] != pool {
        return false;
      }
    }
    ok := true;
  }

  function SeenIds(ws: seq<Window>): set<string> { set w | w in ws :: w.id }

  function SeenPeriods(ws: seq<Window>): set<string> { set w | w in ws :: PeriodKey(w.period) }

  /** One window against the identities and text periods seen before it. */
  method ValidateWindow(w: Window, pool: string, ids: set<string>, periods: set<string>) returns (ok: bool)
    ensures ok <==> WindowOk(w, pool) && w.id !in ids && PeriodKey(w.period) !in periods
  {
    if w.pool != pool || w.id == "" || w.id in ids || PeriodKey(w.period) in periods || w.period.chain == 0
        || w.period.asset == ""
       || w.period.start > w.period.end || w.termsVersion == "" || w.sources == [] {
      return false;
    }
    ok := ValidateAmounts(w);
    if !ok {
      return;
    }
    ok := ValidateAttribution(w, pool);
  }

  /** The loop over a report's windows, with the identities and text periods seen so far. */
  method Validate(r: Report, pool: string, wallet: string) returns (ok: bool)
    ensures ok <==> ReportOk(r, pool, wallet)
  {
    hide WindowOk, PeriodKey;
    if r.pool != pool || r.wallet != wallet || !r.observed {
      return false;
    }
    var ids: set<string>, periods: set<string> := {}, {};
    var i := 0;
    while i < |r.windows|
      invariant 0 <= i <= |r.windows|
      invariant ids == SeenIds(r.windows[..i]) && periods == SeenPeriods(r.windows[..i])
      invariant forall j :: 0 <= j < i ==> WindowOk(r.windows[j], pool)
      invariant DistinctWindows(r.windows[..i])
    {
      SeenOneMore(r.windows, i);
      ok := ValidateWindow(r.windows[i], pool, ids, periods);
      if !ok {
        return;
      }
      ids, periods := ids + {r.windows[i].id}, periods + {PeriodKey(r.windows[i].period)};
      i := i + 1;
    }
    assert r.windows[..i] == r.windows;
    ok := true;
  }

  /** The seen sets, kept as text, tell exactly whether the next window repeats an identity or a period. */
  lemma SeenOneMore(ws: seq<Window>, i: nat)
    requires i < |ws| && DistinctWindows(ws[..i])
    ensures SeenIds(ws[..i + 1]) == SeenIds(ws[..i]) + {ws[i].id}
    ensures SeenPeriods(ws[..i + 1]) == SeenPeriods(ws[..i]) + {PeriodKey(ws[i].period)}
    ensures ws[i].id in SeenIds(ws[..i]) || PeriodKey(ws[i].period) in SeenPeriods(ws[..i]) ==> !DistinctWindows(ws)
    ensures ws[i].id !in SeenIds(ws[..i]) && PeriodKey(ws[i].period) !in SeenPeriods(ws[..i]) ==>
              DistinctWindows(ws[..i + 1])
  {
    assert ws[..i + 1] == ws[..i] + [ws[i]];
    forall w | w in ws[..i]
      ensures PeriodKey(w.period) == PeriodKey(ws[i].period) <==> w.period == ws[i].period
    {
      KeysAreInjective(w.period, ws[i].period);
    }
    if w :| w in ws[..i] && (w.id == ws[i].id || w.period == ws[i].period) {
      RepeatIsNotDistinct(ws, i, w);
    } else {
      OneMoreDistinct(ws, i);
    }
  }

  lemma RepeatIsNotDistinct(ws: seq<Window>, i: nat, w: Window)
    requires i < |ws| && w in ws[..i] && (w.id == ws[i].id || w.period == ws[i].period)
    ensures !DistinctWindows(ws)
  {
    var j :| 0 <= j < i && ws[j] == w;
  }

  lemma OneMoreDistinct(ws: seq<Window>, i: nat)
    requires i < |ws| && DistinctWindows(ws[..i])
    requires forall w :: w in ws[..i] ==> w.id != ws[i].id && w.period != ws[i].period
    ensures DistinctWindows(ws[..i + 1])
  {
    var more := ws[..i + 1];
    forall a, b | 0 <= a < b < |more|
      ensures more[a].id != more[b].id && more[a].period != more[b].period
    {
      assert more[a] == ws[..i][a];
      assert b < i ==> ws[..i][a].id != ws[..i][b].id && ws[..i][a].period != ws[..i][b].period;
    }
  }
}
