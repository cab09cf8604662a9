/** Reference counting of historical rewards: a record is referenced by the validator's current period, by every
    live delegation that started from it, and by every slash event that ended it. */
module ReferenceCounts {
  import opened Results
  import opened Money
  import opened Distribution

  ghost function StartedAt(s: Distr, live: set<Delegation>, p: Period): set<Delegation> {
    set k | k in live && k in s.starting && k.validator == p.validator && s.starting[k].period == p.number
  }

  ghost function SlashedAt(s: Distr, p: Period): set<SlashKey> {
    set e | e in s.slashes && e.validator == p.validator && e.period == p.number
  }

  ghost function References(s: Distr, live: set<Delegation>, p: Period): nat {
    (if p == LastClosed(s, p.validator) then 1 else 0) + |StartedAt(s, live, p)| + |SlashedAt(s, p)|
  }

  function Count(h: Records, p: Period): nat {
    HistoricalOf(h, p).references
  }

  ghost predicate Ordered(s: Distr, live: set<Delegation>) {
    && (forall v :: v in s.current ==> s.current[v].period >= 1)
    && (forall k :: k in live ==> k in s.starting && k.validator in s.current
                                  && s.starting[k].period < s.current[k.validator].period)
    && (forall e :: e in s.slashes ==> e.validator in s.current && e.period < s.current[e.validator].period)
  }

  /** A record exists only for a validator of the store and only while it is referenced. */
  ghost predicate Referenced(h: Records, validators: set<Addr>) {
    forall p :: p in h ==> p.validator in validators && h[p].references > 0
  }

  ghost predicate Exact(s: Distr, live: set<Delegation>) {
    forall p: Period :: p.validator in s.current ==> Count(s.historical, p) == References(s, live, p)
  }

  /** Every count is exact.  `live` are the delegations whose starting records are in force. */
  ghost predicate Counted(s: Distr, live: set<Delegation>) {
    Ordered(s, live) && Referenced(s.historical, s.current.Keys) && Exact(s, live)
  }

  // ---------------------------------------------------------------- what each operation does to the records

  ghost predicate CountsDrop(h: Records, g: Records, at: Period) {
    forall p :: Count(g, p) == if p == at then Count(h, p) - 1 else Count(h, p)
  }

  ghost predicate CountsRise(h: Records, g: Records, at: Period) {
    forall p :: Count(g, p) == if p == at then Count(h, p) + 1 else Count(h, p)
  }

  // `next` has one reference, and `last` one less.
  ghost predicate CountsMove(h: Records, g: Records, last: Period, next: Period) {
    forall p :: Count(g, p) == if p == next then 1 else if p == last then Count(h, p) - 1 else Count(h, p)
  }

  /** The current period of `v` was closed: one reference moved from the last closed record to a new one. */
  ghost predicate Advanced(s: Distr, t: Distr, v: Addr) {
    && v in s.current
    && t.starting == s.starting && t.slashes == s.slashes
    && t.current == s.current[v := Current(ZERO, s.current[v].period + 1)]
    && (Referenced(s.historical, s.current.Keys) ==> Referenced(t.historical, s.current.Keys))
    && Count(s.historical, LastClosed(s, v)) >= 1
    && CountsMove(s.historical, t.historical, LastClosed(s, v), Period(v, s.current[v].period))
  }

  /** Delegation `k` gave up the reference it started from. */
  ghost predicate Released(s: Distr, t: Distr, k: Delegation) {
    && k in s.starting
    && t.starting == s.starting - {k} && t.slashes == s.slashes && t.current == s.current
    && (Referenced(s.historical, s.current.Keys) ==> Referenced(t.historical, s.current.Keys))
    && var p0 := Period(k.validator, s.starting[k].period);
       Count(s.historical, p0) >= 1 && CountsDrop(s.historical, t.historical, p0)
  }

  /** Delegation `k` now starts from the last closed record. */
  ghost predicate Started(s: Distr, t: Distr, k: Delegation) {
    && t.slashes == s.slashes && t.current == s.current
    && k in t.starting && t.starting == s.starting[k := t.starting[k]]
    && (Referenced(s.historical, s.current.Keys) && k.validator in s.current ==>
         Referenced(t.historical, s.current.Keys))
    && var p0 := LastClosed(s, k.validator);
       t.starting[k].period == p0.number && CountsRise(s.historical, t.historical, p0)
  }

  lemma DropEffect(h: Records, p0: Period, validators: set<Addr>)
    requires Count(h, p0) >= 1
    ensures var r := DropReference(h, p0);
            r.Some? && (Referenced(h, validators) ==> Referenced(r.value, validators))
            && CountsDrop(h, r.value, p0)
  {
  }

  lemma CloseRecordEffect(h: Records, last: Period, next: Period, gain: Amounts, validators: set<Addr>)
    requires Count(h, last) >= 1 && last != next && next.validator in validators
    ensures var r := CloseRecord(h, last, next, gain);
            r.Some? && (Referenced(h, validators) ==> Referenced(r.value, validators))
            && CountsMove(h, r.value, last, next)
  {
    DropEffect(h, last, validators);
  }

  lemma IncrementAdvances(s: Distr, view: View, v: Addr)
    requires v in s.current && s.current[v].period >= 1 && Count(s.historical, LastClosed(s, v)) >= 1
    requires Leq(s.current[v].rewards, OutstandingOf(s, v))
    ensures IncrementPeriod(s, view, v).Some? && Advanced(s, IncrementPeriod(s, view, v).value, v)
  {
    var tokens := view.tokens(v);
    var gain := if tokens == 0 then ZERO else Quotient(s.current[v].rewards, tokens);
    CloseRecordEffect(s.historical, LastClosed(s, v), Period(v, s.current[v].period), gain, s.current.Keys);
  }

  lemma CloseReleases(s: Distr, k: Delegation)
    requires k in s.starting && Count(s.historical, Period(k.validator, s.starting[k].period)) >= 1
    ensures CloseDelegation(s, k).Some? && Released(s, CloseDelegation(s, k).value, k)
  {
    DropEffect(s.historical, Period(k.validator, s.starting[k].period), s.current.Keys);
  }

  lemma InitializeStarts(s: Distr, view: View, k: Delegation)
    requires Count(s.historical, LastClosed(s, k.validator)) <= 2
    ensures InitializeDelegation(s, view, k).Some? && Started(s, InitializeDelegation(s, view, k).value, k)
  {
  }

  // ---------------------------------------------------------------- and to the counts

  lemma AdvancedSets(s: Distr, t: Distr, v: Addr, live: set<Delegation>, p: Period)
    requires Ordered(s, live) && Advanced(s, t, v)
    ensures StartedAt(t, live, p) == StartedAt(s, live, p) && SlashedAt(t, p) == SlashedAt(s, p)
    ensures p == Period(v, s.current[v].period) ==> StartedAt(s, live, p) == {} && SlashedAt(s, p) == {}
  {
  }

  lemma AdvancedKeepsCount(s: Distr, t: Distr, v: Addr, live: set<Delegation>, p: Period)
    requires Ordered(s, live) && Advanced(s, t, v) && Count(s.historical, p) == References(s, live, p)
    ensures Count(t.historical, p) == References(t, live, p)
  {
    AdvancedSets(s, t, v, live, p);
    hide StartedAt, SlashedAt, Ordered;
  }

  lemma ReleasedSets(s: Distr, t: Distr, k: Delegation, live: set<Delegation>, p: Period)
    requires k in live && Released(s, t, k)
    ensures StartedAt(t, live - {k}, p) == StartedAt(s, live, p) - {k} && SlashedAt(t, p) == SlashedAt(s, p)
    ensures k in StartedAt(s, live, p) <==> p == Period(k.validator, s.starting[k].period)
  {
  }

  lemma ReleasedKeepsCount(s: Distr, t: Distr, k: Delegation, live: set<Delegation>, p: Period)
    requires k in live && Released(s, t, k) && Count(s.historical, p) == References(s, live, p)
    ensures Count(t.historical, p) == References(t, live - {k}, p)
  {
    ReleasedSets(s, t, k, live, p);
  }

  lemma StartedSets(s: Distr, t: Distr, k: Delegation, live: set<Delegation>, p: Period)
    requires k !in live && Started(s, t, k)
    ensures StartedAt(t, live + {k}, p) == StartedAt(s, live, p) + if p == LastClosed(s, k.validator) then {k} else {}
    ensures k !in StartedAt(s, live, p) && SlashedAt(t, p) == SlashedAt(s, p)
  {
  }

  lemma StartedKeepsCount(s: Distr, t: Distr, k: Delegation, live: set<Delegation>, p: Period)
    requires k !in live && Started(s, t, k) && Count(s.historical, p) == References(s, live, p)
    ensures Count(t.historical, p) == References(t, live + {k}, p)
  {
    StartedSets(s, t, k, live, p);
  }

  lemma AdvancedKeepsOrder(s: Distr, t: Distr, v: Addr, live: set<Delegation>)
    requires Ordered(s, live) && Advanced(s, t, v)
    ensures Ordered(t, live) && LastClosed(t, v) == Period(v, s.current[v].period)
  {
  }

  lemma AdvancedKeepsCounts(s: Distr, t: Distr, v: Addr, live: set<Delegation>)
    requires Counted(s, live) && Advanced(s, t, v)
    ensures Counted(t, live) && Count(t.historical, LastClosed(t, v)) == 1
  {
    AdvancedKeepsOrder(s, t, v, live);
    forall p: Period | p.validator in t.current ensures Count(t.historical, p) == References(t, live, p) {
      AdvancedKeepsCount(s, t, v, live, p);
    }
  }

  lemma ReleasedKeepsCounts(s: Distr, t: Distr, k: Delegation, live: set<Delegation>)
    requires Counted(s, live) && k in live && Released(s, t, k)
    ensures Counted(t, live - {k})
  {
    forall p: Period | p.validator in t.current ensures Count(t.historical, p) == References(t, live - {k}, p) {
      ReleasedKeepsCount(s, t, k, live, p);
    }
  }

  lemma StartedKeepsOrder(s: Distr, t: Distr, k: Delegation, live: set<Delegation>)
    requires Ordered(s, live) && k.validator in s.current && Started(s, t, k)
    ensures Ordered(t, live + {k})
  {
  }

  lemma StartedKeepsCounts(s: Distr, t: Distr, k: Delegation, live: set<Delegation>)
    requires Counted(s, live) && k !in live && k.validator in s.current && Started(s, t, k)
    ensures Counted(t, live + {k})
  {
    StartedKeepsOrder(s, t, k, live);
    forall p: Period | p.validator in t.current ensures Count(t.historical, p) == References(t, live + {k}, p) {
      StartedKeepsCount(s, t, k, live, p);
    }
  }

  // ---------------------------------------------------------------- the sum over a validator's records

  function TotalReferences(s: Distr, v: Addr, upTo: nat): nat {
    if upTo == 0 then 0 else TotalReferences(s, v, upTo - 1) + Count(s.historical, Period(v, upTo - 1))
  }

  ghost function DelegationsOf(live: set<Delegation>, v: Addr): set<Delegation> {
    set k | k in live && k.validator == v
  }

  ghost function SlashesOf(s: Distr, v: Addr): set<SlashKey> {
    set e | e in s.slashes && e.validator == v
  }

  ghost function StartedBelow(s: Distr, live: set<Delegation>, v: Addr, n: nat): set<Delegation> {
    set k | k in live && k in s.starting && k.validator == v && s.starting[k].period < n
  }

  ghost function SlashedBelow(s: Distr, v: Addr, n: nat): set<SlashKey> {
    set e | e in s.slashes && e.validator == v && e.period < n
  }

  lemma BelowStep(s: Distr, live: set<Delegation>, v: Addr, n: nat)
    requires Ordered(s, live)
    ensures |StartedBelow(s, live, v, n + 1)| == |StartedBelow(s, live, v, n)| + |StartedAt(s, live, Period(v, n))|
    ensures |SlashedBelow(s, v, n + 1)| == |SlashedBelow(s, v, n)| + |SlashedAt(s, Period(v, n))|
  {
    var p := Period(v, n);
    assert StartedBelow(s, live, v, n + 1) == StartedBelow(s, live, v, n) + StartedAt(s, live, p);
    assert StartedBelow(s, live, v, n) !! StartedAt(s, live, p);
    assert SlashedBelow(s, v, n + 1) == SlashedBelow(s, v, n) + SlashedAt(s, p);
    assert SlashedBelow(s, v, n) !! SlashedAt(s, p);
  }

  lemma NothingBelowZero(s: Distr, live: set<Delegation>, v: Addr)
    ensures |StartedBelow(s, live, v, 0)| == 0 && |SlashedBelow(s, v, 0)| == 0
  {
    assert StartedBelow(s, live, v, 0) == {} && SlashedBelow(s, v, 0) == {};
  }

  lemma {:induction false} TotalBelow(s: Distr, live: set<Delegation>, v: Addr, n: nat)
    requires Counted(s, live) && v in s.current && n <= s.current[v].period
    ensures TotalReferences(s, v, n)
         == (if n == s.current[v].period then 1 else 0) + |StartedBelow(s, live, v, n)| + |SlashedBelow(s, v, n)|
  {
    hide StartedBelow, SlashedBelow, StartedAt, SlashedAt, Referenced;
    if n == 0 {
      NothingBelowZero(s, live, v);
    } else {
      TotalBelow(s, live, v, n - 1);
      BelowStep(s, live, v, n - 1);
      assert Count(s.historical, Period(v, n - 1)) == References(s, live, Period(v, n - 1));
    }
  }

  /** The distribution module's own reference-count invariant, for each validator: its records are all below the
      current period, and their counts total one plus its delegations plus its slash events. */
  lemma ReferenceCount(s: Distr, live: set<Delegation>, v: Addr)
    requires Counted(s, live) && v in s.current
    ensures TotalReferences(s, v, s.current[v].period) == 1 + |DelegationsOf(live, v)| + |SlashesOf(s, v)|
    ensures forall p :: p in s.historical && p.validator == v ==> p.number < s.current[v].period
  {
    var n := s.current[v].period;
    TotalBelow(s, live, v, n);
    assert StartedBelow(s, live, v, n) == DelegationsOf(live, v);
    assert SlashedBelow(s, v, n) == SlashesOf(s, v);
    forall p | p in s.historical && p.validator == v ensures p.number < n {
      assert Count(s.historical, p) == References(s, live, p);
      assert p.number >= n ==> StartedAt(s, live, p) == {} && SlashedAt(s, p) == {};
    }
  }

  /** The delegation has a starting record, and the historical record it names is there and referenced. */
  predicate Alive(s: Distr, k: Delegation) {
    && k in s.starting
    && Period(k.validator, s.starting[k].period) in s.historical
    && s.historical[Period(k.validator, s.starting[k].period)].references > 0
  }

  lemma StartIsAlive(s: Distr, live: set<Delegation>, k: Delegation)
    requires Counted(s, live) && k in live
    ensures Alive(s, k)
  {
    var p := Period(k.validator, s.starting[k].period);
    assert Count(s.historical, p) == References(s, live, p);
    assert k in StartedAt(s, live, p);
  }

  // ---------------------------------------------------------------- cumulative ratios

  /** The cumulative ratio of a validator never goes down from one of its records to a later one. */
  ghost predicate Accrued(h: Records) {
    forall p, q :: p in h && q in h && p.validator == q.validator && p.number <= q.number ==>
      Leq(h[p].ratio, h[q].ratio)
  }

  ghost predicate RatiosKept(h: Records, g: Records) {
    forall p :: p in g ==> p in h && g[p].ratio == h[p].ratio
  }

  lemma RatiosKeptAccrued(h: Records, g: Records)
    requires Accrued(h) && RatiosKept(h, g)
    ensures Accrued(g)
  {
    hide Leq;
  }

  lemma DropKeepsRatios(h: Records, p: Period)
    requires DropReference(h, p).Some?
    ensures RatiosKept(h, DropReference(h, p).value)
  {
  }

  lemma AddKeepsRatios(h: Records, p: Period)
    requires p in h && AddReference(h, p).Some?
    ensures RatiosKept(h, AddReference(h, p).value)
  {
  }

  lemma SumExceeds(a: Amounts, b: Amounts)
    ensures Leq(a, Add(a, b))
  {
  }

  lemma LeqTrans(a: Amounts, b: Amounts, c: Amounts)
    requires Leq(a, b) && Leq(b, c)
    ensures Leq(a, c)
  {
    forall d ensures Amt(a, d) <= Amt(c, d) {
      assert Amt(a, d) <= Amt(b, d) && Amt(b, d) <= Amt(c, d);
    }
  }

  /** The record of a period just closed has the greatest ratio. */
  lemma CloseRecordAccrues(h: Records, last: Period, next: Period, gain: Amounts)
    requires Accrued(h) && last in h && CloseRecord(h, last, next, gain).Some?
    requires last.validator == next.validator && last.number < next.number
    requires forall p :: p in h && p.validator == last.validator ==> p.number <= last.number
    ensures Accrued(CloseRecord(h, last, next, gain).value)
  {
    DropKeepsRatios(h, last);
    var g, t := DropReference(h, last).value, CloseRecord(h, last, next, gain).value;
    SumExceeds(h[last].ratio, gain);
    hide DropReference, Leq;
    forall p, q | p in t && q in t && p.validator == q.validator && p.number <= q.number
      ensures Leq(t[p].ratio, t[q].ratio)
    {
      if p == q {
        LeqRefl(t[p].ratio);
      } else if q == next {
        assert p in g && p in h && Leq(h[p].ratio, h[last].ratio);
        LeqTrans(h[p].ratio, h[last].ratio, t[next].ratio);
      } else {
        assert p in h && q in h;
      }
    }
  }

  lemma LeqRefl(a: Amounts)
    ensures Leq(a, a)
  {
  }

  lemma RecordsBelow(s: Distr, live: set<Delegation>, v: Addr)
    requires Counted(s, live) && v in s.current
    ensures forall p :: p in s.historical && p.validator == v ==> p.number <= LastClosed(s, v).number
    ensures LastClosed(s, v) in s.historical && LastClosed(s, v).number < s.current[v].period
  {
    hide TotalReferences, DelegationsOf, SlashesOf;
    ReferenceCount(s, live, v);
    assert Count(s.historical, LastClosed(s, v)) == References(s, live, LastClosed(s, v));
  }
}
