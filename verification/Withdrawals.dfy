/** The first two loops of the distribution phase: from a well-formed store every withdrawal finds the records it
    needs.  What is left is exact: which commissions are lost because the bank does not pay the validator, and which
    reward withdrawals panic, on the stake check or because the bank does not pay the delegator. */
module Withdrawals {
  import opened Results
  import opened Money
  import opened Distribution
  import opened ReferenceCounts
  import opened Funds

  function Elements<T>(xs: seq<T>): set<T> {
    set x | x in xs
  }

  /** The staking lists are keyed stores, and every delegation is to a stored validator. */
  ghost predicate Stored(view: View) {
    && Distinct(view.validators) && Distinct(view.delegations)
    && forall k :: k in view.delegations ==> k.validator in view.validators
  }

  ghost predicate Keyed(s: Distr, view: View) {
    && s.current.Keys == Elements(view.validators)
    && s.outstanding.Keys == Elements(view.validators)
    && s.commission.Keys == Elements(view.validators)
    && s.starting.Keys == Elements(view.delegations)
  }

  /** A validator's undistributed rewards are part of what it owes. */
  ghost predicate Funded(s: Distr, view: View) {
    forall v :: v in view.validators ==> Leq(CurrentOf(s, v).rewards, OutstandingOf(s, v))
  }

  /** ... and so is its commission, until rewards are drawn. */
  ghost predicate Backed(s: Distr, view: View) {
    forall v, d :: v in view.validators ==>
      Amt(CommissionOf(s, v), d) + Amt(CurrentOf(s, v).rewards, d) <= Amt(OutstandingOf(s, v), d)
  }

  /** What holds between any two withdrawals. */
  ghost predicate Running(s: Distr, view: View) {
    && Stored(view) && Keyed(s, view)
    && Counted(s, s.starting.Keys) && Accrued(s.historical) && Funded(s, view) && Covered(s, view.validators)
  }

  /** The store the export starts from. */
  ghost predicate WellFormed(s: Distr, view: View) {
    Running(s, view) && Backed(s, view)
  }

  lemma SameFundsRefl(s: Distr, vs: seq<Addr>)
    ensures SameFunds(s, s, vs)
  {
  }

  lemma SameFundsTrans(s: Distr, t: Distr, u: Distr, vs: seq<Addr>)
    requires SameFunds(s, t, vs) && SameFunds(t, u, vs)
    ensures SameFunds(s, u, vs)
  {
    forall d ensures Worth(u, vs, d) == Worth(s, vs, d) && Bank(u, d) == Bank(s, d) {
      assert Worth(t, vs, d) == Worth(s, vs, d) && Bank(t, d) == Bank(s, d);
    }
  }

  lemma SameIsNoMore(s: Distr, t: Distr, vs: seq<Addr>)
    requires SameFunds(s, t, vs)
    ensures NoMoreFunds(s, t, vs)
  {
  }

  lemma SameKeepsCovered(s: Distr, t: Distr, vs: seq<Addr>)
    requires SameFunds(s, t, vs) && Covered(s, vs)
    ensures Covered(t, vs)
  {
    hide SameFunds, NoMoreFunds, Covered;
    SameIsNoMore(s, t, vs);
    CoveredKept(s, t, vs);
  }

  lemma SameMoney(s: Distr, t: Distr, vs: seq<Addr>)
    requires t.pool == s.pool && t.account == s.account && t.payouts == s.payouts && t.outstanding == s.outstanding
    ensures SameFunds(s, t, vs)
  {
  }

  lemma SameRecordsCounted(s: Distr, t: Distr, live: set<Delegation>)
    requires Counted(s, live)
    requires t.historical == s.historical && t.current == s.current
    requires t.starting == s.starting && t.slashes == s.slashes
    ensures Counted(t, live)
  {
    forall p: Period | p.validator in t.current ensures Count(t.historical, p) == References(t, live, p) {
      assert Count(s.historical, p) == References(s, live, p);
      assert StartedAt(t, live, p) == StartedAt(s, live, p) && SlashedAt(t, p) == SlashedAt(s, p);
    }
  }

  // ---------------------------------------------------------------- commission

  /** Only the commission and outstanding rewards of `v` changed among the records, and by the same amount. */
  ghost predicate CommissionTaken(s: Distr, t: Distr, v: Addr) {
    && t.starting == s.starting && t.historical == s.historical && t.current == s.current && t.slashes == s.slashes
    && t.blocked == s.blocked
    && v in s.commission && v in t.commission && t.commission == s.commission[v := t.commission[v]]
    && v in s.outstanding && v in t.outstanding && t.outstanding == s.outstanding[v := t.outstanding[v]]
    && forall d :: Amt(s.outstanding[v], d) - Amt(t.outstanding[v], d)
                == Amt(s.commission[v], d) - Amt(t.commission[v], d)
  }

  lemma WholeFits(a: Amounts, b: Amounts)
    requires Leq(a, b)
    ensures Leq(Decimal(Whole(a)), b)
  {
    forall d ensures Amt(Decimal(Whole(a)), d) <= Amt(b, d) {
      assert Amt(a, d) == Units(WholePart(Amt(a, d))) + FractionPart(Amt(a, d)) && Amt(a, d) <= Amt(b, d);
    }
  }

  lemma ReduceEffect(s: Distr, v: Addr)
    requires v in s.commission && v in s.outstanding && Leq(Decimal(Whole(s.commission[v])), s.outstanding[v])
    ensures CommissionTaken(s, ReduceCommission(s, v), v)
  {
    var due, out := s.commission[v], s.outstanding[v];
    forall d ensures Amt(out, d) - Amt(Sub(out, Decimal(Whole(due))), d) == Amt(due, d) - Amt(Fraction(due), d) {
      assert Amt(due, d) == Units(WholePart(Amt(due, d))) + FractionPart(Amt(due, d));
    }
  }

  lemma NothingTaken(s: Distr, v: Addr)
    requires v in s.commission && v in s.outstanding
    ensures CommissionTaken(s, s, v)
  {
    assert s.commission == s.commission[v := s.commission[v]];
    assert s.outstanding == s.outstanding[v := s.outstanding[v]];
  }

  lemma CommissionEffect(s: Distr, v: Addr)
    requires v in s.commission && v in s.outstanding && Leq(s.commission[v], s.outstanding[v])
    ensures AfterCommission(s, v).Some? && CommissionTaken(s, AfterCommission(s, v).value, v)
  {
    var due := CommissionOf(s, v);
    WholeFits(due, OutstandingOf(s, v));
    CommissionCases(s, v);
    ReduceEffect(s, v);
    NothingTaken(s, v);
    hide WithdrawCommission, CommissionTaken, ReduceCommission, Pay, Payable, Leq, Whole, Decimal, IsZero, CommissionOf,
      OutstandingOf;
    if !IsZero(due) && Payable(s, v, Whole(due)) {
      PayKeepsTaken(s, ReduceCommission(s, v), v, Whole(due));
    }
  }

  lemma PayKeepsTaken(s: Distr, s1: Distr, v: Addr, coins: Amounts)
    requires CommissionTaken(s, s1, v) && Payable(s1, v, coins)
    ensures CommissionTaken(s, Pay(s1, v, v, coins), v)
  {
    PayKeeps(s1, v, v, coins);
    hide Pay, Payable;
  }

  lemma CommissionTakenKeeps(s: Distr, t: Distr, view: View, v: Addr)
    requires Backed(s, view) && Keyed(s, view) && v in view.validators && CommissionTaken(s, t, v)
    ensures Backed(t, view) && Keyed(t, view)
  {
    assert v in Elements(view.validators);
    forall w, d | w in view.validators
      ensures Amt(CommissionOf(t, w), d) + Amt(CurrentOf(t, w).rewards, d) <= Amt(OutstandingOf(t, w), d)
    {
      CommissionTakenAt(s, t, v, w, d);
      assert Amt(CommissionOf(s, w), d) + Amt(CurrentOf(s, w).rewards, d) <= Amt(OutstandingOf(s, w), d);
    }
  }

  lemma CommissionTakenAt(s: Distr, t: Distr, v: Addr, w: Addr, d: Denom)
    requires CommissionTaken(s, t, v)
    ensures CurrentOf(t, w) == CurrentOf(s, w)
    ensures Amt(OutstandingOf(s, w), d) - Amt(OutstandingOf(t, w), d)
         == Amt(CommissionOf(s, w), d) - Amt(CommissionOf(t, w), d)
  {
  }

  lemma BackedIsFunded(s: Distr, view: View)
    requires Backed(s, view)
    ensures Funded(s, view)
    ensures forall v :: v in view.validators ==> Leq(CommissionOf(s, v), OutstandingOf(s, v))
  {
    forall v, d | v in view.validators
      ensures Amt(CurrentOf(s, v).rewards, d) <= Amt(OutstandingOf(s, v), d)
      ensures Amt(CommissionOf(s, v), d) <= Amt(OutstandingOf(s, v), d)
    {
      assert Amt(CommissionOf(s, v), d) + Amt(CurrentOf(s, v).rewards, d) <= Amt(OutstandingOf(s, v), d);
    }
  }

  /** From an account that covers what is accounted for, an unblocked validator is always paid. */
  lemma CommissionSent(s: Distr, v: Addr, vs: seq<Addr>)
    requires Distinct(vs) && v in vs && Covered(s, vs)
    requires v !in s.blocked && Leq(CommissionOf(s, v), OutstandingOf(s, v))
    ensures AfterCommission(s, v).Some? && SameFunds(s, AfterCommission(s, v).value, vs)
    ensures Payable(s, v, Whole(CommissionOf(s, v)))
  {
    hide SameFunds, AfterCommission, Covered, Distinct;
    WholeFits(CommissionOf(s, v), OutstandingOf(s, v));
    CoveredPays(s, v, vs, CommissionOf(s, v));
    CommissionConserves(s, v, vs);
  }

  /** Of a blocked one the whole coins of commission are lost, and nothing else. */
  lemma CommissionLoses(s: Distr, v: Addr, vs: seq<Addr>)
    requires Distinct(vs) && v in vs && Covered(s, vs) && Leq(CommissionOf(s, v), OutstandingOf(s, v))
    ensures AfterCommission(s, v).Some? && OnlyLost(s, AfterCommission(s, v).value, vs, [v])
  {
    hide AfterCommission, Covered, Covers, Distinct, Worth, Bank, Leq, Loss;
    WholeFits(CommissionOf(s, v), OutstandingOf(s, v));
    CoveredPays(s, v, vs, CommissionOf(s, v));
    CommissionConserves(s, v, vs);
    forall d ensures Worth(AfterCommission(s, v).value, vs, d) + Units(Lost(s, [v], d)) == Worth(s, vs, d)
    ensures Bank(AfterCommission(s, v).value, d) == Bank(s, d)
    {
      CommissionLosesAt(s, v, vs, d);
      assert [v][..0] == [] && Lost(s, [], d) == 0;
    }
  }

  lemma LostIsNoMore(s: Distr, t: Distr, all: seq<Addr>, vs: seq<Addr>)
    requires OnlyLost(s, t, all, vs)
    ensures NoMoreFunds(s, t, all)
  {
    hide Lost, Worth, Bank;
  }

  lemma NothingLost(s: Distr, vs: seq<Addr>)
    ensures OnlyLost(s, s, vs, [])
  {
  }

  /** What a run loses adds up, as long as the commissions still to come are as they were. */
  lemma LostSnoc(s: Distr, t: Distr, u: Distr, all: seq<Addr>, vs: seq<Addr>, v: Addr)
    requires OnlyLost(s, t, all, vs) && OnlyLost(t, u, all, [v])
    requires t.blocked == s.blocked && CommissionOf(t, v) == CommissionOf(s, v)
    ensures OnlyLost(s, u, all, vs + [v])
  {
    hide Worth, Bank, CommissionOf;
    forall d ensures Worth(u, all, d) + Units(Lost(s, vs + [v], d)) == Worth(s, all, d) && Bank(u, d) == Bank(s, d) {
      assert (vs + [v])[..|vs|] == vs && [v][..0] == [];
      assert Lost(t, [v], d) == Loss(t, v, d) == Loss(s, v, d);
      assert Worth(t, all, d) + Units(Lost(s, vs, d)) == Worth(s, all, d) && Bank(t, d) == Bank(s, d);
      assert Worth(u, all, d) + Units(Lost(t, [v], d)) == Worth(t, all, d) && Bank(u, d) == Bank(t, d);
    }
  }

  lemma LostThenSame(s: Distr, t: Distr, u: Distr, all: seq<Addr>, vs: seq<Addr>)
    requires OnlyLost(s, t, all, vs) && SameFunds(t, u, all)
    ensures OnlyLost(s, u, all, vs)
  {
    hide Worth, Bank, Lost;
    forall d ensures Worth(u, all, d) + Units(Lost(s, vs, d)) == Worth(s, all, d) && Bank(u, d) == Bank(s, d) {
      assert Worth(t, all, d) + Units(Lost(s, vs, d)) == Worth(s, all, d) && Bank(t, d) == Bank(s, d);
    }
  }

  lemma CommissionTakenRuns(s: Distr, t: Distr, view: View, v: Addr)
    requires WellFormed(s, view) && v in view.validators
    requires CommissionTaken(s, t, v) && NoMoreFunds(s, t, view.validators)
    ensures WellFormed(t, view)
    ensures t.starting == s.starting && t.slashes == s.slashes && t.blocked == s.blocked
    ensures forall w :: w != v ==> CommissionOf(t, w) == CommissionOf(s, w)
  {
    hide NoMoreFunds, Covered, Counted, Accrued, Backed, Funded, Keyed;
    CommissionTakenKeeps(s, t, view, v);
    BackedIsFunded(t, view);
    CoveredKept(s, t, view.validators);
    SameRecordsCounted(s, t, s.starting.Keys);
  }

  lemma CommissionStep(s: Distr, view: View, v: Addr)
    requires WellFormed(s, view) && v in view.validators
    ensures var r := AfterCommission(s, v);
            r.Some? && WellFormed(r.value, view) && OnlyLost(s, r.value, view.validators, [v])
            && r.value.starting == s.starting && r.value.slashes == s.slashes && r.value.blocked == s.blocked
            && forall w :: w != v ==> CommissionOf(r.value, w) == CommissionOf(s, w)
  {
    hide AfterCommission, NoMoreFunds, OnlyLost, Covered, Counted, Accrued, Backed, Funded, Leq, CommissionTaken;
    assert v in Elements(view.validators);
    BackedIsFunded(s, view);
    CommissionEffect(s, v);
    CommissionLoses(s, v, view.validators);
    var t := AfterCommission(s, v).value;
    LostIsNoMore(s, t, view.validators, [v]);
    CommissionTakenRuns(s, t, view, v);
  }

  /** The commission loop never panics and keeps the store well-formed, but the whole coins of commission of blocked
      validators are gone from the accounts. */
  lemma {:induction false} CommissionRun(s: Distr, view: View, vs: seq<Addr>)
    requires WellFormed(s, view) && Distinct(vs) && forall v :: v in vs ==> v in view.validators
    ensures var r := WithdrawAllCommission(s, vs);
            r.Some? && WellFormed(r.value, view) && OnlyLost(s, r.value, view.validators, vs)
            && r.value.starting == s.starting && r.value.slashes == s.slashes && r.value.blocked == s.blocked
            && forall w :: w !in vs ==> CommissionOf(r.value, w) == CommissionOf(s, w)
  {
    hide WellFormed, OnlyLost, AfterCommission, CommissionOf;
    if vs == [] {
      NothingLost(s, view.validators);
    } else {
      var init, last := vs[..|vs| - 1], vs[|vs| - 1];
      assert vs == init + [last] && last !in init;
      CommissionRun(s, view, init);
      var t := WithdrawAllCommission(s, init).value;
      CommissionStep(t, view, last);
      LostSnoc(s, t, AfterCommission(t, last).value, view.validators, init, last);
    }
  }

  // ---------------------------------------------------------------- rewards

  /** Closing a period touches the records of one validator only. */
  lemma IncrementFrame(s: Distr, view: View, v: Addr)
    requires IncrementPeriod(s, view, v).Some? && v in s.outstanding
    ensures var t := IncrementPeriod(s, view, v).value;
            t.commission == s.commission && v in t.current && t.blocked == s.blocked
            && v in t.outstanding && t.outstanding == s.outstanding[v := t.outstanding[v]]
  {
    hide Covers, Leq, Amt, Add, Sub, Quotient, CloseRecord, HistoricalOf, LastClosed;
    if view.tokens(v) > 0 {
      assert s.outstanding == s.outstanding[v := s.outstanding[v]];
    }
  }

  lemma IncrementRecords(s: Distr, view: View, v: Addr)
    requires IncrementPeriod(s, view, v).Some?
    ensures exists gain :: Some(IncrementPeriod(s, view, v).value.historical)
                        == CloseRecord(s.historical, LastClosed(s, v), Period(v, CurrentOf(s, v).period), gain)
  {
    hide Covers, Leq, Add, Sub, Quotient, CloseRecord, LastClosed, CurrentOf;
    var gain := if view.tokens(v) == 0 then ZERO else Quotient(CurrentOf(s, v).rewards, view.tokens(v));
    assert Some(IncrementPeriod(s, view, v).value.historical)
        == CloseRecord(s.historical, LastClosed(s, v), Period(v, CurrentOf(s, v).period), gain);
  }

  lemma IncrementRuns(s: Distr, view: View, v: Addr, live: set<Delegation>)
    requires Counted(s, live) && Accrued(s.historical) && v in s.current && v in view.validators
    requires Stored(view) && Funded(s, view) && Covered(s, view.validators)
    ensures var r := IncrementPeriod(s, view, v);
            r.Some? && Counted(r.value, live) && Accrued(r.value.historical) && Advanced(s, r.value, v)
            && Count(r.value.historical, LastClosed(r.value, v)) == 1
            && SameFunds(s, r.value, view.validators) && Covered(r.value, view.validators)
  {
    hide Accrued, Covered, SameFunds, IncrementPeriod, CloseRecord, Leq;
    var last := LastClosed(s, v);
    assert Count(s.historical, last) == References(s, live, last);
    IncrementAdvances(s, view, v);
    var t := IncrementPeriod(s, view, v).value;
    AdvancedKeepsCounts(s, t, v, live);
    IncrementAccrues(s, view, v, live);
    IncrementConserves(s, view, v, view.validators);
    SameKeepsCovered(s, t, view.validators);
  }

  lemma IncrementAccrues(s: Distr, view: View, v: Addr, live: set<Delegation>)
    requires Counted(s, live) && Accrued(s.historical) && v in s.current && IncrementPeriod(s, view, v).Some?
    ensures Accrued(IncrementPeriod(s, view, v).value.historical)
  {
    hide Accrued, IncrementPeriod, CloseRecord, Counted;
    RecordsBelow(s, live, v);
    IncrementRecords(s, view, v);
    var last, next := LastClosed(s, v), Period(v, CurrentOf(s, v).period);
    var gain :| Some(IncrementPeriod(s, view, v).value.historical) == CloseRecord(s.historical, last, next, gain);
    CloseRecordAccrues(s.historical, last, next, gain);
  }

  /** In a store with exact counts the calculation's only panic is the stake check. */
  lemma CalculateRuns(s: Distr, view: View, k: Delegation, live: set<Delegation>)
    requires Counted(s, live) && Accrued(s.historical) && k in live && k.validator in s.current
    ensures k in s.starting && (Calculate(s, view, k).Some? <==> Calculable(s, view, k))
  {
    var last := LastClosed(s, k.validator);
    StartIsAlive(s, live, k);
    RecordsBelow(s, live, k.validator);
    hide Counted, FinalStake, Leq, LastClosed;
    var start := Period(k.validator, s.starting[k].period);
    assert Leq(s.historical[start].ratio, s.historical[last].ratio);
  }

  lemma CalculableKept(s: Distr, t: Distr, view: View, k: Delegation)
    requires k in s.starting && k in t.starting && t.starting[k] == s.starting[k] && t.slashes == s.slashes
    ensures Calculable(t, view, k) <==> Calculable(s, view, k)
  {
  }

  /** Giving up the old start and taking the new one keeps the counts, once the period is closed. */
  lemma RestartRuns(s: Distr, view: View, k: Delegation, live: set<Delegation>)
    requires Counted(s, live) && Accrued(s.historical) && k in live && k.validator in s.current
    requires Count(s.historical, LastClosed(s, k.validator)) == 1
    ensures var r := CloseDelegation(s, k);
            r.Some? && var q := InitializeDelegation(r.value, view, k);
            q.Some? && Counted(q.value, live) && Accrued(q.value.historical) && k in q.value.starting
            && q.value == s.(historical := q.value.historical, starting := s.starting[k := q.value.starting[k]])
  {
    hide Counted, References, Accrued;
    StartIsAlive(s, live, k);
    CloseReleases(s, k);
    var s1 := CloseDelegation(s, k).value;
    ReleasedKeepsCounts(s, s1, k, live);
    StartRuns(s1, view, k, live - {k});
    assert live - {k} + {k} == live;
    var t := InitializeDelegation(s1, view, k).value;
    assert t.starting == s.starting[k := t.starting[k]];
    DropKeepsRatios(s.historical, Period(k.validator, s.starting[k].period));
    RatiosKeptAccrued(s.historical, s1.historical);
    RecordsBelow(s1, live - {k}, k.validator);
    AddKeepsRatios(s1.historical, LastClosed(s1, k.validator));
    RatiosKeptAccrued(s1.historical, t.historical);
  }

  lemma StartRuns(s: Distr, view: View, k: Delegation, live: set<Delegation>)
    requires Counted(s, live) && k !in live && k.validator in s.current
    requires Count(s.historical, LastClosed(s, k.validator)) <= 2
    ensures var q := InitializeDelegation(s, view, k);
            q.Some? && Counted(q.value, live + {k})
            && q.value == s.(historical := q.value.historical, starting := q.value.starting)
            && var start := Starting(LastClosed(s, k.validator).number, view.stake(k), view.height);
            q.value.starting == s.starting[k := start]
  {
    InitializeStarts(s, view, k);
    StartedKeepsCounts(s, InitializeDelegation(s, view, k).value, k, live);
  }

  /** Which records a withdrawal of rewards touches. */
  ghost predicate Withdrawn(s: Distr, t: Distr, k: Delegation) {
    var v := k.validator;
    && v in s.current && t.current == s.current[v := Current(ZERO, s.current[v].period + 1)]
    && t.commission == s.commission && t.slashes == s.slashes && t.blocked == s.blocked
    && k in t.starting && t.starting == s.starting[k := t.starting[k]]
    && v in t.outstanding && t.outstanding == s.outstanding[v := t.outstanding[v]]
  }

  lemma WithdrawnKeeps(s: Distr, t: Distr, view: View, k: Delegation)
    requires Stored(view) && Keyed(s, view) && Funded(s, view) && k in view.delegations && Withdrawn(s, t, k)
    ensures Keyed(t, view) && Funded(t, view) && t.starting.Keys == s.starting.Keys
  {
    assert k in Elements(view.delegations) && k.validator in Elements(view.validators);
    WithdrawnKeepsFunded(s, t, view, k);
    WithdrawnKeepsKeys(s, t, k);
    hide Funded, Stored, Elements, Withdrawn;
  }

  lemma WithdrawnKeepsKeys(s: Distr, t: Distr, k: Delegation)
    requires Withdrawn(s, t, k) && k in s.starting && k.validator in s.outstanding
    ensures t.current.Keys == s.current.Keys && t.starting.Keys == s.starting.Keys
    ensures t.commission.Keys == s.commission.Keys && t.outstanding.Keys == s.outstanding.Keys
  {
  }

  lemma WithdrawnKeepsFunded(s: Distr, t: Distr, view: View, k: Delegation)
    requires Funded(s, view) && Withdrawn(s, t, k)
    ensures Funded(t, view)
  {
    forall v | v in view.validators ensures Leq(CurrentOf(t, v).rewards, OutstandingOf(t, v)) {
      assert Leq(CurrentOf(s, v).rewards, OutstandingOf(s, v));
    }
  }

  /** The bank does not pay the delegator what it is due in its turn. */
  ghost predicate Refused(s: Distr, view: View, k: Delegation) {
    var r := IncrementPeriod(s, view, k.validator);
    k.delegator in s.blocked && r.Some? && k in r.value.starting && !IsZero(Whole(RewardDue(r.value, view, k)))
  }

  lemma RewardPayableIff(s: Distr, view: View, k: Delegation)
    requires k in s.starting && Distinct(view.validators) && k.validator in view.validators
    requires Covered(s, view.validators)
    ensures var coins := Whole(RewardDue(s, view, k));
            Payable(s, k.delegator, coins) <==> k.delegator !in s.blocked || IsZero(coins)
    ensures SettleReward(s, k, RewardDue(s, view, k)).Some? <==> Payable(s, k.delegator, Whole(RewardDue(s, view, k)))
  {
    hide Covered, Distinct, RewardDue, Whole, IsZero, Leq, Covers, Add, Sub, Fraction;
    CoveredPays(s, k.validator, view.validators, RewardDue(s, view, k));
  }

  lemma SettleRuns(s: Distr, view: View, k: Delegation, live: set<Delegation>)
    requires Counted(s, live) && k in s.starting && Distinct(view.validators) && k.validator in view.validators
    requires Covered(s, view.validators)
    requires k.delegator !in s.blocked || IsZero(Whole(RewardDue(s, view, k)))
    ensures var r := SettleReward(s, k, RewardDue(s, view, k));
            r.Some? && Counted(r.value, live) && SameFunds(s, r.value, view.validators)
            && k.validator in r.value.outstanding
            && r.value == s.(pool := r.value.pool, account := r.value.account, payouts := r.value.payouts,
                             outstanding := s.outstanding[k.validator := r.value.outstanding[k.validator]])
  {
    hide Covered, RewardDue, SameFunds, Counted, Leq, Whole, IsZero, Payable;
    var due := RewardDue(s, view, k);
    RewardPayableIff(s, view, k);
    SettleConserves(s, k, due, view.validators);
    PayKeeps(s, k.validator, k.delegator, Whole(due));
    SameRecordsCounted(s, SettleReward(s, k, due).value, live);
  }

  lemma RestartMovesNothing(s: Distr, view: View, k: Delegation)
    requires CloseDelegation(s, k).Some? && InitializeDelegation(CloseDelegation(s, k).value, view, k).Some?
    ensures var t := InitializeDelegation(CloseDelegation(s, k).value, view, k).value;
            t == s.(historical := t.historical, starting := t.starting)
  {
  }

  /** After the settlement a withdrawal only moves references. */
  lemma WithdrawalParts(s: Distr, view: View, k: Delegation)
    requires WithdrawRewards(s, view, k).Some?
    ensures IncrementPeriod(s, view, k.validator).Some? && k in s.starting
    ensures var s1, t := IncrementPeriod(s, view, k.validator).value, WithdrawRewards(s, view, k).value;
            var r := SettleReward(s1, k, RewardDue(s1, view, k));
            r.Some? && t == r.value.(historical := t.historical, starting := t.starting)
  {
    hide IncrementPeriod, SettleReward, RewardDue, Calculate, CloseDelegation, InitializeDelegation;
    var s1 := IncrementPeriod(s, view, k.validator).value;
    RestartMovesNothing(SettleReward(s1, k, RewardDue(s1, view, k)).value, view, k);
  }

  lemma WithdrawalFrame(s: Distr, s1: Distr, s2: Distr, t: Distr, k: Delegation)
    requires Advanced(s, s1, k.validator)
    requires s1.commission == s.commission && s1.blocked == s.blocked
    requires k.validator in s1.outstanding
    requires s1.outstanding == s.outstanding[k.validator := s1.outstanding[k.validator]]
    requires k.validator in s2.outstanding
    requires s2 == s1.(pool := s2.pool, account := s2.account, payouts := s2.payouts,
                       outstanding := s1.outstanding[k.validator := s2.outstanding[k.validator]])
    requires k in t.starting
    requires t == s2.(historical := t.historical, starting := s2.starting[k := t.starting[k]])
    ensures Withdrawn(s, t, k)
  {
    assert t.outstanding == s.outstanding[k.validator := t.outstanding[k.validator]];
  }

  lemma WithdrawnIsPayable(s: Distr, view: View, k: Delegation)
    requires WithdrawRewards(s, view, k).Some?
    ensures IncrementPeriod(s, view, k.validator).Some? && k in s.starting
    ensures var s1 := IncrementPeriod(s, view, k.validator).value;
            Calculate(s1, view, k).Some? && SettleReward(s1, k, RewardDue(s1, view, k)).Some?
  {
    hide IncrementPeriod, SettleReward, RewardDue, Calculate, CloseDelegation, InitializeDelegation;
  }

  /** From any point of a run a withdrawal of rewards completes if and only if the delegation passes the stake check and
      the bank pays it what it is due; then everything that holds between withdrawals holds again. */
  lemma RewardStep(s: Distr, view: View, k: Delegation)
    requires Running(s, view) && k in view.delegations
    ensures WithdrawRewards(s, view, k).Some? <==> Calculable(s, view, k) && !Refused(s, view, k)
    ensures var r := WithdrawRewards(s, view, k);
            r.Some? ==> Running(r.value, view) && Withdrawn(s, r.value, k) && SameFunds(s, r.value, view.validators)
  {
    hide Counted, Accrued, SameFunds, Covered, Funded, SettleReward, IncrementPeriod, WithdrawRewards, Payable, IsZero,
      Whole, RewardDue, Advanced, Withdrawn, Calculate, Calculable;
    var v, vs, live := k.validator, view.validators, s.starting.Keys;
    assert v in Elements(vs) && k in Elements(view.delegations);
    IncrementRuns(s, view, v, live);
    IncrementFrame(s, view, v);
    var s1 := IncrementPeriod(s, view, v).value;
    AdvancedKeepsSlashes(s, s1, v);
    CalculateRuns(s1, view, k, live);
    CalculableKept(s, s1, view, k);
    RewardPayableIff(s1, view, k);
    if WithdrawRewards(s, view, k).Some? {
      WithdrawnIsPayable(s, view, k);
    }
    if Calculable(s, view, k) && !Refused(s, view, k) {
      RewardStepCompletes(s, view, k);
    }
  }

  lemma AdvancedKeepsSlashes(s: Distr, t: Distr, v: Addr)
    requires Advanced(s, t, v)
    ensures t.slashes == s.slashes && t.starting == s.starting
  {
  }

  lemma CalculatedWithdraws(s: Distr, view: View, k: Delegation)
    requires Running(s, view) && k in view.delegations && IncrementPeriod(s, view, k.validator).Some?
    requires k in s.starting && Calculate(IncrementPeriod(s, view, k.validator).value, view, k).Some?
    requires !Refused(s, view, k)
    ensures var r := WithdrawRewards(s, view, k);
            r.Some? && Withdrawn(s, r.value, k) && SameFunds(s, r.value, view.validators)
            && Counted(r.value, s.starting.Keys) && Accrued(r.value.historical)
  {
    hide Counted, Accrued, SameFunds, Covered, Funded, SettleReward, CloseDelegation, InitializeDelegation,
      IncrementPeriod, RewardDue, Advanced, Withdrawn, Calculate, Calculable, IsZero, Whole;
    var v, vs, live := k.validator, view.validators, s.starting.Keys;
    assert v in Elements(vs) && k in Elements(view.delegations);
    IncrementRuns(s, view, v, live);
    IncrementFrame(s, view, v);
    var s1 := IncrementPeriod(s, view, v).value;
    AdvancedKeepsSlashes(s, s1, v);
    SettleRuns(s1, view, k, live);
    var s2 := SettleReward(s1, k, RewardDue(s1, view, k)).value;
    RestartRuns(s2, view, k, live);
    var s3 := CloseDelegation(s2, k).value;
    var t := InitializeDelegation(s3, view, k).value;
    WithdrawalFrame(s, s1, s2, t, k);
    SameFundsTrans(s, s1, s2, vs);
    SameMoney(s2, t, vs);
    SameFundsTrans(s, s2, t, vs);
  }

  lemma RewardStepCompletes(s: Distr, view: View, k: Delegation)
    requires Running(s, view) && k in view.delegations && IncrementPeriod(s, view, k.validator).Some?
    requires k in s.starting && Calculate(IncrementPeriod(s, view, k.validator).value, view, k).Some?
    requires !Refused(s, view, k)
    ensures var r := WithdrawRewards(s, view, k);
            r.Some? && Running(r.value, view) && Withdrawn(s, r.value, k) && SameFunds(s, r.value, view.validators)
  {
    hide Counted, Accrued, SameFunds, Covered, Funded, Keyed, IncrementPeriod, WithdrawRewards, Calculate, Refused;
    CalculatedWithdraws(s, view, k);
    var t := WithdrawRewards(s, view, k).value;
    WithdrawnKeeps(s, t, view, k);
    SameKeepsCovered(s, t, view.validators);
  }

  /** `t` starts every delegation outside `ks` as `s` does, and has the same slash events and blocked addresses. */
  ghost predicate StartsKept(s: Distr, t: Distr, ks: seq<Delegation>) {
    && t.slashes == s.slashes && t.blocked == s.blocked
    && forall k :: k in s.starting && k !in ks ==> k in t.starting && t.starting[k] == s.starting[k]
  }

  /** Whatever turn the run reaches, the bank pays what is due in it. */
  ghost predicate NoneRefused(s: Distr, view: View, ks: seq<Delegation>) {
    forall i :: 0 <= i < |ks| && WithdrawAllRewards(s, view, ks[..i]).Some? ==>
      !Refused(WithdrawAllRewards(s, view, ks[..i]).value, view, ks[i])
  }

  lemma NoneRefusedSnoc(s: Distr, view: View, ks: seq<Delegation>, k: Delegation)
    ensures var r := WithdrawAllRewards(s, view, ks);
            NoneRefused(s, view, ks + [k]) <==> NoneRefused(s, view, ks) && (r.Some? ==> !Refused(r.value, view, k))
  {
    hide WithdrawAllRewards, Refused;
    var all := ks + [k];
    assert all[..|ks|] == ks;
    assert forall i :: 0 <= i < |ks| ==> all[..i] == ks[..i] && all[i] == ks[i];
  }

  lemma NoneRefusedEmpty(s: Distr, view: View)
    ensures NoneRefused(s, view, [])
  {
  }

  /** Each of the delegations passes the stake check. */
  ghost predicate AllPass(s: Distr, view: View, ks: seq<Delegation>) {
    forall k :: k in ks ==> Calculable(s, view, k)
  }

  lemma AllPassSnoc(s: Distr, view: View, ks: seq<Delegation>, k: Delegation)
    ensures AllPass(s, view, ks + [k]) <==> AllPass(s, view, ks) && Calculable(s, view, k)
  {
    hide Calculable;
    assert forall j :: j in ks + [k] <==> j in ks || j == k;
  }

  lemma WithdrawSnoc(s: Distr, view: View, ks: seq<Delegation>, k: Delegation)
    ensures var r := WithdrawAllRewards(s, view, ks);
            WithdrawAllRewards(s, view, ks + [k]) == if r.None? then None else WithdrawRewards(r.value, view, k)
  {
    hide WithdrawRewards;
    assert (ks + [k])[..|ks|] == ks;
  }

  /** What holds after a run of withdrawals from `s`. */
  ghost predicate RunEnds(s: Distr, t: Distr, view: View, ks: seq<Delegation>) {
    Running(t, view) && SameFunds(s, t, view.validators) && StartsKept(s, t, ks)
  }

  lemma RunEndsRefl(s: Distr, view: View)
    requires Running(s, view)
    ensures RunEnds(s, s, view, [])
  {
    hide Running, SameFunds;
    SameFundsRefl(s, view.validators);
  }

  lemma RunGoesOn(s: Distr, t: Distr, view: View, ks: seq<Delegation>, k: Delegation)
    requires Running(s, view) && RunEnds(s, t, view, ks) && k in view.delegations && k !in ks
    ensures WithdrawRewards(t, view, k).Some? <==> Calculable(s, view, k) && !Refused(t, view, k)
    ensures WithdrawRewards(t, view, k).Some? ==> RunEnds(s, WithdrawRewards(t, view, k).value, view, ks + [k])
  {
    hide Running, SameFunds, WithdrawRewards, Calculable, StartsKept, Refused, Withdrawn;
    RewardStep(t, view, k);
    CalculableUntilItsTurn(s, t, view, ks, k);
    if WithdrawRewards(t, view, k).Some? {
      var u := WithdrawRewards(t, view, k).value;
      SameFundsTrans(s, t, u, view.validators);
      StartsKeptSnoc(s, t, u, ks, k);
    }
  }

  /** A run of withdrawals completes if and only if each of its delegations passes the stake check in the store it
      starts from and the bank refuses none. */
  lemma {:induction false} RewardRun(s: Distr, view: View, ks: seq<Delegation>)
    requires Running(s, view) && Distinct(ks) && forall k :: k in ks ==> k in view.delegations
    ensures WithdrawAllRewards(s, view, ks).Some? <==> AllPass(s, view, ks) && NoneRefused(s, view, ks)
    ensures WithdrawAllRewards(s, view, ks).Some? ==> RunEnds(s, WithdrawAllRewards(s, view, ks).value, view, ks)
  {
    hide Running, WithdrawRewards, Calculable, RunEnds, Refused, NoneRefused;
    if ks == [] {
      RunEndsRefl(s, view);
      NoneRefusedEmpty(s, view);
    } else {
      hide WithdrawAllRewards, AllPass;
      var init, last := ks[..|ks| - 1], ks[|ks| - 1];
      assert init + [last] == ks && last !in init;
      RewardRun(s, view, init);
      NoneRefusedSnoc(s, view, init, last);
      AllPassSnoc(s, view, init, last);
      WithdrawSnoc(s, view, init, last);
      if WithdrawAllRewards(s, view, init).Some? {
        RunGoesOn(s, WithdrawAllRewards(s, view, init).value, view, init, last);
      }
    }
  }

  lemma StartsKeptRefl(s: Distr)
    ensures StartsKept(s, s, [])
  {
  }

  lemma StartsKeptSnoc(s: Distr, t: Distr, u: Distr, ks: seq<Delegation>, k: Delegation)
    requires StartsKept(s, t, ks) && Withdrawn(t, u, k)
    ensures StartsKept(s, u, ks + [k])
  {
  }

  lemma CalculableUntilItsTurn(s: Distr, t: Distr, view: View, ks: seq<Delegation>, k: Delegation)
    requires Running(s, view) && k in view.delegations && k !in ks && StartsKept(s, t, ks)
    ensures Calculable(t, view, k) <==> Calculable(s, view, k)
    ensures k in t.starting && k in s.starting && t.starting[k] == s.starting[k]
  {
    assert k in Elements(view.delegations);
    CalculableKept(s, t, view, k);
  }

  // ---------------------------------------------------------------- both loops

  /** Every listed delegation passes the stake check. */
  ghost predicate AllCalculable(s: Distr, view: View) {
    AllPass(s, view, view.delegations)
  }

  /** Both loops run through: every delegation passes the stake check, and the bank refuses none of the rewards. */
  ghost predicate Completes(s: Distr, view: View) {
    var r := WithdrawAllCommission(s, view.validators);
    AllCalculable(s, view) && r.Some? && NoneRefused(r.value, view, view.delegations)
  }

  /** The bank pays each delegator, or the delegation has nothing due because it started at this very height. */
  ghost predicate Receiving(s: Distr, view: View) {
    forall k :: k in view.delegations ==>
      k.delegator !in s.blocked || (k in s.starting && s.starting[k].height == view.height)
  }

  lemma CommissionKeepsCalculable(s: Distr, t: Distr, view: View, k: Delegation)
    requires t.starting == s.starting && t.slashes == s.slashes
    ensures Calculable(t, view, k) <==> Calculable(s, view, k)
  {
  }

  lemma BothLoops(s: Distr, view: View)
    requires WellFormed(s, view)
    ensures var r := WithdrawAllCommission(s, view.validators);
            r.Some? && WellFormed(r.value, view) && OnlyLost(s, r.value, view.validators, view.validators)
            && r.value.starting == s.starting && r.value.slashes == s.slashes && r.value.blocked == s.blocked
            && (WithdrawAllRewards(r.value, view, view.delegations).Some? <==> Completes(s, view))
  {
    hide Running, Backed, OnlyLost, Calculable, NoneRefused, SameFunds, StartsKept, CommissionOf;
    RunningIsStored(s, view);
    CommissionRun(s, view, view.validators);
    var s1 := WithdrawAllCommission(s, view.validators).value;
    RewardRun(s1, view, view.delegations);
    forall k ensures Calculable(s1, view, k) <==> Calculable(s, view, k) {
      CommissionKeepsCalculable(s, s1, view, k);
    }
  }

  lemma RunningIsStored(s: Distr, view: View)
    requires Running(s, view)
    ensures Stored(view) && Covered(s, view.validators)
  {
  }

  /** A delegation with nothing due is not refused. */
  lemma NotRefused(s: Distr, view: View, k: Delegation)
    requires k.delegator !in s.blocked || (k in s.starting && s.starting[k].height == view.height)
    ensures !Refused(s, view, k)
  {
    hide IncrementPeriod, IsZero, Whole, RewardDue;
    var r := IncrementPeriod(s, view, k.validator);
    if k.delegator in s.blocked && r.Some? {
      NothingDue(r.value, view, k);
    }
  }

  lemma ReceivingRun(s: Distr, view: View)
    requires Running(s, view) && Receiving(s, view)
    ensures NoneRefused(s, view, view.delegations)
  {
    hide Refused, Running, SameFunds, Calculable;
    RunningIsStored(s, view);
    var ks := view.delegations;
    forall i | 0 <= i < |ks| && WithdrawAllRewards(s, view, ks[..i]).Some?
      ensures !Refused(WithdrawAllRewards(s, view, ks[..i]).value, view, ks[i])
    {
      var t := WithdrawAllRewards(s, view, ks[..i]).value;
      assert ks[i] in ks;
      RewardRun(s, view, ks[..i]);
      CalculableUntilItsTurn(s, t, view, ks[..i], ks[i]);
      NotRefused(t, view, ks[i]);
    }
  }

  /** Where the bank pays the delegators, only the stake check decides. */
  lemma ReceivingCompletesIff(s: Distr, view: View)
    requires WellFormed(s, view) && Receiving(s, view)
    ensures Completes(s, view) <==> AllCalculable(s, view)
  {
    hide Running, Backed, OnlyLost, AllCalculable, NoneRefused;
    BothLoops(s, view);
    ReceivingRun(WithdrawAllCommission(s, view.validators).value, view);
  }

  /** At every point the two loops reach, every delegation of the store still starts from a live record; and they reach
      the point after `i` withdrawals if and only if the first `i` delegations pass the stake check and are not
      refused. */
  lemma StartsAliveThroughout(s: Distr, view: View, i: nat)
    requires WellFormed(s, view) && i <= |view.delegations|
    ensures var r := WithdrawAllCommission(s, view.validators);
            r.Some? && var q := WithdrawAllRewards(r.value, view, view.delegations[..i]);
            && (q.Some? <==> (forall j :: 0 <= j < i ==> Calculable(s, view, view.delegations[j]))
                             && NoneRefused(r.value, view, view.delegations[..i]))
            && (q.Some? ==> forall k :: k in view.delegations ==> Alive(q.value, k))
  {
    hide Running, Backed, OnlyLost, SameFunds, Calculable, NoneRefused, Alive;
    var ks := view.delegations[..i];
    BothLoops(s, view);
    var s1 := WithdrawAllCommission(s, view.validators).value;
    StoredPrefix(s1, view, i);
    RewardRun(s1, view, ks);
    forall k ensures Calculable(s1, view, k) <==> Calculable(s, view, k) {
      CommissionKeepsCalculable(s, s1, view, k);
    }
    assert forall j :: 0 <= j < i ==> view.delegations[j] == ks[j];
    if WithdrawAllRewards(s1, view, ks).Some? {
      forall k | k in view.delegations ensures Alive(WithdrawAllRewards(s1, view, ks).value, k) {
        RunningIsAlive(WithdrawAllRewards(s1, view, ks).value, view, k);
      }
    }
  }

  lemma StoredPrefix(s: Distr, view: View, i: nat)
    requires Running(s, view) && i <= |view.delegations|
    ensures Distinct(view.delegations[..i])
    ensures i < |view.delegations| ==> view.delegations[i] !in view.delegations[..i]
  {
  }

  lemma RunningIsAlive(s: Distr, view: View, k: Delegation)
    requires Running(s, view) && k in view.delegations
    ensures Alive(s, k)
  {
    assert k in Elements(view.delegations);
    StartIsAlive(s, s.starting.Keys, k);
  }

  // ---------------------------------------------------------------- the height the withdrawals run at

  lemma NothingDue(s: Distr, view: View, k: Delegation)
    requires k in s.starting && s.starting[k].height == view.height
    ensures IsZero(Whole(RewardDue(s, view, k)))
  {
    assert RewardDue(s, view, k) == map[];
    assert Whole(RewardDue(s, view, k)) == map[];
  }

  lemma NothingPaid(s: Distr, view: View, k: Delegation)
    requires k in s.starting && s.starting[k].height == view.height
    requires WithdrawRewards(s, view, k).Some?
    ensures WithdrawRewards(s, view, k).value.payouts == s.payouts
  {
    hide IncrementPeriod, Covers, Leq, Whole, Fraction, Sub, Add, LastClosed, RewardDue, Calculate, DropReference,
      AddReference, IsZero;
    var s1 := IncrementPeriod(s, view, k.validator).value;
    NothingDue(s1, view, k);
    IncrementPaysNobody(s, view, k.validator);
  }

  lemma IncrementPaysNobody(s: Distr, view: View, v: Addr)
    requires IncrementPeriod(s, view, v).Some?
    ensures IncrementPeriod(s, view, v).value.payouts == s.payouts
  {
    hide IncrementPeriod;
    IncrementEffect(s, view, v);
  }

  /** The export withdraws at height 0.  A delegation that started at height 0 is therefore paid nothing: whatever it
      earned since stays with the validator and ends in the community pool. */
  lemma StartedAtExportHeightIsUnpaid(s: Distr, view: View, i: nat)
    requires WellFormed(s, view) && i < |view.delegations|
    requires view.delegations[i] in s.starting && s.starting[view.delegations[i]].height == view.height
    ensures var r := WithdrawAllCommission(s, view.validators);
            r.Some? && var q := WithdrawAllRewards(r.value, view, view.delegations[..i]);
            q.Some? ==> var u := WithdrawAllRewards(r.value, view, view.delegations[..i + 1]);
                        u.Some? && u.value.payouts == q.value.payouts
  {
    hide Running, Backed, OnlyLost, SameFunds, WithdrawRewards, StartsKept, NoneRefused, Refused, CommissionOf;
    var ks, k := view.delegations, view.delegations[i];
    BothLoops(s, view);
    var s1 := WithdrawAllCommission(s, view.validators).value;
    StoredPrefix(s1, view, i);
    RewardRun(s1, view, ks[..i]);
    if WithdrawAllRewards(s1, view, ks[..i]).Some? {
      var t := WithdrawAllRewards(s1, view, ks[..i]).value;
      CalculableUntilItsTurn(s1, t, view, ks[..i], k);
      assert ks[..i + 1][..i] == ks[..i];
      NotRefused(t, view, k);
      RewardStep(t, view, k);
      NothingPaid(t, view, k);
    }
  }
}
