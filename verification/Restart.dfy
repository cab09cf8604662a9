/** The reset as a whole: when it completes from a well-formed store, what it does to the funds, and the one closed form
    it ends in whatever the store was. */
module Restart {
  import opened Results
  import opened Money
  import opened Distribution
  import opened ReferenceCounts
  import opened Funds
  import opened Withdrawals

  // ---------------------------------------------------------------- the closed form

  /** How many of the delegations are to `v`. */
  function Rank(ks: seq<Delegation>, v: Addr): nat {
    if ks == [] then 0
    else Rank(ks[..|ks| - 1], v) + if ks[|ks| - 1].validator == v then 1 else 0
  }

  /** The references to period `number` of a validator with `n` delegations. */
  function FreshCount(n: nat, number: nat): nat {
    if n == 0 then if number == 0 then 1 else 0
    else if number == n then 2
    else if 1 <= number < n then 1
    else 0
  }

  ghost predicate FreshRecords(h: Records, vs: seq<Addr>, ks: seq<Delegation>) {
    && (forall p :: p in h <==> p.validator in vs && FreshCount(Rank(ks, p.validator), p.number) > 0)
    && (forall p :: p in h ==> h[p] == Historical(ZERO, FreshCount(Rank(ks, p.validator), p.number)))
  }

  function FreshCurrent(vs: seq<Addr>, ks: seq<Delegation>): map<Addr, Current> {
    map v | v in vs :: Current(ZERO, Rank(ks, v) + 1)
  }

  function NothingFor(vs: seq<Addr>): map<Addr, Amounts> {
    map v | v in vs :: ZERO
  }

  /** Every validator restarted from period 0 and then took on the delegations `ks`, in order. */
  ghost predicate Fresh(s: Distr, vs: seq<Addr>, ks: seq<Delegation>) {
    && FreshRecords(s.historical, vs, ks)
    && s.current == FreshCurrent(vs, ks)
    && s.outstanding == NothingFor(vs)
    && s.commission == NothingFor(vs)
    && s.slashes == {}
  }

  /** Each delegation starts at the context height, from the record of its own rank. */
  ghost predicate Restarted(s: Distr, view: View, ks: seq<Delegation>) {
    forall i :: 0 <= i < |ks| ==>
      ks[i] in s.starting
      && s.starting[ks[i]] == Starting(Rank(ks[..i + 1], ks[i].validator), view.stake(ks[i]), view.height)
  }

  lemma AddNothing(a: Amounts)
    ensures Add(a, ZERO) == a
    ensures Sub(a, ZERO) == a
  {
    SameAmounts(Add(a, ZERO), a);
    SameAmounts(Sub(a, ZERO), a);
  }

  lemma NothingDivided(n: nat)
    requires n > 0
    ensures Quotient(ZERO, n) == ZERO
  {
    SameAmounts(Quotient(ZERO, n), ZERO);
  }

  lemma RankSnoc(ks: seq<Delegation>, k: Delegation, v: Addr)
    ensures Rank(ks + [k], v) == Rank(ks, v) + if k.validator == v then 1 else 0
  {
    assert (ks + [k])[..|ks|] == ks;
  }

  // ---------------------------------------------------------------- one delegation more

  /** Closing the current period of `v` and starting a delegation from it. */
  function OneMore(h: Records, v: Addr, n: nat): Option<Records> {
    var h1 :- CloseRecord(h, Period(v, n), Period(v, n + 1), ZERO);
    AddReference(h1, Period(v, n + 1))
  }

  lemma OneMoreEffect(h: Records, v: Addr, n: nat)
    requires var p := Period(v, n); p in h && h[p] == Historical(ZERO, FreshCount(n, n))
    ensures var r := OneMore(h, v, n);
            r.Some? && r.value == if n == 0 then (h - {Period(v, 0)})[Period(v, 1) := Historical(ZERO, 2)]
                                  else h[Period(v, n) := Historical(ZERO, 1)][Period(v, n + 1) := Historical(ZERO, 2)]
  {
    AddNothing(ZERO);
    var p, q := Period(v, n), Period(v, n + 1);
    var h0 := if n == 0 then h - {p} else h[p := Historical(ZERO, 1)];
    assert DropReference(h, p) == Some(h0);
    assert CloseRecord(h, p, q, ZERO) == Some(h0[q := Historical(ZERO, 1)]);
  }

  ghost predicate FreshRecordAt(h: Records, vs: seq<Addr>, n: nat, p: Period) {
    && (p in h <==> p.validator in vs && FreshCount(n, p.number) > 0)
    && (p in h ==> h[p] == Historical(ZERO, FreshCount(n, p.number)))
  }

  lemma OneMoreFreshAt(h: Records, vs: seq<Addr>, v: Addr, n: nat, p: Period)
    requires v in vs && Period(v, n) in h && h[Period(v, n)] == Historical(ZERO, FreshCount(n, n))
    requires p.validator == v ==> FreshRecordAt(h, vs, n, p)
    ensures OneMore(h, v, n).Some?
    ensures p.validator == v ==> FreshRecordAt(OneMore(h, v, n).value, vs, n + 1, p)
    ensures p.validator != v ==> (p in OneMore(h, v, n).value <==> p in h)
    ensures p.validator != v && p in h ==> OneMore(h, v, n).value[p] == h[p]
  {
    hide OneMore;
    OneMoreEffect(h, v, n);
  }

  lemma OneMoreFresh(h: Records, vs: seq<Addr>, ks: seq<Delegation>, k: Delegation)
    requires FreshRecords(h, vs, ks) && k.validator in vs
    ensures var r := OneMore(h, k.validator, Rank(ks, k.validator));
            r.Some? && FreshRecords(r.value, vs, ks + [k])
  {
    hide OneMore, FreshCount, Rank;
    var v := k.validator;
    var n := Rank(ks, v);
    assert FreshCount(n, n) > 0 by { LastIsCounted(n); }
    assert Period(v, n) in h;
    OneMoreFreshAt(h, vs, v, n, Period(v, n));
    var t := OneMore(h, v, n).value;
    forall p: Period ensures FreshRecordAt(t, vs, Rank(ks + [k], p.validator), p) {
      RankSnoc(ks, k, p.validator);
      assert p in h <==> p.validator in vs && FreshCount(Rank(ks, p.validator), p.number) > 0;
      OneMoreFreshAt(h, vs, v, n, p);
    }
  }

  lemma LastIsCounted(n: nat)
    ensures FreshCount(n, n) > 0
  {
  }

  /** With nothing earned and nothing owed, closing a period moves no money. */
  lemma IdleIncrement(s: Distr, view: View, v: Addr)
    requires CurrentOf(s, v).rewards == ZERO && v in s.outstanding && s.outstanding[v] == ZERO
    ensures var h := CloseRecord(s.historical, LastClosed(s, v), Period(v, CurrentOf(s, v).period), ZERO);
            IncrementPeriod(s, view, v) ==
              if h.None? then None
              else Some(s.(historical := h.value, current := s.current[v := Current(ZERO, CurrentOf(s, v).period + 1)]))
  {
    AddNothing(s.pool);
    AddNothing(ZERO);
    if view.tokens(v) > 0 {
      NothingDivided(view.tokens(v));
    } else {
      assert Covers(ZERO, ZERO);
      assert s.outstanding[v := ZERO] == s.outstanding;
    }
    hide Covers, Leq, Amt, Add, Sub, Quotient, CloseRecord, CurrentOf, LastClosed;
  }

  lemma FreshAt(s: Distr, vs: seq<Addr>, ks: seq<Delegation>, v: Addr)
    requires Fresh(s, vs, ks) && v in vs
    ensures CurrentOf(s, v) == Current(ZERO, Rank(ks, v) + 1) && LastClosed(s, v) == Period(v, Rank(ks, v))
    ensures v in s.outstanding && s.outstanding[v] == ZERO
  {
  }

  lemma IncrementFresh(s: Distr, view: View, ks: seq<Delegation>, v: Addr)
    requires Fresh(s, view.validators, ks) && v in view.validators
    ensures var n := Rank(ks, v);
            var h := CloseRecord(s.historical, Period(v, n), Period(v, n + 1), ZERO);
            IncrementPeriod(s, view, v) ==
              if h.None? then None
              else Some(s.(historical := h.value, current := s.current[v := Current(ZERO, n + 2)]))
  {
    hide IncrementPeriod, CloseRecord, Fresh, CurrentOf, LastClosed, Rank;
    FreshAt(s, view.validators, ks, v);
    IdleIncrement(s, view, v);
  }

  lemma FreshCurrentSnoc(vs: seq<Addr>, ks: seq<Delegation>, k: Delegation)
    requires k.validator in vs
    ensures FreshCurrent(vs, ks)[k.validator := Current(ZERO, Rank(ks, k.validator) + 2)] == FreshCurrent(vs, ks + [k])
  {
    var before, after := FreshCurrent(vs, ks), FreshCurrent(vs, ks + [k]);
    RankSnoc(ks, k, k.validator);
    hide FreshCurrent, Rank;
    CurrentPointwise(vs, ks);
    CurrentPointwise(vs, ks + [k]);
    forall w | w in vs ensures before[k.validator := Current(ZERO, Rank(ks, k.validator) + 2)][w] == after[w] {
      RankSnoc(ks, k, w);
    }
  }

  lemma CurrentPointwise(vs: seq<Addr>, ks: seq<Delegation>)
    ensures forall w :: w in FreshCurrent(vs, ks) <==> w in vs
    ensures forall w :: w in vs ==> FreshCurrent(vs, ks)[w] == Current(ZERO, Rank(ks, w) + 1)
  {
  }

  lemma RedelegateStep(s: Distr, view: View, ks: seq<Delegation>, k: Delegation)
    requires Fresh(s, view.validators, ks) && k.validator in view.validators
    ensures var r := Redelegate(s, view, k);
            r.Some? && Fresh(r.value, view.validators, ks + [k])
            && r.value == s.(historical := r.value.historical, current := r.value.current, starting := r.value.starting)
            && r.value.starting == s.starting[k := Starting(Rank(ks + [k], k.validator), view.stake(k), view.height)]
  {
    hide IncrementPeriod, CloseRecord, AddReference, FreshRecords, FreshCurrent, NothingFor, Rank;
    RankSnoc(ks, k, k.validator);
    IncrementFresh(s, view, ks, k.validator);
    OneMoreFresh(s.historical, view.validators, ks, k);
    FreshCurrentSnoc(view.validators, ks, k);
  }

  lemma RestartedSnoc(s: Distr, t: Distr, view: View, ks: seq<Delegation>, k: Delegation)
    requires Restarted(s, view, ks) && k !in ks
    requires t.starting == s.starting[k := Starting(Rank(ks + [k], k.validator), view.stake(k), view.height)]
    ensures Restarted(t, view, ks + [k])
  {
    var all := ks + [k];
    forall i | 0 <= i < |all|
      ensures all[i] in t.starting
           && t.starting[all[i]] == Starting(Rank(all[..i + 1], all[i].validator), view.stake(all[i]), view.height)
    {
      if i < |ks| {
        assert all[i] == ks[i] && all[..i + 1] == ks[..i + 1];
      } else {
        assert all[..i + 1] == all;
      }
    }
  }

  lemma {:induction false} RedelegateRun(s: Distr, view: View, ks: seq<Delegation>)
    requires Fresh(s, view.validators, []) && Distinct(ks)
    requires forall k :: k in ks ==> k.validator in view.validators
    ensures var r := ReinitializeDelegations(s, view, ks);
            r.Some? && Fresh(r.value, view.validators, ks) && Restarted(r.value, view, ks)
            && r.value == s.(historical := r.value.historical, current := r.value.current, starting := r.value.starting)
            && r.value.starting.Keys == s.starting.Keys + Elements(ks)
  {
    hide Fresh, Redelegate, Rank;
    if ks != [] {
      var init, k := ks[..|ks| - 1], ks[|ks| - 1];
      assert ks == init + [k] && k !in init;
      RedelegateRun(s, view, init);
      var t := ReinitializeDelegations(s, view, init).value;
      RedelegateStep(t, view, init, k);
      RestartedSnoc(t, Redelegate(t, view, k).value, view, init, k);
      hide Restarted;
    }
  }

  // ---------------------------------------------------------------- all validators again

  ghost predicate CleanRecords(h: Records, vs: seq<Addr>) {
    && (forall p :: p in h <==> p.validator in vs && p.number == 0)
    && (forall p :: p in h ==> h[p] == Historical(ZERO, 1))
  }

  ghost predicate CleanAmounts(s: Distr, vs: seq<Addr>) {
    forall v :: v in vs ==>
      && v in s.current && s.current[v] == Current(ZERO, 1)
      && v in s.outstanding && s.outstanding[v] == ZERO
      && v in s.commission && s.commission[v] == ZERO
  }

  /** `t` is `s` with the validators `vs` created anew; only money within `s` moved. */
  ghost predicate Recreated(s: Distr, t: Distr, vs: seq<Addr>) {
    && CleanRecords(t.historical, vs) && CleanAmounts(t, vs)
    && t.starting == s.starting && t.slashes == s.slashes && t.payouts == s.payouts && t.account == s.account
    && t.blocked == s.blocked
    && t.current.Keys == s.current.Keys + Elements(vs)
    && t.outstanding.Keys == s.outstanding.Keys + Elements(vs)
    && t.commission.Keys == s.commission.Keys + Elements(vs)
  }

  lemma CleanRecordsSnoc(h: Records, vs: seq<Addr>, v: Addr)
    requires CleanRecords(h, vs)
    ensures CleanRecords(h[Period(v, 0) := Historical(ZERO, 1)], vs + [v])
  {
  }

  lemma CleanAmountsSnoc(s: Distr, vs: seq<Addr>, v: Addr)
    requires CleanAmounts(s, vs)
    ensures CleanAmounts(InitializeValidator(Donate(s, v), v), vs + [v])
  {
    hide Add;
  }

  lemma CreateEffect(s: Distr, v: Addr)
    ensures var t := InitializeValidator(Donate(s, v), v);
            t.historical == s.historical[Period(v, 0) := Historical(ZERO, 1)]
            && t.starting == s.starting && t.slashes == s.slashes && t.payouts == s.payouts && t.account == s.account
            && t.blocked == s.blocked
            && t.current.Keys == s.current.Keys + {v} && t.outstanding.Keys == s.outstanding.Keys + {v}
            && t.commission.Keys == s.commission.Keys + {v}
  {
    hide Add;
  }

  lemma RecreatedSnoc(s: Distr, t: Distr, vs: seq<Addr>, v: Addr)
    requires Recreated(s, t, vs)
    ensures Recreated(s, InitializeValidator(Donate(t, v), v), vs + [v])
  {
    hide CleanRecords, CleanAmounts, Elements, InitializeValidator, Donate;
    CleanRecordsSnoc(t.historical, vs, v);
    CleanAmountsSnoc(t, vs, v);
    CreateEffect(t, v);
    ElementsSnoc(vs, v, s.current.Keys);
    ElementsSnoc(vs, v, s.outstanding.Keys);
    ElementsSnoc(vs, v, s.commission.Keys);
  }

  lemma ElementsSnoc(vs: seq<Addr>, v: Addr, keys: set<Addr>)
    ensures keys + Elements(vs) + {v} == keys + Elements(vs + [v])
  {
  }

  lemma {:induction false} ValidatorRun(s: Distr, vs: seq<Addr>, all: seq<Addr>)
    requires s.historical == map[] && Distinct(all) && forall v :: v in vs ==> v in all
    ensures Recreated(s, ReinitializeValidators(s, vs), vs)
    ensures SameFunds(s, ReinitializeValidators(s, vs), all)
  {
    hide SameFunds, InitializeValidator, Donate;
    if vs == [] {
      SameFundsRefl(s, all);
    } else {
      hide Recreated;
      var init, v := vs[..|vs| - 1], vs[|vs| - 1];
      assert vs == init + [v];
      ValidatorRun(s, init, all);
      var t := ReinitializeValidators(s, init);
      DonateConserves(t, v, all);
      SameFundsTrans(s, t, InitializeValidator(Donate(t, v), v), all);
      RecreatedSnoc(s, t, init, v);
    }
  }

  lemma CleanRecordsAreFresh(h: Records, vs: seq<Addr>)
    requires CleanRecords(h, vs)
    ensures FreshRecords(h, vs, [])
  {
  }

  lemma CleanAmountsAreFresh(s: Distr, vs: seq<Addr>)
    requires CleanAmounts(s, vs)
    requires s.current.Keys == Elements(vs) && s.outstanding.Keys == Elements(vs) && s.commission.Keys == Elements(vs)
    ensures s.current == FreshCurrent(vs, []) && s.outstanding == NothingFor(vs) && s.commission == NothingFor(vs)
  {
    forall v ensures v in Elements(vs) <==> v in vs {
    }
  }

  lemma RecreatedIsFresh(s: Distr, t: Distr, vs: seq<Addr>)
    requires Recreated(s, t, vs) && s.slashes == {}
    requires s.current.Keys == Elements(vs) && s.outstanding.Keys == Elements(vs) && s.commission.Keys == Elements(vs)
    ensures Fresh(t, vs, [])
  {
    hide CleanRecords, CleanAmounts, FreshRecords, FreshCurrent, NothingFor, Elements;
    CleanRecordsAreFresh(t.historical, vs);
    CleanAmountsAreFresh(t, vs);
  }

  // ---------------------------------------------------------------- the counts are exact again

  lemma FreshCounted(s: Distr, vs: seq<Addr>)
    requires Fresh(s, vs, [])
    ensures Counted(s, {})
  {
    forall p: Period | p.validator in s.current ensures Count(s.historical, p) == References(s, {}, p) {
      assert p in s.historical <==> FreshCount(Rank([], p.validator), p.number) > 0;
      assert StartedAt(s, {}, p) == {} && SlashedAt(s, p) == {};
    }
  }

  lemma RedelegateKeepsCounts(s: Distr, view: View, ks: seq<Delegation>, k: Delegation, live: set<Delegation>)
    requires Fresh(s, view.validators, ks) && k.validator in view.validators && Counted(s, live) && k !in live
    ensures Redelegate(s, view, k).Some? && Counted(Redelegate(s, view, k).value, live + {k})
  {
    var v := k.validator;
    assert v in s.current && CurrentOf(s, v).rewards == ZERO;
    hide Fresh, InitializeDelegation, IncrementPeriod;
    assert Count(s.historical, LastClosed(s, v)) == References(s, live, LastClosed(s, v));
    IncrementAdvances(s, view, v);
    var t := IncrementPeriod(s, view, v).value;
    AdvancedKeepsCounts(s, t, v, live);
    StartRuns(t, view, k, live);
  }

  lemma {:induction false} RedelegateRunCounted(s: Distr, view: View, ks: seq<Delegation>)
    requires Fresh(s, view.validators, []) && Distinct(ks)
    requires forall k :: k in ks ==> k.validator in view.validators
    ensures var r := ReinitializeDelegations(s, view, ks); r.Some? && Counted(r.value, Elements(ks))
  {
    hide Fresh, Redelegate, Counted;
    if ks == [] {
      FreshCounted(s, view.validators);
      assert Elements(ks) == {};
    } else {
      var init, k := ks[..|ks| - 1], ks[|ks| - 1];
      assert ks == init + [k] && k !in init;
      assert Elements(ks) == Elements(init) + {k};
      RedelegateRun(s, view, init);
      RedelegateRunCounted(s, view, init);
      RedelegateKeepsCounts(ReinitializeDelegations(s, view, init).value, view, init, k, Elements(init));
    }
  }

  // ---------------------------------------------------------------- the whole reset

  /** Phases three to six, from any store with the right keys. */
  lemma RestartOutcome(s: Distr, view: View)
    requires Stored(view) && Keyed(s, view) && s.historical == map[] && s.slashes == {}
    ensures var s1 := ReinitializeValidators(s, view.validators);
            var r := ReinitializeDelegations(s1, view, view.delegations);
            r.Some? && Fresh(r.value, view.validators, view.delegations) && Restarted(r.value, view, view.delegations)
            && Counted(r.value, r.value.starting.Keys)
            && r.value.starting.Keys == Elements(view.delegations)
            && SameFunds(s, r.value, view.validators)
            && r.value.pool == s1.pool && r.value.payouts == s.payouts && r.value.account == s.account
            && r.value.blocked == s.blocked && Accrued(r.value.historical)
  {
    hide Fresh, Restarted, Accrued, Counted, SameFunds, Rank, CleanAmounts, CleanRecords, Redelegate,
      InitializeValidator, Donate;
    var vs, ks := view.validators, view.delegations;
    ValidatorRun(s, vs, vs);
    var s1 := ReinitializeValidators(s, vs);
    RecreatedIsFresh(s, s1, vs);
    RedelegateRun(s1, view, ks);
    RedelegateRunCounted(s1, view, ks);
    var t := ReinitializeDelegations(s1, view, ks).value;
    assert t.starting.Keys == Elements(ks);
    FreshAccrued(t, vs, ks);
    SameMoney(s1, t, vs);
    SameFundsTrans(s, s1, t, vs);
  }

  lemma FreshAccrued(s: Distr, vs: seq<Addr>, ks: seq<Delegation>)
    requires Fresh(s, vs, ks)
    ensures Accrued(s.historical)
  {
  }

  lemma FreshIsFunded(s: Distr, view: View)
    requires Fresh(s, view.validators, view.delegations) && s.starting.Keys == Elements(view.delegations)
    ensures Keyed(s, view) && Backed(s, view)
  {
  }

  lemma WipeKeeps(s: Distr, view: View)
    requires Running(s, view)
    ensures Stored(view) && Keyed(Wipe(s), view) && Covered(Wipe(s), view.validators)
    ensures SameFunds(s, Wipe(s), view.validators)
  {
    SameMoney(s, Wipe(s), view.validators);
  }

  /** From a well-formed store the reset completes if and only if every delegation passes the stake check and the bank
      refuses no reward.  Then the accounts lose the commission of blocked validators and nothing else, and the store is
      well-formed in the closed form, with nothing owed to anyone. */
  lemma ResetOutcome(s: Distr, view: View)
    requires WellFormed(s, view)
    ensures Reset(s, view).Some? <==> Completes(s, view)
    ensures var r := Reset(s, view);
            r.Some? ==>
              && WellFormed(r.value, view) && OnlyLost(s, r.value, view.validators, view.validators)
              && Fresh(r.value, view.validators, view.delegations) && Restarted(r.value, view, view.delegations)
              && r.value.blocked == s.blocked
  {
    hide Running, Backed, Fresh, Restarted, OnlyLost, Completes, WithdrawAllCommission, WithdrawAllRewards,
      ReinitializeValidators, ReinitializeDelegations, Wipe;
    BothLoops(s, view);
    var s1 := WithdrawAllCommission(s, view.validators).value;
    if WithdrawAllRewards(s1, view, view.delegations).Some? {
      ResetCompletes(s, s1, view);
    }
  }

  /** What comes after the commissions conserves funds. */
  lemma AfterCommissions(s1: Distr, view: View)
    requires Running(s1, view) && WithdrawAllRewards(s1, view, view.delegations).Some?
    ensures var s2 := WithdrawAllRewards(s1, view, view.delegations).value;
            var r := ReinitializeDelegations(ReinitializeValidators(Wipe(s2), view.validators), view, view.delegations);
            r.Some? && WellFormed(r.value, view) && SameFunds(s1, r.value, view.validators)
            && Fresh(r.value, view.validators, view.delegations) && Restarted(r.value, view, view.delegations)
            && r.value.blocked == s1.blocked && r.value.payouts == s2.payouts
  {
    hide Fresh, Restarted, Counted, Accrued, SameFunds, Backed, Funded, Covered, WithdrawAllRewards, AllPass,
      NoneRefused, ReinitializeValidators, ReinitializeDelegations;
    var vs := view.validators;
    RewardRun(s1, view, view.delegations);
    var s2 := WithdrawAllRewards(s1, view, view.delegations).value;
    WipeKeeps(s2, view);
    RestartOutcome(Wipe(s2), view);
    var t := ReinitializeDelegations(ReinitializeValidators(Wipe(s2), vs), view, view.delegations).value;
    FreshIsFunded(t, view);
    BackedIsFunded(t, view);
    SameFundsTrans(s1, s2, Wipe(s2), vs);
    SameFundsTrans(s1, Wipe(s2), t, vs);
    SameKeepsCovered(s1, t, vs);
  }

  lemma ResetCompletes(s: Distr, s1: Distr, view: View)
    requires WithdrawAllCommission(s, view.validators) == Some(s1)
    requires OnlyLost(s, s1, view.validators, view.validators) && Running(s1, view) && s1.blocked == s.blocked
    requires WithdrawAllRewards(s1, view, view.delegations).Some?
    ensures var r := Reset(s, view);
            r.Some? && WellFormed(r.value, view) && OnlyLost(s, r.value, view.validators, view.validators)
            && Fresh(r.value, view.validators, view.delegations) && Restarted(r.value, view, view.delegations)
            && r.value.blocked == s.blocked
            && r.value.payouts == WithdrawAllRewards(s1, view, view.delegations).value.payouts
  {
    hide WellFormed, Running, Fresh, Restarted, SameFunds, OnlyLost, WithdrawAllCommission, WithdrawAllRewards,
      ReinitializeValidators, ReinitializeDelegations, Wipe;
    AfterCommissions(s1, view);
    LostThenSame(s, s1, Reset(s, view).value, view.validators, view.validators);
  }

  /** A store with the right keys and nothing else in it. */
  function Blank(view: View): Distr {
    Distr(ZERO, ZERO, [], NothingFor(view.validators), NothingFor(view.validators), FreshCurrent(view.validators, []),
          map[], map k | k in view.delegations :: Starting(0, 0, 0), {}, {})
  }

  lemma BlankIsKeyed(view: View)
    ensures Keyed(Blank(view), view)
  {
  }

  lemma BlankIsSolvent(view: View)
    ensures Solvent(Blank(view), view.validators)
  {
    forall d ensures Accounted(Blank(view), view.validators, d) == 0 {
      NothingOwed(view.validators, view.validators, d);
    }
  }

  lemma SolventIsCovered(s: Distr, vs: seq<Addr>)
    requires Solvent(s, vs)
    ensures Covered(s, vs)
  {
  }

  /** Well-formed stores that satisfy the module-account invariant exist, whatever the staking state. */
  lemma WellFormedStoreExists(view: View)
    requires Stored(view)
    ensures exists s :: WellFormed(s, view) && Solvent(s, view.validators)
  {
    hide Fresh, Restarted, Counted, Accrued, SameFunds, Funded, Backed, Keyed, Stored, Solvent, Covered,
      ReinitializeValidators, ReinitializeDelegations, NothingFor, FreshCurrent;
    var s, vs := Blank(view), view.validators;
    BlankIsKeyed(view);
    BlankIsSolvent(view);
    RestartOutcome(s, view);
    var t := ReinitializeDelegations(ReinitializeValidators(s, vs), view, view.delegations).value;
    FreshIsFunded(t, view);
    BackedIsFunded(t, view);
    SolventKept(s, t, vs);
    SolventIsCovered(t, vs);
    assert WellFormed(t, view);
  }

  lemma {:induction false} NothingOwed(vs: seq<Addr>, all: seq<Addr>, d: Denom)
    requires forall v :: v in vs ==> v in all
    ensures Owed(NothingFor(all), vs, d) == 0
  {
    if vs != [] {
      NothingOwed(vs[..|vs| - 1], all, d);
    }
  }
}
