/** What the reset guarantees to whoever reads the exported genesis: where the money went, who was paid what, and that
    the records fit together. */
module Guarantees {
  import opened Results
  import opened Money
  import opened Distribution
  import opened ReferenceCounts
  import opened Funds
  import opened Withdrawals
  import opened Restart
  import opened Losses
  import opened KeeperSteps

  // ---------------------------------------------------------------- the result, read off the closed form

  lemma FreshOwesNothing(s: Distr, vs: seq<Addr>, ks: seq<Delegation>, d: Denom)
    requires Fresh(s, vs, ks)
    ensures Accounted(s, vs, d) == Amt(s.pool, d)
    ensures forall v :: OutstandingOf(s, v) == ZERO && CommissionOf(s, v) == ZERO && CurrentOf(s, v).rewards == ZERO
  {
    NothingOwed(vs, vs, d);
  }

  /** Everything that was accounted for and neither paid out nor lost is in the community pool, once; nobody is owed
      anything.  The module account holds the pool's whole coins and what was lost. */
  lemma EverythingUnpaidIsPooled(s: Distr, view: View, d: Denom)
    requires WellFormed(s, view) && Reset(s, view).Some?
    ensures var t, lost := Reset(s, view).value, Lost(s, view.validators, d);
            (forall v :: OutstandingOf(t, v) == ZERO && CommissionOf(t, v) == ZERO && CurrentOf(t, v).rewards == ZERO)
            && Amt(t.pool, d) + Units(PaidOut(t.payouts, d)) + Units(lost)
            == Amt(s.pool, d) + Owed(s.outstanding, view.validators, d) + Units(PaidOut(s.payouts, d))
            && (Solvent(s, view.validators) ==> Amt(t.account, d) == WholePart(Amt(t.pool, d)) + lost)
  {
    hide Reset, Running, Backed, Solvent, OnlyLost, Fresh, Restarted, Completes, Owed, PaidOut, Lost,
      OutstandingOf, CommissionOf, CurrentOf;
    ResetOutcome(s, view);
    var t := Reset(s, view).value;
    FreshOwesNothing(t, view.validators, view.delegations, d);
    OnlyLostAt(s, t, view.validators, d);
    if Solvent(s, view.validators) {
      AccountAfter(s, t, view.validators, d);
    }
  }

  lemma RestartedHeights(s: Distr, view: View, ks: seq<Delegation>)
    requires Restarted(s, view, ks)
    ensures forall k :: k in ks ==> k in s.starting && s.starting[k].height == view.height
  {
    forall k | k in ks ensures k in s.starting && s.starting[k].height == view.height {
      var i :| 0 <= i < |ks| && ks[i] == k;
      assert s.starting[ks[i]].height == view.height;
    }
  }

  lemma StartsAlive(s: Distr, live: set<Delegation>)
    requires Counted(s, live)
    ensures forall k :: k in live ==> Alive(s, k)
  {
    hide Counted, References;
    forall k | k in live ensures Alive(s, k) {
      StartIsAlive(s, live, k);
    }
  }

  lemma FreshHasNoSlashes(s: Distr, vs: seq<Addr>, ks: seq<Delegation>, v: Addr)
    requires Fresh(s, vs, ks) && v in vs
    ensures s.slashes == {} && v in s.current && |SlashesOf(s, v)| == 0
  {
    assert SlashesOf(s, v) == {};
  }

  /** The reference counts of a validator total one plus its delegations, no slash event is left, and every
      delegation starts at the context height from a record that exists. */
  lemma ResetReferences(s: Distr, view: View, v: Addr)
    requires WellFormed(s, view) && Reset(s, view).Some? && v in view.validators
    ensures var t := Reset(s, view).value;
            t.slashes == {} && v in t.current
            && TotalReferences(t, v, t.current[v].period) == 1 + |DelegationsOf(Elements(view.delegations), v)|
            && (forall p :: p in t.historical && p.validator == v ==> p.number < t.current[v].period)
            && forall k :: k in view.delegations ==> Alive(t, k) && t.starting[k].height == view.height
  {
    hide Reset, Stored, Counted, Accrued, Funded, Backed, Covered, OnlyLost, Fresh, Restarted, TotalReferences,
      DelegationsOf, SlashesOf, Completes;
    ResetOutcome(s, view);
    var t := Reset(s, view).value;
    FreshHasNoSlashes(t, view.validators, view.delegations, v);
    RestartedHeights(t, view, view.delegations);
    StartsAlive(t, t.starting.Keys);
    ReferenceCount(t, t.starting.Keys, v);
  }

  /** What the genesis of a restarted chain must hold: no slash event, nothing owed, exactly the listed delegations,
      each at `height` and worth its stake, starting from a record that exists. */
  ghost predicate RestartedAt(t: Distr, vs: seq<Addr>, ks: seq<Delegation>, stake: Delegation -> nat, height: nat) {
    && t.slashes == {}
    && (forall v :: v in vs ==>
         && v in t.current && t.current[v].rewards == map[] && t.current[v].period >= 1
         && v in t.outstanding && t.outstanding[v] == map[] && v in t.commission && t.commission[v] == map[])
    && (forall k :: k in t.starting <==> k in ks)
    && forall k :: k in ks && k in t.starting ==>
         && t.starting[k].height == height && t.starting[k].stake == stake(k)
         && Period(k.validator, t.starting[k].period) in t.historical
         && t.historical[Period(k.validator, t.starting[k].period)].references > 0
         && t.historical[Period(k.validator, t.starting[k].period)].ratio == map[]
  }

  lemma RestartedStarts(s: Distr, view: View, ks: seq<Delegation>, k: Delegation)
    requires Restarted(s, view, ks) && k in ks
    ensures k in s.starting && s.starting[k].height == view.height && s.starting[k].stake == view.stake(k)
  {
    var i :| 0 <= i < |ks| && ks[i] == k;
    assert s.starting[ks[i]].height == view.height;
  }

  lemma FreshRestarts(t: Distr, view: View)
    requires Fresh(t, view.validators, view.delegations) && Restarted(t, view, view.delegations)
    requires t.starting.Keys == Elements(view.delegations) && forall k :: k in view.delegations ==> Alive(t, k)
    ensures RestartedAt(t, view.validators, view.delegations, view.stake, view.height)
  {
    hide Restarted, Rank, FreshCount;
    forall k | k in view.delegations
      ensures k in t.starting && t.starting[k].height == view.height && t.starting[k].stake == view.stake(k) {
      RestartedStarts(t, view, view.delegations, k);
    }
  }

  lemma ResetRestarts(s: Distr, view: View)
    requires WellFormed(s, view) && Reset(s, view).Some?
    ensures RestartedAt(Reset(s, view).value, view.validators, view.delegations, view.stake, view.height)
  {
    hide Reset, Stored, Counted, Accrued, Funded, Backed, Covered, OnlyLost, Fresh, Restarted, Completes, RestartedAt;
    ResetOutcome(s, view);
    var t := Reset(s, view).value;
    StartsAlive(t, t.starting.Keys);
    FreshRestarts(t, view);
  }

  // ---------------------------------------------------------------- who is paid what

  function PayoutFor(source: Addr, to: Addr, coins: Amounts): seq<Payout> {
    if IsZero(coins) then [] else [Payout(source, to, coins)]
  }

  /** What each validator is owed in whole coins of commission, in store order, unless the bank does not pay it. */
  function CommissionPayouts(s: Distr, vs: seq<Addr>): seq<Payout> {
    if vs == [] then [] else
    var v := vs[|vs| - 1];
    CommissionPayouts(s, vs[..|vs| - 1])
    + if v in s.blocked then [] else PayoutFor(v, v, Whole(CommissionOf(s, v)))
  }

  /** A list of amounts paid to delegators, in the order of the delegations. */
  function RewardPayouts(ks: seq<Delegation>, coins: seq<Amounts>): seq<Payout>
    requires |coins| == |ks|
  {
    if ks == [] then [] else
    var n := |ks| - 1;
    RewardPayouts(ks[..n], coins[..n]) + PayoutFor(ks[n].validator, ks[n].delegator, coins[n])
  }

  lemma PayPays(s: Distr, source: Addr, to: Addr, coins: Amounts)
    requires Payable(s, to, coins)
    ensures Pay(s, source, to, coins).payouts == s.payouts + PayoutFor(source, to, coins)
    ensures Pay(s, source, to, coins).commission == s.commission
    ensures Pay(s, source, to, coins).outstanding == s.outstanding
  {
  }

  lemma NoPayout(source: Addr, to: Addr, coins: Amounts)
    requires IsZero(coins)
    ensures PayoutFor(source, to, coins) == []
  {
  }

  lemma CommissionStepPays(s: Distr, v: Addr, vs: seq<Addr>)
    requires Distinct(vs) && v in vs && Covered(s, vs) && Leq(CommissionOf(s, v), OutstandingOf(s, v))
    ensures AfterCommission(s, v).Some?
    ensures AfterCommission(s, v).value.payouts
         == s.payouts + if v in s.blocked then [] else PayoutFor(v, v, Whole(CommissionOf(s, v)))
  {
    hide Covered, Distinct, Leq, Covers, Whole, Decimal, Fraction, Sub, PayoutFor, CommissionOf, OutstandingOf;
    WholeFits(CommissionOf(s, v), OutstandingOf(s, v));
    CoveredPays(s, v, vs, CommissionOf(s, v));
    CommissionPaysAs(s, v);
  }

  lemma CommissionPaysAs(s: Distr, v: Addr)
    requires Leq(Decimal(Whole(CommissionOf(s, v))), OutstandingOf(s, v))
    requires Covers(s.account, Whole(CommissionOf(s, v)))
    ensures AfterCommission(s, v).Some?
    ensures AfterCommission(s, v).value.payouts
         == s.payouts + if v in s.blocked then [] else PayoutFor(v, v, Whole(CommissionOf(s, v)))
  {
    CommissionCases(s, v);
    AfterIsTaken(s, v);
    hide AfterCommission, WithdrawCommission, Leq, Covers, Whole, Decimal, Pay, PayoutFor, IsZero, CommissionOf,
      OutstandingOf, ReduceCommission;
    var coins := Whole(CommissionOf(s, v));
    if IsZero(CommissionOf(s, v)) {
      NothingHasNoWholePart(CommissionOf(s, v));
      NoPayout(v, v, coins);
    } else if Payable(s, v, coins) {
      PayPays(ReduceCommission(s, v), v, v, coins);
      if IsZero(coins) {
        NoPayout(v, v, coins);
      }
    }
  }

  lemma CommissionFits(s: Distr, view: View, v: Addr)
    requires WellFormed(s, view) && v in view.validators
    ensures Distinct(view.validators) && Covered(s, view.validators) && Leq(CommissionOf(s, v), OutstandingOf(s, v))
  {
    hide Keyed, Counted, Accrued, Funded, Backed, Covered, Leq;
    BackedIsFunded(s, view);
  }

  lemma {:induction false} CommissionRunPays(s: Distr, view: View, vs: seq<Addr>)
    requires WellFormed(s, view) && Distinct(vs) && forall v :: v in vs ==> v in view.validators
    ensures var r := WithdrawAllCommission(s, vs);
            r.Some? && r.value.payouts == s.payouts + CommissionPayouts(s, vs)
  {
    hide WellFormed, AfterCommission, PayoutFor, OnlyLost, Whole, Covered, Leq, OutstandingOf, CommissionOf;
    if vs != [] {
      var init, v := vs[..|vs| - 1], vs[|vs| - 1];
      assert v !in init;
      CommissionRunPays(s, view, init);
      CommissionRun(s, view, init);
      var t := WithdrawAllCommission(s, init).value;
      CommissionFits(t, view, v);
      CommissionStepPays(t, v, view.validators);
    }
  }

  /** What the delegation is paid in its turn: the whole coins of its reward. */
  lemma RewardStepPays(s: Distr, view: View, k: Delegation)
    requires WithdrawRewards(s, view, k).Some?
    ensures IncrementPeriod(s, view, k.validator).Some? && k in s.starting
    ensures var due := RewardDue(IncrementPeriod(s, view, k.validator).value, view, k);
            WithdrawRewards(s, view, k).value.payouts == s.payouts + PayoutFor(k.validator, k.delegator, Whole(due))
  {
    hide IncrementPeriod, WithdrawRewards, Payable, Leq, Whole, Fraction, Sub, Add, RewardDue, Pay, PayoutFor;
    WithdrawalParts(s, view, k);
    IncrementPaysNobody(s, view, k.validator);
    var s1 := IncrementPeriod(s, view, k.validator).value;
    PayPays(s1, k.validator, k.delegator, Whole(RewardDue(s1, view, k)));
  }

  /** The coins each delegation is paid in its turn. */
  function RewardCoins(s: Distr, view: View, ks: seq<Delegation>): (coins: seq<Amounts>)
    requires WithdrawAllRewards(s, view, ks).Some?
    ensures |coins| == |ks|
  {
    if ks == [] then [] else
    var k := ks[|ks| - 1];
    var t := WithdrawAllRewards(s, view, ks[..|ks| - 1]).value;
    var u := IncrementPeriod(t, view, k.validator);
    RewardCoins(s, view, ks[..|ks| - 1])
    + [if u.Some? && k in u.value.starting then Whole(RewardDue(u.value, view, k)) else ZERO]
  }

  lemma {:induction false} RewardRunPays(s: Distr, view: View, ks: seq<Delegation>)
    requires WithdrawAllRewards(s, view, ks).Some?
    ensures WithdrawAllRewards(s, view, ks).value.payouts == s.payouts + RewardPayouts(ks, RewardCoins(s, view, ks))
  {
    hide WithdrawRewards, PayoutFor, IncrementPeriod, RewardDue, Whole;
    if ks != [] {
      var init, k := ks[..|ks| - 1], ks[|ks| - 1];
      RewardRunPays(s, view, init);
      RewardStepPays(WithdrawAllRewards(s, view, init).value, view, k);
      assert RewardCoins(s, view, ks)[..|init|] == RewardCoins(s, view, init);
    }
  }

  /** A reward is due in full if the validator owes that much; where it owes less of a denomination, what it owes
      is due; and nothing at the starting height. */
  lemma RewardDueIsCapped(s: Distr, view: View, k: Delegation)
    requires k in s.starting && Calculate(s, view, k).Some?
    ensures forall d :: var raw, owed := Amt(view.reward(s, k, view.height), d), Amt(OutstandingOf(s, k.validator), d);
                        Amt(RewardDue(s, view, k), d) == if s.starting[k].height == view.height then 0
                                                         else if raw <= owed then raw else owed
    ensures s.starting[k].height != view.height ==>
              (Leq(view.reward(s, k, view.height), OutstandingOf(s, k.validator))
               <==> RewardDue(s, view, k) == view.reward(s, k, view.height))
  {
    hide Calculate, RewardDue, Owing, OutstandingOf;
    var raw, owed := view.reward(s, k, view.height), OutstandingOf(s, k.validator);
    forall d ensures Amt(RewardDue(s, view, k), d) == if s.starting[k].height == view.height then 0
                       else if Amt(raw, d) <= Amt(owed, d) then Amt(raw, d) else Amt(owed, d) {
      RewardMeans(s, view, k, d);
      OwingMeans(s, k.validator, d);
    }
    if Leq(raw, owed) && s.starting[k].height != view.height {
      SameAmounts(RewardDue(s, view, k), raw);
    }
  }

  // ---------------------------------------------------------------- no validator pays for another

  /** The coins paid out of what `v` owed. */
  function PaidFrom(payouts: seq<Payout>, v: Addr, d: Denom): nat {
    if payouts == [] then 0 else
    var last := payouts[|payouts| - 1];
    PaidFrom(payouts[..|payouts| - 1], v, d) + if last.source == v then Amt(last.coins, d) else 0
  }

  /** What `v` owes together with what was already paid out of it. */
  function Claim(s: Distr, v: Addr, d: Denom): nat {
    Units(PaidFrom(s.payouts, v, d)) + Amt(OutstandingOf(s, v), d)
  }

  lemma {:induction false} PaidFromConcat(p: seq<Payout>, q: seq<Payout>, v: Addr, d: Denom)
    ensures PaidFrom(p + q, v, d) == PaidFrom(p, v, d) + PaidFrom(q, v, d)
  {
    if q == [] {
      assert p + q == p;
    } else {
      assert (p + q)[..|p + q| - 1] == p + q[..|q| - 1];
      PaidFromConcat(p, q[..|q| - 1], v, d);
    }
  }

  lemma PaidFromOne(source: Addr, to: Addr, coins: Amounts, v: Addr, d: Denom)
    ensures PaidFrom(PayoutFor(source, to, coins), v, d) == if source == v then Amt(coins, d) else 0
  {
    var p := PayoutFor(source, to, coins);
    assert p != [] ==> p[..|p| - 1] == [];
  }

  lemma IncrementOwesNoMore(s: Distr, view: View, w: Addr, v: Addr, d: Denom)
    requires IncrementPeriod(s, view, w).Some?
    ensures Amt(OutstandingOf(IncrementPeriod(s, view, w).value, v), d) <= Amt(OutstandingOf(s, v), d)
  {
    hide CloseRecord, Covers, Quotient, Add, LastClosed, CurrentOf;
  }

  lemma IncrementClaim(s: Distr, view: View, w: Addr, v: Addr, d: Denom)
    requires IncrementPeriod(s, view, w).Some?
    ensures Claim(IncrementPeriod(s, view, w).value, v, d) <= Claim(s, v, d)
  {
    IncrementPaysNobody(s, view, w);
    IncrementOwesNoMore(s, view, w, v, d);
    hide IncrementPeriod, PaidFrom, OutstandingOf;
  }

  lemma RewardClaim(s: Distr, view: View, k: Delegation, v: Addr, d: Denom)
    requires WithdrawRewards(s, view, k).Some?
    ensures Claim(WithdrawRewards(s, view, k).value, v, d) <= Claim(s, v, d)
  {
    RewardStepPays(s, view, k);
    var s1, t := IncrementPeriod(s, view, k.validator).value, WithdrawRewards(s, view, k).value;
    var due := RewardDue(s1, view, k);
    IncrementClaim(s, view, k.validator, v, d);
    IncrementPaysNobody(s, view, k.validator);
    PaidFromConcat(s.payouts, PayoutFor(k.validator, k.delegator, Whole(due)), v, d);
    PaidFromOne(k.validator, k.delegator, Whole(due), v, d);
    RewardTakes(s, view, k, v, d);
    hide IncrementPeriod, WithdrawRewards, RewardDue, OutstandingOf, PayoutFor, PaidFrom;
  }

  lemma RewardTakes(s: Distr, view: View, k: Delegation, v: Addr, d: Denom)
    requires WithdrawRewards(s, view, k).Some? && IncrementPeriod(s, view, k.validator).Some? && k in s.starting
    ensures var s1 := IncrementPeriod(s, view, k.validator).value;
            Amt(OutstandingOf(WithdrawRewards(s, view, k).value, v), d)
            == Amt(OutstandingOf(s1, v), d) - if v == k.validator then Amt(RewardDue(s1, view, k), d) else 0
  {
    hide IncrementPeriod, WithdrawRewards, SettleReward, Leq, Amt, RewardDue;
    WithdrawalParts(s, view, k);
    var s1 := IncrementPeriod(s, view, k.validator).value;
    SettleEffect(s1, k, RewardDue(s1, view, k));
  }

  lemma {:induction false} RewardRunClaim(s: Distr, view: View, ks: seq<Delegation>, v: Addr, d: Denom)
    requires WithdrawAllRewards(s, view, ks).Some?
    ensures Claim(WithdrawAllRewards(s, view, ks).value, v, d) <= Claim(s, v, d)
  {
    hide WithdrawRewards, Claim;
    if ks != [] {
      RewardRunClaim(s, view, ks[..|ks| - 1], v, d);
      RewardClaim(WithdrawAllRewards(s, view, ks[..|ks| - 1]).value, view, ks[|ks| - 1], v, d);
    }
  }

  lemma {:induction false} CommissionPaidFrom(s: Distr, vs: seq<Addr>, v: Addr, d: Denom)
    requires Distinct(vs)
    ensures PaidFrom(CommissionPayouts(s, vs), v, d)
         == if v in vs && v !in s.blocked then Amt(Whole(CommissionOf(s, v)), d) else 0
  {
    hide CommissionOf, Whole;
    if vs != [] {
      var init, w := vs[..|vs| - 1], vs[|vs| - 1];
      var coins := Whole(CommissionOf(s, w));
      CommissionPaidFrom(s, init, v, d);
      PaidFromConcat(CommissionPayouts(s, init), if w in s.blocked then [] else PayoutFor(w, w, coins), v, d);
      PaidFromOne(w, w, coins, v, d);
      assert v in vs <==> v in init || v == w;
      assert w !in init;
    }
  }

  /** Paid or lost, the whole coins of commission are taken from what the validator owes. */
  lemma CommissionOwesLess(s: Distr, w: Addr, v: Addr, d: Denom)
    requires Leq(Decimal(Whole(CommissionOf(s, w))), OutstandingOf(s, w))
    ensures AfterCommission(s, w).Some?
    ensures Amt(OutstandingOf(AfterCommission(s, w).value, v), d)
         == Amt(OutstandingOf(s, v), d) - if v == w then Units(Amt(Whole(CommissionOf(s, w)), d)) else 0
  {
    CommissionCases(s, w);
    AfterIsTaken(s, w);
    ReduceOwesLess(s, w, v, d);
    hide AfterCommission, WithdrawCommission, ReduceCommission, Payable, Pay, Leq, IsZero, Whole, Decimal, CommissionOf,
      OutstandingOf;
    var due := CommissionOf(s, w);
    if IsZero(due) {
      NothingHasNoWholePart(due);
      ZeroHasNoAmount(Whole(due), d);
    } else if Payable(s, w, Whole(due)) {
      PayOwesTheSame(ReduceCommission(s, w), w, w, Whole(due), v);
    }
  }

  lemma PayOwesTheSame(s: Distr, source: Addr, to: Addr, coins: Amounts, v: Addr)
    requires Payable(s, to, coins)
    ensures OutstandingOf(Pay(s, source, to, coins), v) == OutstandingOf(s, v)
  {
    PayPays(s, source, to, coins);
    hide Payable, Pay;
  }

  lemma ReduceOwesLess(s: Distr, w: Addr, v: Addr, d: Denom)
    requires Leq(Decimal(Whole(CommissionOf(s, w))), OutstandingOf(s, w))
    ensures Amt(OutstandingOf(ReduceCommission(s, w), v), d)
         == Amt(OutstandingOf(s, v), d) - if v == w then Units(Amt(Whole(CommissionOf(s, w)), d)) else 0
  {
    hide Leq, CommissionOf, Amt;
  }

  lemma {:induction false} CommissionRunOwesLess(s: Distr, view: View, vs: seq<Addr>, v: Addr, d: Denom)
    requires WellFormed(s, view) && Distinct(vs) && forall w :: w in vs ==> w in view.validators
    ensures WithdrawAllCommission(s, vs).Some?
    ensures Amt(OutstandingOf(WithdrawAllCommission(s, vs).value, v), d)
         == Amt(OutstandingOf(s, v), d) - if v in vs then Units(Amt(Whole(CommissionOf(s, v)), d)) else 0
  {
    hide WellFormed, AfterCommission, OnlyLost, Whole, Decimal, Leq, Covered, CommissionOf, OutstandingOf;
    if vs != [] {
      var init, w := vs[..|vs| - 1], vs[|vs| - 1];
      assert w !in init && (v in vs <==> v in init || v == w);
      CommissionRunOwesLess(s, view, init, v, d);
      CommissionRun(s, view, init);
      var t := WithdrawAllCommission(s, init).value;
      CommissionFits(t, view, w);
      WholeFits(CommissionOf(t, w), OutstandingOf(t, w));
      CommissionOwesLess(t, w, v, d);
    }
  }

  // ---------------------------------------------------------------- the payouts of a reset

  /** The stores the withdrawals pass through on the way to a completed reset. */
  lemma ResetPassesThrough(s: Distr, view: View)
    requires WellFormed(s, view) && Reset(s, view).Some?
    ensures Distinct(view.validators) && Distinct(view.delegations)
    ensures WithdrawAllCommission(s, view.validators).Some?
    ensures var s1 := WithdrawAllCommission(s, view.validators).value;
            WithdrawAllRewards(s1, view, view.delegations).Some? && Running(s1, view)
            && s1.starting == s.starting && s1.blocked == s.blocked
            && Reset(s, view).value.payouts == WithdrawAllRewards(s1, view, view.delegations).value.payouts
  {
    hide Running, Backed, OnlyLost, Fresh, Restarted, SameFunds, Completes, CommissionOf,
      WithdrawAllCommission, WithdrawAllRewards, ReinitializeValidators, ReinitializeDelegations;
    RunningIsStored(s, view);
    BothLoops(s, view);
    AfterCommissions(WithdrawAllCommission(s, view.validators).value, view);
  }

  /** Out of what a validator owed, its commission is taken in whole coins, and its delegators get no more than the
      rest: no validator's delegators are paid from another's rewards.  The commission is paid unless the bank does not
      pay the validator. */
  lemma DelegatorsPaidFromTheirValidator(s: Distr, view: View, v: Addr, d: Denom)
    requires WellFormed(s, view) && Reset(s, view).Some? && v in view.validators
    ensures WithdrawAllCommission(s, view.validators).Some?
    ensures var s1, t := WithdrawAllCommission(s, view.validators).value, Reset(s, view).value;
            var commission := Amt(Whole(CommissionOf(s, v)), d);
            && PaidFrom(s1.payouts, v, d) == PaidFrom(s.payouts, v, d) + (if v in s.blocked then 0 else commission)
            && PaidFrom(s1.payouts, v, d) <= PaidFrom(t.payouts, v, d)
            && Units(PaidFrom(t.payouts, v, d) - PaidFrom(s1.payouts, v, d))
               <= Amt(OutstandingOf(s, v), d) - Units(commission)
  {
    hide WithdrawAllCommission, WithdrawAllRewards, Reset, Running, Backed, CommissionPayouts, RewardPayouts,
      RewardCoins, PaidFrom, Whole, OutstandingOf, CommissionOf, Distinct;
    ResetPassesThrough(s, view);
    var s1 := WithdrawAllCommission(s, view.validators).value;
    CommissionRunPays(s, view, view.validators);
    PaidFromConcat(s.payouts, CommissionPayouts(s, view.validators), v, d);
    CommissionPaidFrom(s, view.validators, v, d);
    RewardRunPays(s1, view, view.delegations);
    PaidFromConcat(s1.payouts, RewardPayouts(view.delegations, RewardCoins(s1, view, view.delegations)), v, d);
    CommissionRunOwesLess(s, view, view.validators, v, d);
    RewardRunClaim(s1, view, view.delegations, v, d);
  }

  /** What a delegation is due in the turn a run reaches. */
  function DueInTurn(s: Distr, view: View, k: Delegation): Amounts {
    var u := IncrementPeriod(s, view, k.validator);
    if u.Some? && k in u.value.starting then Whole(RewardDue(u.value, view, k)) else ZERO
  }

  lemma {:induction false} RewardCoinsAt(s: Distr, view: View, ks: seq<Delegation>, i: nat)
    requires WithdrawAllRewards(s, view, ks).Some? && i < |ks|
    ensures WithdrawAllRewards(s, view, ks[..i]).Some?
    ensures RewardCoins(s, view, ks)[i] == DueInTurn(WithdrawAllRewards(s, view, ks[..i]).value, view, ks[i])
    decreases |ks|
  {
    hide WithdrawRewards, IncrementPeriod, RewardDue, Whole;
    var init := ks[..|ks| - 1];
    if i < |init| {
      assert init[..i] == ks[..i];
      RewardCoinsAt(s, view, init, i);
    }
  }

  /** A delegation that started at this very height, or that the bank does not pay, is due nothing. */
  lemma NothingInTurn(s: Distr, view: View, i: nat)
    requires Running(s, view) && WithdrawAllRewards(s, view, view.delegations).Some? && i < |view.delegations|
    ensures var k := view.delegations[i];
            k in s.starting && (k.delegator in s.blocked || s.starting[k].height == view.height ==>
              IsZero(RewardCoins(s, view, view.delegations)[i]))
  {
    hide Running, WithdrawAllRewards, SameFunds, AllPass, IncrementPeriod, RewardDue, Whole, IsZero, RewardCoins;
    var ks, k := view.delegations, view.delegations[i];
    StoredPrefix(s, view, i);
    RewardCoinsAt(s, view, ks, i);
    RunningIsStored(s, view);
    RewardRun(s, view, ks);
    RewardRun(s, view, ks[..i]);
    var t := WithdrawAllRewards(s, view, ks[..i]).value;
    CalculableUntilItsTurn(s, t, view, ks[..i], k);
    assert !Refused(t, view, k);
    assert IsZero(ZERO) by { NothingIsZero(); }
    var u := IncrementPeriod(t, view, k.validator);
    if u.Some? && k in u.value.starting && s.starting[k].height == view.height {
      Withdrawals.NothingDue(u.value, view, k);
    }
  }

  lemma NothingIsZero()
    ensures IsZero(ZERO)
  {
  }

  /** A delegator that the bank does not pay, or a delegation that started at the context height, gets nothing. */
  predicate NothingIfUnpaid(s: Distr, view: View, k: Delegation, coins: Amounts) {
    k in s.starting && (k.delegator in s.blocked || s.starting[k].height == view.height ==> IsZero(coins))
  }

  /** What is paid to a validator's delegators fits what it owes beyond its commission. */
  predicate RewardsFit(s: Distr, ks: seq<Delegation>, coins: seq<Amounts>, v: Addr, d: Denom)
    requires |coins| == |ks|
  {
    Units(PaidFrom(RewardPayouts(ks, coins), v, d)) + Units(Amt(Whole(CommissionOf(s, v)), d))
    <= Amt(OutstandingOf(s, v), d)
  }

  /** `coins` is what delegation `i` is due when its turn comes after the withdrawals before it and its validator's
      period is closed. */
  ghost predicate DueIs(s: Distr, view: View, i: nat, coins: Amounts)
    requires i < |view.delegations|
  {
    var k, t := view.delegations[i], WithdrawAllRewards(s, view, view.delegations[..i]);
    t.Some? && IncrementPeriod(t.value, view, k.validator).Some?
    && forall d :: Amt(coins, d) == WholeReward(IncrementPeriod(t.value, view, k.validator).value, view, k)(d)
  }

  lemma PrefixWithdraws(s: Distr, view: View, ks: seq<Delegation>, i: nat)
    requires i < |ks| && WithdrawAllRewards(s, view, ks).Some?
    ensures WithdrawAllRewards(s, view, ks[..i]).Some?
    ensures WithdrawRewards(WithdrawAllRewards(s, view, ks[..i]).value, view, ks[i]).Some?
    decreases |ks|
  {
    hide WithdrawRewards;
    var init := ks[..|ks| - 1];
    if i < |init| {
      assert init[..i] == ks[..i];
      PrefixWithdraws(s, view, init, i);
    }
  }

  lemma RewardCoinsDue(s: Distr, view: View, i: nat)
    requires WithdrawAllRewards(s, view, view.delegations).Some? && i < |view.delegations|
    ensures DueIs(s, view, i, RewardCoins(s, view, view.delegations)[i])
  {
    hide WithdrawAllRewards, WithdrawRewards, RewardCoins, IncrementPeriod, Calculate, SettleReward, RewardDue,
      WholeReward;
    var ks, k := view.delegations, view.delegations[i];
    PrefixWithdraws(s, view, ks, i);
    RewardCoinsAt(s, view, ks, i);
    var t := WithdrawAllRewards(s, view, ks[..i]).value;
    WithdrawnIsPayable(t, view, k);
    var u := IncrementPeriod(t, view, k.validator).value;
    forall d ensures Amt(RewardCoins(s, view, ks)[i], d) == WholeReward(u, view, k)(d) {
      RewardMeans(u, view, k, d);
    }
  }

  /** The payouts of a completed reset: in store order, to every validator that the bank pays the whole coins of its
      commission, then to each delegation the whole coins of the reward due in its turn, `coins`. */
  ghost predicate PayoutsAre(s: Distr, view: View, payouts: seq<Payout>, coins: seq<Amounts>) {
    var r, ks := WithdrawAllCommission(s, view.validators), view.delegations;
    && r.Some? && |coins| == |ks|
    && payouts == s.payouts + CommissionPayouts(s, view.validators) + RewardPayouts(ks, coins)
    && (forall i :: 0 <= i < |ks| ==> DueIs(r.value, view, i, coins[i]))
    && (forall i :: 0 <= i < |ks| ==> NothingIfUnpaid(s, view, ks[i], coins[i]))
    && (forall v, d :: v in view.validators ==> RewardsFit(s, ks, coins, v, d))
  }

  /** A completed reset pays every validator and every delegation what is due to it, and nothing else. */
  lemma PayoutsAreExact(s: Distr, view: View)
    requires WellFormed(s, view) && Reset(s, view).Some?
    ensures exists coins :: PayoutsAre(s, view, Reset(s, view).value.payouts, coins)
  {
    hide WithdrawAllCommission, WithdrawAllRewards, Reset, Running, Backed, CommissionPayouts, RewardPayouts,
      RewardCoins, PaidFrom, Whole, OutstandingOf, CommissionOf, Distinct, IsZero, DueIs;
    ResetPassesThrough(s, view);
    var s1, ks := WithdrawAllCommission(s, view.validators).value, view.delegations;
    var coins := RewardCoins(s1, view, ks);
    CommissionRunPays(s, view, view.validators);
    RewardRunPays(s1, view, ks);
    forall i | 0 <= i < |ks| ensures NothingIfUnpaid(s, view, ks[i], coins[i]) && DueIs(s1, view, i, coins[i]) {
      NothingInTurn(s1, view, i);
      RewardCoinsDue(s1, view, i);
    }
    forall v, d | v in view.validators ensures RewardsFit(s, ks, coins, v, d) {
      DelegatorsPaidFromTheirValidator(s, view, v, d);
      PaidFromConcat(s1.payouts, RewardPayouts(ks, coins), v, d);
    }
    assert PayoutsAre(s, view, Reset(s, view).value.payouts, coins);
  }
}
