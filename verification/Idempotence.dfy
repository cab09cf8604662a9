/** Why exporting twice changes nothing. */
module Idempotence {
  import opened Results
  import opened Money
  import opened Distribution
  import opened ReferenceCounts
  import opened Funds
  import opened Withdrawals
  import opened Restart

  /** Nothing is owed to anyone. */
  ghost predicate Idle(s: Distr, vs: seq<Addr>) {
    forall v :: v in vs ==>
      && v in s.current && s.current[v].rewards == ZERO
      && v in s.outstanding && s.outstanding[v] == ZERO
      && v in s.commission && s.commission[v] == ZERO
  }

  lemma FreshIsIdle(s: Distr, vs: seq<Addr>, ks: seq<Delegation>)
    requires Fresh(s, vs, ks)
    ensures Idle(s, vs)
  {
  }

  ghost predicate MoneyAsIn(s: Distr, t: Distr) {
    && t.pool == s.pool && t.account == s.account && t.payouts == s.payouts
    && t.outstanding == s.outstanding && t.commission == s.commission && t.blocked == s.blocked
  }

  lemma {:induction false} IdleCommission(s: Distr, vs: seq<Addr>)
    requires Idle(s, vs)
    ensures WithdrawAllCommission(s, vs) == Some(s)
  {
    if vs != [] {
      IdleCommission(s, vs[..|vs| - 1]);
      assert vs[|vs| - 1] in vs;
    }
  }

  lemma IdleSettle(s: Distr, view: View, k: Delegation)
    requires k in s.starting && k.validator in s.outstanding && s.outstanding[k.validator] == ZERO
    ensures SettleReward(s, k, RewardDue(s, view, k)) == Some(s)
  {
    var due := RewardDue(s, view, k);
    SameAmounts(due, ZERO);
    SameAmounts(Whole(due), ZERO);
    SameAmounts(Fraction(due), ZERO);
    AddNothing(s.pool);
    AddNothing(ZERO);
    assert s.outstanding[k.validator := ZERO] == s.outstanding;
    assert IsZero(ZERO);
    hide Whole, Fraction, Covers, RewardDue, Sub, Add, Leq;
  }

  lemma IdleKept(s: Distr, t: Distr, vs: seq<Addr>, v: Addr)
    requires Idle(s, vs) && t.outstanding == s.outstanding && t.commission == s.commission
    requires v in t.current && t.current == s.current[v := t.current[v]] && t.current[v].rewards == ZERO
    ensures Idle(t, vs)
  {
  }

  lemma IdleClosing(s: Distr, view: View, vs: seq<Addr>, v: Addr)
    requires Idle(s, vs) && v in vs && IncrementPeriod(s, view, v).Some?
    ensures var t := IncrementPeriod(s, view, v).value;
            MoneyAsIn(s, t)
            && v in t.current && t.current == s.current[v := t.current[v]] && t.current[v].rewards == ZERO
            && v in t.outstanding && t.outstanding[v] == ZERO
  {
    IdleIncrement(s, view, v);
    hide IncrementPeriod, CloseRecord, LastClosed;
  }

  lemma IdleWithdraw(s: Distr, view: View, vs: seq<Addr>, k: Delegation)
    requires Idle(s, vs) && k.validator in vs && WithdrawRewards(s, view, k).Some?
    ensures Idle(WithdrawRewards(s, view, k).value, vs) && MoneyAsIn(s, WithdrawRewards(s, view, k).value)
  {
    hide IncrementPeriod, WithdrawRewards, SettleReward, RewardDue, Idle;
    WithdrawalParts(s, view, k);
    var s1, t := IncrementPeriod(s, view, k.validator).value, WithdrawRewards(s, view, k).value;
    IdleClosing(s, view, vs, k.validator);
    IdleSettle(s1, view, k);
    IdleKept(s, t, vs, k.validator);
  }

  lemma {:induction false} IdleWithdrawals(s: Distr, view: View, vs: seq<Addr>, ks: seq<Delegation>)
    requires Idle(s, vs) && (forall k :: k in ks ==> k.validator in vs) && WithdrawAllRewards(s, view, ks).Some?
    ensures Idle(WithdrawAllRewards(s, view, ks).value, vs) && MoneyAsIn(s, WithdrawAllRewards(s, view, ks).value)
  {
    hide Idle, WithdrawRewards;
    if ks != [] {
      IdleWithdrawals(s, view, vs, ks[..|ks| - 1]);
      IdleWithdraw(WithdrawAllRewards(s, view, ks[..|ks| - 1]).value, view, vs, ks[|ks| - 1]);
    }
  }

  lemma WipeKeepsIdle(s: Distr, vs: seq<Addr>)
    requires Idle(s, vs)
    ensures Idle(Wipe(s), vs)
  {
  }

  lemma {:induction false} IdleDonations(s: Distr, vs: seq<Addr>, all: seq<Addr>)
    requires Idle(s, all) && forall v :: v in vs ==> v in all
    ensures var t := ReinitializeValidators(s, vs); Idle(t, all) && t.pool == s.pool
  {
    if vs != [] {
      var v := vs[|vs| - 1];
      IdleDonations(s, vs[..|vs| - 1], all);
      AddNothing(s.pool);
      assert v in all;
    }
  }

  lemma FreshRecordsUnique(g: Records, h: Records, vs: seq<Addr>, ks: seq<Delegation>)
    requires FreshRecords(g, vs, ks) && FreshRecords(h, vs, ks)
    ensures g == h
  {
    forall p ensures p in g <==> p in h {
    }
  }

  lemma RestartedUnique(s: Distr, t: Distr, view: View, view': View, ks: seq<Delegation>)
    requires Restarted(s, view, ks) && Restarted(t, view', ks)
    requires view'.height == view.height && forall k :: view'.stake(k) == view.stake(k)
    requires s.starting.Keys == Elements(ks) && t.starting.Keys == Elements(ks)
    ensures s.starting == t.starting
  {
    forall k | k in s.starting ensures s.starting[k] == t.starting[k] {
      assert k in Elements(ks);
      var i :| 0 <= i < |ks| && ks[i] == k;
      assert s.starting[ks[i]] == t.starting[ks[i]];
    }
  }

  lemma SameListsWellFormed(s: Distr, view: View, view': View)
    requires WellFormed(s, view) && view'.validators == view.validators && view'.delegations == view.delegations
    ensures WellFormed(s, view')
  {
  }

  /** Right after a reset no delegation is calculated, or due anything: each one started at this very height. */
  lemma RestartedCalculable(s: Distr, view: View, view': View)
    requires Restarted(s, view, view.delegations)
    requires view'.delegations == view.delegations && view'.height == view.height
    ensures AllCalculable(s, view') && Receiving(s, view')
  {
    forall k | k in view'.delegations ensures k in s.starting && s.starting[k].height == view'.height {
      var i :| 0 <= i < |view.delegations| && view.delegations[i] == k;
      assert s.starting[view.delegations[i]].height == view.height;
    }
  }

  /** A second reset over the same staking state always completes and returns the very same store: it pays nothing,
      donates nothing, loses nothing and rebuilds the same records, whatever the reward calculation would claim and
      whatever the delegations' stakes are worth by then. */
  lemma ResetIdempotent(s: Distr, view: View, view': View)
    requires WellFormed(s, view) && Reset(s, view).Some?
    requires view'.validators == view.validators && view'.delegations == view.delegations
    requires view'.height == view.height && forall k :: view'.stake(k) == view.stake(k)
    ensures Reset(Reset(s, view).value, view') == Reset(s, view)
  {
    hide Counted, Accrued, Funded, Backed, Covered, OnlyLost, SameFunds, FreshRecords, Restarted, Idle, WithdrawRewards,
      AfterCommission, Redelegate, InitializeValidator, Donate, Elements, AllCalculable, AllPass, NoneRefused,
      Receiving, Completes, StartsKept;
    var vs, ks := view.validators, view.delegations;
    ResetOutcome(s, view);
    var t := Reset(s, view).value;
    FreshIsIdle(t, vs, ks);
    IdleCommission(t, vs);
    SameListsWellFormed(t, view, view');
    RestartedCalculable(t, view, view');
    ReceivingCompletesIff(t, view');
    ResetOutcome(t, view');
    RewardRun(t, view', ks);
    var t1 := WithdrawAllRewards(t, view', ks).value;
    IdleWithdrawals(t, view', vs, ks);
    WipeKeepsIdle(t1, vs);
    IdleDonations(Wipe(t1), vs, vs);
    RestartOutcome(Wipe(t1), view');
    var u := Reset(t, view').value;
    FreshRecordsUnique(t.historical, u.historical, vs, ks);
    RestartedUnique(t, u, view, view', ks);
  }
}
