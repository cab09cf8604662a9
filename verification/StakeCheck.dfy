/** When the stake check stops a reset.  The export withdraws at height 0, where no slash event counts, so the stake a
    delegation started with is compared unslashed with what its shares are worth today. */
module StakeCheck {
  import opened Results
  import opened Money
  import opened Distribution
  import opened ReferenceCounts
  import opened Funds
  import opened Withdrawals
  import opened Restart

  /** Every delegation either started at height 0 or started with no more stake, up to the margin, than its shares are
      worth now. */
  ghost predicate Unslashed(s: Distr, view: View) {
    forall k :: k in view.delegations ==>
      && k in s.starting
      && (s.starting[k].height == 0 || s.starting[k].stake <= view.currentStake(k) + STAKE_MARGIN)
  }

  lemma CalculableAtZeroIff(s: Distr, view: View)
    requires view.height == 0
    ensures AllCalculable(s, view) <==> Unslashed(s, view)
  {
    forall k ensures Calculable(s, view, k) <==>
      k in s.starting && (s.starting[k].height == 0 || s.starting[k].stake <= view.currentStake(k) + STAKE_MARGIN) {
    }
  }

  /** At height 0 the reset of a well-formed store completes only if no delegation is worth less than it started with;
      and that is enough unless the bank refuses a delegator what it is due. */
  lemma ResetAtZeroCompletesIff(s: Distr, view: View)
    requires WellFormed(s, view) && view.height == 0
    ensures Reset(s, view).Some? ==> Unslashed(s, view)
    ensures Receiving(s, view) ==> (Reset(s, view).Some? <==> Unslashed(s, view))
  {
    hide Running, Backed, Reset, Fresh, Restarted, OnlyLost, AllCalculable, NoneRefused, Unslashed, Receiving;
    ResetOutcome(s, view);
    CalculableAtZeroIff(s, view);
    if Receiving(s, view) {
      ReceivingCompletesIff(s, view);
    }
  }

  // ---------------------------------------------------------------- a store it strikes

  const VALIDATOR := Addr(1)
  const DELEGATION := Delegation(Addr(2), Addr(1))

  /** A delegation of 1000 made at height 1; at height 5 the validator was slashed by a tenth.  Stakes count smallest
      decimals, tokens are whole. */
  function SlashedStore(): Distr {
    Distr(ZERO, ZERO, [], map[VALIDATOR := ZERO], map[VALIDATOR := ZERO], map[VALIDATOR := Current(ZERO, 3)],
          map[Period(VALIDATOR, 1) := Historical(ZERO, 1), Period(VALIDATOR, 2) := Historical(ZERO, 2)],
          map[DELEGATION := Starting(1, Units(1000), 1)], {SlashKey(VALIDATOR, 5, 2)}, {})
  }

  function SlashedByATenth(slashes: set<SlashKey>, start: Starting, k: Delegation, height: nat): nat {
    if slashes != {} && start.height <= 5 <= height then start.stake * 9 / 10 else start.stake
  }

  function SlashedView(height: nat): View {
    View([VALIDATOR], [DELEGATION], _ => 900, _ => Units(900), _ => Units(900),
         SlashedByATenth,
         (_: Distr, _: Delegation, _: nat) => ZERO, height)
  }

  lemma SlashedCounts()
    ensures Counted(SlashedStore(), {DELEGATION})
  {
    var s, live := SlashedStore(), {DELEGATION};
    forall p: Period | p.validator in s.current ensures Count(s.historical, p) == References(s, live, p) {
      assert StartedAt(s, live, p) == if p.number == 1 then {DELEGATION} else {};
      assert SlashedAt(s, p) == if p.number == 2 then {SlashKey(VALIDATOR, 5, 2)} else {};
    }
  }

  lemma SlashedSolvent()
    ensures Solvent(SlashedStore(), [VALIDATOR]) && Accrued(SlashedStore().historical)
  {
    var s := SlashedStore();
    assert [VALIDATOR][..0] == [];
    forall d ensures Accounted(s, [VALIDATOR], d) == 0 {
      assert Owed(s.outstanding, [], d) == 0;
    }
  }

  lemma SlashedWellFormed(height: nat)
    ensures WellFormed(SlashedStore(), SlashedView(height))
  {
    hide Counted, Solvent, Covered, Accrued;
    var s, view := SlashedStore(), SlashedView(height);
    SlashedCounts();
    SlashedSolvent();
    SolventIsCovered(s, [VALIDATOR]);
    assert s.starting.Keys == {DELEGATION};
    assert Keyed(s, view);
  }

  /** The store is well-formed, and at height 10, slash events counting, a reset completes.  At height 0 it panics. */
  lemma SlashedStorePanicsAtZero()
    ensures WellFormed(SlashedStore(), SlashedView(0)) && WellFormed(SlashedStore(), SlashedView(10))
    ensures Solvent(SlashedStore(), [VALIDATOR])
    ensures Reset(SlashedStore(), SlashedView(10)).Some?
    ensures Reset(SlashedStore(), SlashedView(0)).None?
  {
    hide WellFormed, Reset, Fresh, Restarted, OnlyLost, NoneRefused, AllCalculable, Receiving, SlashedStore,
      SlashedView;
    var s := SlashedStore();
    SlashedWellFormed(0);
    SlashedWellFormed(10);
    SlashedSolvent();
    SlashedStakes();
    ReceivingCompletesIff(s, SlashedView(10));
    ResetOutcome(s, SlashedView(0));
    ResetOutcome(s, SlashedView(10));
  }

  lemma SlashedStakes()
    ensures AllCalculable(SlashedStore(), SlashedView(10)) && !AllCalculable(SlashedStore(), SlashedView(0))
    ensures Receiving(SlashedStore(), SlashedView(10))
  {
    assert DELEGATION in SlashedView(0).delegations;
    assert !Calculable(SlashedStore(), SlashedView(0), DELEGATION);
  }
}
