/** What dropping the error of a commission withdrawal costs over the whole reset.  The records are reduced before the
    bank is asked, so the coins a blocked validator is not paid are neither owed nor pooled afterwards. */
module Losses {
  import opened Results
  import opened Money
  import opened Distribution
  import opened ReferenceCounts
  import opened Funds
  import opened Withdrawals
  import opened Restart

  /** No validator that the bank does not pay is owed a whole coin of commission. */
  ghost predicate NothingToLose(s: Distr, vs: seq<Addr>) {
    forall v :: v in vs && v in s.blocked ==> IsZero(Whole(CommissionOf(s, v)))
  }

  lemma NoWholeCoinIff(s: Distr, v: Addr)
    ensures (v in s.blocked ==> IsZero(Whole(CommissionOf(s, v)))) <==> forall d :: Loss(s, v, d) == 0
  {
    hide CommissionOf;
    var coins := Whole(CommissionOf(s, v));
    forall d ensures Loss(s, v, d) == if v in s.blocked then Amt(coins, d) else 0 {
      LossMeans(s, v, d);
    }
    if !IsZero(coins) {
      assert coins.Keys != {};
      var d :| d in coins;
      assert Amt(coins, d) > 0;
      assert Loss(s, v, d) == if v in s.blocked then Amt(coins, d) else 0;
    } else {
      forall d ensures Amt(coins, d) == 0 {
        ZeroHasNoAmount(coins, d);
      }
    }
  }

  ghost predicate NoneLost(s: Distr, vs: seq<Addr>) {
    forall d: Denom :: Lost(s, vs, d) == 0
  }

  lemma NothingToLoseIff(s: Distr, vs: seq<Addr>)
    ensures NothingToLose(s, vs) <==> NoneLost(s, vs)
  {
    hide Loss, IsZero, Whole, CommissionOf;
    if NothingToLose(s, vs) {
      forall d ensures Lost(s, vs, d) == 0 {
        forall v | v in vs ensures Loss(s, v, d) == 0 {
          NoWholeCoinIff(s, v);
        }
        LostNothingIff(s, vs, d);
      }
    }
    if NoneLost(s, vs) {
      forall v | v in vs && v in s.blocked ensures IsZero(Whole(CommissionOf(s, v))) {
        forall d ensures Loss(s, v, d) == 0 {
          LostNothingIff(s, vs, d);
        }
        NoWholeCoinIff(s, v);
      }
    }
  }

  lemma FundsAfter(s: Distr, t: Distr, vs: seq<Addr>)
    requires OnlyLost(s, t, vs, vs)
    ensures SameFunds(s, t, vs) <==> NoneLost(s, vs)
  {
    hide Worth, Bank;
    if SameFunds(s, t, vs) {
      forall d ensures Lost(s, vs, d) == 0 {
        assert Worth(t, vs, d) + Units(Lost(s, vs, d)) == Worth(s, vs, d) && Worth(t, vs, d) == Worth(s, vs, d);
      }
    }
  }

  lemma AccountAfter(s: Distr, t: Distr, vs: seq<Addr>, d: Denom)
    requires Solvent(s, vs) && OnlyLost(s, t, vs, vs)
    ensures Amt(t.account, d) == WholePart(Accounted(t, vs, d)) + Lost(s, vs, d)
  {
    hide Accounted, Lost, PaidOut;
    assert Worth(t, vs, d) + Units(Lost(s, vs, d)) == Worth(s, vs, d) && Bank(t, d) == Bank(s, d);
    assert Amt(s.account, d) == WholePart(Accounted(s, vs, d));
  }

  lemma SolventAfter(s: Distr, t: Distr, vs: seq<Addr>)
    requires Solvent(s, vs) && OnlyLost(s, t, vs, vs)
    ensures Solvent(t, vs) <==> NoneLost(s, vs)
  {
    hide Accounted, OnlyLost;
    forall d ensures Amt(t.account, d) == WholePart(Accounted(t, vs, d)) + Lost(s, vs, d) {
      AccountAfter(s, t, vs, d);
    }
    if Solvent(t, vs) {
      forall d ensures Lost(s, vs, d) == 0 {
        assert Amt(t.account, d) == WholePart(Accounted(t, vs, d));
      }
    }
  }

  /** A completed reset conserves funds if and only if no blocked validator was owed a whole coin of commission; and
      from a store that satisfies the module-account invariant it ends in one that does under the same condition. */
  lemma ResetConservesIff(s: Distr, view: View)
    requires WellFormed(s, view) && Reset(s, view).Some?
    ensures var t := Reset(s, view).value;
            && OnlyLost(s, t, view.validators, view.validators)
            && (SameFunds(s, t, view.validators) <==> NothingToLose(s, view.validators))
            && (Solvent(s, view.validators) ==> (Solvent(t, view.validators) <==> NothingToLose(s, view.validators)))
  {
    hide WellFormed, Reset, OnlyLost, Fresh, Restarted, SameFunds, NothingToLose, Solvent;
    var vs := view.validators;
    ResetOutcome(s, view);
    var t := Reset(s, view).value;
    NothingToLoseIff(s, vs);
    FundsAfter(s, t, vs);
    if Solvent(s, vs) {
      SolventAfter(s, t, vs);
    }
  }

  // ---------------------------------------------------------------- a store that loses a coin

  /** One validator that the bank does not pay, owed a coin of commission that the account holds. */
  function BlockedStore(v: Addr): Distr {
    var coin: Amounts := map["stake" := 1_000_000_000_000_000_000];
    Distr(ZERO, map["stake" := 1], [], map[v := coin], map[v := coin], map[v := Current(ZERO, 1)],
          map[Period(v, 0) := Historical(ZERO, 1)], map[], {}, {v})
  }

  function BlockedView(v: Addr): View {
    View([v], [], _ => 0, _ => 0, _ => 0,
         (_: set<SlashKey>, _: Starting, _: Delegation, _: nat) => 0, (_: Distr, _: Delegation, _: nat) => ZERO, 0)
  }

  lemma BlockedCounted(v: Addr)
    ensures Counted(BlockedStore(v), {}) && Accrued(BlockedStore(v).historical)
  {
    var s := BlockedStore(v);
    forall p: Period | p.validator in s.current ensures Count(s.historical, p) == References(s, {}, p) {
      assert StartedAt(s, {}, p) == {} && SlashedAt(s, p) == {};
    }
  }

  lemma BlockedSolvent(v: Addr)
    ensures Solvent(BlockedStore(v), [v]) && Worth(BlockedStore(v), [v], "stake") == Units(1)
  {
    var s := BlockedStore(v);
    assert [v][..0] == [];
    forall d ensures Accounted(s, [v], d) == Units(Amt(s.account, d)) {
      assert Owed(s.outstanding, [], d) == 0;
    }
    assert Amt(s.account, "stake") == 1;
  }

  lemma BlockedWellFormed(v: Addr)
    ensures WellFormed(BlockedStore(v), BlockedView(v)) && AllCalculable(BlockedStore(v), BlockedView(v))
    ensures Receiving(BlockedStore(v), BlockedView(v))
  {
    hide Counted, Accrued, Solvent, Covered;
    var s, view := BlockedStore(v), BlockedView(v);
    BlockedCounted(v);
    BlockedSolvent(v);
    SolventIsCovered(s, [v]);
    assert s.starting.Keys == {} && Keyed(s, view);
  }

  lemma BlockedLoses(v: Addr)
    ensures Lost(BlockedStore(v), [v], "stake") == 1
    ensures Amt(Whole(CommissionOf(BlockedStore(v), v)), "stake") == 1
  {
    assert [v][..0] == [] && Lost(BlockedStore(v), [], "stake") == 0;
  }

  /** The store satisfies every invariant and its reset completes, but the coin of commission is gone: it was neither
      paid nor is it owed or pooled, and the account still holds it. */
  lemma DroppedErrorCanLose(v: Addr)
    ensures var s, view := BlockedStore(v), BlockedView(v);
            WellFormed(s, view) && Solvent(s, [v]) && Worth(s, [v], "stake") == Units(1)
    ensures var r := Reset(BlockedStore(v), BlockedView(v));
            r.Some? && Worth(r.value, [v], "stake") == 0 && Bank(r.value, "stake") == 1 && !Solvent(r.value, [v])
  {
    hide WellFormed, Reset, OnlyLost, Fresh, Restarted, Lost, Worth, SameFunds, AllCalculable, Completes, Receiving;
    var s, view := BlockedStore(v), BlockedView(v);
    BlockedWellFormed(v);
    BlockedSolvent(v);
    BlockedLoses(v);
    ReceivingCompletesIff(s, view);
    ResetOutcome(s, view);
    ResetConservesIff(s, view);
    OnlyLostAt(s, Reset(s, view).value, [v], "stake");
    NothingToLoseIff(s, [v]);
  }

  lemma OnlyLostAt(s: Distr, t: Distr, vs: seq<Addr>, d: Denom)
    requires OnlyLost(s, t, vs, vs)
    ensures Worth(t, vs, d) + Units(Lost(s, vs, d)) == Worth(s, vs, d) && Bank(t, d) == Bank(s, d)
  {
    hide Worth, Bank;
  }
}
