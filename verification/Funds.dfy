/** Where the distribution module's money is: in the community pool, owed through validators' outstanding rewards,
    or paid out of the module account. */
module Funds {
  import opened Results
  import opened Money
  import opened Distribution

  function Owed(outstanding: map<Addr, Amounts>, vs: seq<Addr>, d: Denom): nat {
    if vs == [] then 0
    else Owed(outstanding, vs[..|vs| - 1], d)
         + if vs[|vs| - 1] in outstanding then Amt(outstanding[vs[|vs| - 1]], d) else 0
  }

  function PaidOut(payouts: seq<Payout>, d: Denom): nat {
    if payouts == [] then 0
    else PaidOut(payouts[..|payouts| - 1], d) + Amt(payouts[|payouts| - 1].coins, d)
  }

  function Accounted(s: Distr, vs: seq<Addr>, d: Denom): nat {
    Amt(s.pool, d) + Owed(s.outstanding, vs, d)
  }

  /** Community pool, outstanding rewards and payouts together, in decimal units. */
  function Worth(s: Distr, vs: seq<Addr>, d: Denom): nat {
    Accounted(s, vs, d) + Units(PaidOut(s.payouts, d))
  }

  function Bank(s: Distr, d: Denom): nat {
    Amt(s.account, d) + PaidOut(s.payouts, d)
  }

  ghost predicate SameFunds(s: Distr, t: Distr, vs: seq<Addr>) {
    forall d :: Worth(t, vs, d) == Worth(s, vs, d) && Bank(t, d) == Bank(s, d)
  }

  /** The module-account invariant: the account holds the whole part of everything accounted for. */
  ghost predicate Solvent(s: Distr, vs: seq<Addr>) {
    forall d :: Amt(s.account, d) == WholePart(Accounted(s, vs, d))
  }

  /** The account holds at least that. */
  ghost predicate Covered(s: Distr, vs: seq<Addr>) {
    forall d :: WholePart(Accounted(s, vs, d)) <= Amt(s.account, d)
  }

  /** Nothing was added to the accounts, and the bank's total is the same. */
  ghost predicate NoMoreFunds(s: Distr, t: Distr, vs: seq<Addr>) {
    forall d :: Worth(t, vs, d) <= Worth(s, vs, d) && Bank(t, d) == Bank(s, d)
  }

  lemma CoveredKept(s: Distr, t: Distr, vs: seq<Addr>)
    requires NoMoreFunds(s, t, vs) && Covered(s, vs)
    ensures Covered(t, vs)
  {
    forall d ensures WholePart(Accounted(t, vs, d)) <= Amt(t.account, d) {
      assert Worth(t, vs, d) <= Worth(s, vs, d) && Bank(t, d) == Bank(s, d);
      assert WholePart(Accounted(s, vs, d)) <= Amt(s.account, d);
    }
  }

  lemma SolventKept(s: Distr, t: Distr, vs: seq<Addr>)
    requires SameFunds(s, t, vs) && Solvent(s, vs)
    ensures Solvent(t, vs)
  {
    forall d ensures Amt(t.account, d) == WholePart(Accounted(t, vs, d)) {
      assert Worth(t, vs, d) == Worth(s, vs, d) && Bank(t, d) == Bank(s, d);
      assert Amt(s.account, d) == WholePart(Accounted(s, vs, d));
    }
  }

  lemma {:induction false} OwedUpdate(outstanding: map<Addr, Amounts>, vs: seq<Addr>, v: Addr, x: Amounts, d: Denom)
    requires Distinct(vs)
    ensures Owed(outstanding[v := x], vs, d) + (if v in vs && v in outstanding then Amt(outstanding[v], d) else 0)
         == Owed(outstanding, vs, d) + if v in vs then Amt(x, d) else 0
    ensures v in vs && v in outstanding ==> Amt(outstanding[v], d) <= Owed(outstanding, vs, d)
  {
    if vs != [] {
      var init, last := vs[..|vs| - 1], vs[|vs| - 1];
      OwedUpdate(outstanding, init, v, x, d);
      assert v in vs <==> v in init || v == last;
      assert last !in init;
    }
  }

  lemma PayEffect(s: Distr, source: Addr, to: Addr, coins: Amounts, d: Denom)
    requires Payable(s, to, coins)
    ensures var t := Pay(s, source, to, coins);
            PaidOut(t.payouts, d) == PaidOut(s.payouts, d) + Amt(coins, d) && Bank(t, d) == Bank(s, d)
            && t == s.(account := t.account, payouts := t.payouts)
  {
    assert (s.payouts + [Payout(source, to, coins)])[..|s.payouts|] == s.payouts;
  }

  /** Money that moves between the pool, one validator's outstanding rewards and the payouts is conserved. */
  lemma Moved(s: Distr, t: Distr, v: Addr, vs: seq<Addr>, d: Denom)
    requires Distinct(vs) && v in vs
    requires v in t.outstanding && t.outstanding == s.outstanding[v := t.outstanding[v]]
    ensures Worth(t, vs, d) - Worth(s, vs, d)
         == Amt(t.pool, d) - Amt(s.pool, d) + Amt(t.outstanding[v], d) - Amt(OutstandingOf(s, v), d)
            + Units(PaidOut(t.payouts, d)) - Units(PaidOut(s.payouts, d))
  {
    OwedUpdate(s.outstanding, vs, v, t.outstanding[v], d);
  }

  lemma Owes(s: Distr, v: Addr, vs: seq<Addr>, d: Denom)
    requires Distinct(vs) && v in vs
    ensures Amt(OutstandingOf(s, v), d) <= Accounted(s, vs, d)
  {
    OwedUpdate(s.outstanding, vs, v, ZERO, d);
  }

  lemma IncrementEffect(s: Distr, view: View, v: Addr)
    requires IncrementPeriod(s, view, v).Some?
    ensures var t := IncrementPeriod(s, view, v).value;
            t.payouts == s.payouts && t.account == s.account
            && if view.tokens(v) > 0 then t.outstanding == s.outstanding && t.pool == s.pool
               else Leq(CurrentOf(s, v).rewards, OutstandingOf(s, v))
                    && t.outstanding == s.outstanding[v := Sub(OutstandingOf(s, v), CurrentOf(s, v).rewards)]
                    && t.pool == Add(s.pool, CurrentOf(s, v).rewards)
  {
    hide CloseRecord, LastClosed, Quotient, Leq, Add, Sub, CurrentOf, OutstandingOf;
  }

  lemma IncrementAt(s: Distr, view: View, v: Addr, vs: seq<Addr>, d: Denom)
    requires IncrementPeriod(s, view, v).Some? && Distinct(vs) && v in vs
    ensures Worth(IncrementPeriod(s, view, v).value, vs, d) == Worth(s, vs, d)
  {
    hide IncrementPeriod, CurrentOf, OutstandingOf, Leq, Amt, Distinct, Owed, PaidOut;
    var t := IncrementPeriod(s, view, v).value;
    IncrementEffect(s, view, v);
    if view.tokens(v) == 0 {
      Moved(s, t, v, vs, d);
    }
  }

  lemma IncrementConserves(s: Distr, view: View, v: Addr, vs: seq<Addr>)
    requires IncrementPeriod(s, view, v).Some? && Distinct(vs) && v in vs
    ensures var t := IncrementPeriod(s, view, v).value;
            SameFunds(s, t, vs) && t.payouts == s.payouts && t.account == s.account
  {
    hide IncrementPeriod, Worth, Leq, Distinct;
    IncrementEffect(s, view, v);
    forall d {
      IncrementAt(s, view, v, vs, d);
    }
  }

  /** An account that covers what is accounted for can pay the whole part of anything a validator owes. */
  lemma CoveredPays(s: Distr, v: Addr, vs: seq<Addr>, a: Amounts)
    requires Distinct(vs) && v in vs && Covered(s, vs) && Leq(a, OutstandingOf(s, v))
    ensures Covers(s.account, Whole(a))
  {
    forall d ensures Amt(Whole(a), d) <= Amt(s.account, d) {
      Owes(s, v, vs, d);
      assert Amt(a, d) <= Amt(OutstandingOf(s, v), d) && WholePart(Accounted(s, vs, d)) <= Amt(s.account, d);
    }
  }

  lemma SettleEffect(s: Distr, k: Delegation, reward: Amounts)
    requires Leq(reward, OutstandingOf(s, k.validator)) && SettleReward(s, k, reward).Some?
    ensures Payable(s, k.delegator, Whole(reward))
    ensures var v, t := k.validator, SettleReward(s, k, reward).value;
            var paid := Pay(s, v, k.delegator, Whole(reward));
            && t.outstanding == s.outstanding[v := Sub(OutstandingOf(s, v), reward)]
            && t.pool == Add(s.pool, Fraction(reward))
            && t.account == paid.account && t.payouts == paid.payouts
  {
    hide Leq, Whole, Fraction, Sub, Add, Payable, OutstandingOf;
    PayKeeps(s, k.validator, k.delegator, Whole(reward));
  }

  lemma PayKeeps(s: Distr, source: Addr, to: Addr, coins: Amounts)
    requires Payable(s, to, coins)
    ensures var t := Pay(s, source, to, coins); t == s.(account := t.account, payouts := t.payouts)
  {
  }

  lemma SettleAmounts(s: Distr, k: Delegation, reward: Amounts, d: Denom)
    requires Leq(reward, OutstandingOf(s, k.validator)) && SettleReward(s, k, reward).Some?
    ensures var v, t := k.validator, SettleReward(s, k, reward).value;
            && v in t.outstanding && t.outstanding == s.outstanding[v := t.outstanding[v]]
            && Amt(t.outstanding[v], d) == Amt(OutstandingOf(s, v), d) - Amt(reward, d)
            && Amt(t.pool, d) == Amt(s.pool, d) + FractionPart(Amt(reward, d))
            && PaidOut(t.payouts, d) == PaidOut(s.payouts, d) + WholePart(Amt(reward, d))
            && Bank(t, d) == Bank(s, d)
  {
    hide SettleReward, Pay, Payable, Leq, Amt, OutstandingOf, PaidOut, Sub, Add, Whole, Fraction;
    SettleEffect(s, k, reward);
    PayEffect(s, k.validator, k.delegator, Whole(reward), d);
  }

  lemma SettleAt(s: Distr, k: Delegation, reward: Amounts, vs: seq<Addr>, d: Denom)
    requires Leq(reward, OutstandingOf(s, k.validator)) && Distinct(vs) && k.validator in vs
    requires SettleReward(s, k, reward).Some?
    ensures var t := SettleReward(s, k, reward).value; Worth(t, vs, d) == Worth(s, vs, d) && Bank(t, d) == Bank(s, d)
  {
    hide SettleReward, Worth, Leq, Amt, Distinct, OutstandingOf, PaidOut;
    var t := SettleReward(s, k, reward).value;
    SettleAmounts(s, k, reward, d);
    Moved(s, t, k.validator, vs, d);
  }

  lemma SettleConserves(s: Distr, k: Delegation, reward: Amounts, vs: seq<Addr>)
    requires Leq(reward, OutstandingOf(s, k.validator)) && Distinct(vs) && k.validator in vs
    requires SettleReward(s, k, reward).Some?
    ensures SameFunds(s, SettleReward(s, k, reward).value, vs)
  {
    hide SettleReward, Worth, Bank, Leq, Distinct;
    forall d {
      SettleAt(s, k, reward, vs, d);
    }
  }

  lemma ReduceTakes(s: Distr, v: Addr, vs: seq<Addr>, d: Denom)
    requires Distinct(vs) && v in vs && Leq(Decimal(Whole(CommissionOf(s, v))), OutstandingOf(s, v))
    ensures Worth(ReduceCommission(s, v), vs, d) == Worth(s, vs, d) - Units(Amt(Whole(CommissionOf(s, v)), d))
    ensures Bank(ReduceCommission(s, v), d) == Bank(s, d)
  {
    Moved(s, ReduceCommission(s, v), v, vs, d);
  }

  lemma PayAddsUp(s: Distr, source: Addr, to: Addr, coins: Amounts, vs: seq<Addr>, d: Denom)
    requires Payable(s, to, coins)
    ensures Worth(Pay(s, source, to, coins), vs, d) == Worth(s, vs, d) + Units(Amt(coins, d))
    ensures Bank(Pay(s, source, to, coins), d) == Bank(s, d)
  {
    PayEffect(s, source, to, coins, d);
  }

  /** The outcomes of a commission withdrawal, by what can be read off the store beforehand. */
  lemma CommissionCases(s: Distr, v: Addr)
    ensures var due := CommissionOf(s, v);
            var fits := Leq(Decimal(Whole(due)), OutstandingOf(s, v));
            && (IsZero(due) ==> WithdrawCommission(s, v).NothingDue?)
            && (!IsZero(due) && !fits ==> WithdrawCommission(s, v).Panicked?)
            && (!IsZero(due) && fits ==>
                 var s1 := ReduceCommission(s, v);
                 && s1.account == s.account && s1.payouts == s.payouts && s1.blocked == s.blocked
                 && (Payable(s, v, Whole(due)) <==> Payable(s1, v, Whole(due)))
                 && WithdrawCommission(s, v) == if Payable(s, v, Whole(due)) then Paid(Pay(s1, v, v, Whole(due)))
                                                else SendFailed(s1))
  {
    hide Leq, Whole, Decimal, Amt, Pay, Covers, Fraction, Sub;
  }

  lemma PaidConservesAt(s: Distr, v: Addr, vs: seq<Addr>, d: Denom)
    requires Distinct(vs) && v in vs && WithdrawCommission(s, v).Paid?
    ensures var t := WithdrawCommission(s, v).after; Worth(t, vs, d) == Worth(s, vs, d) && Bank(t, d) == Bank(s, d)
  {
    CommissionCases(s, v);
    hide *;
    ReduceTakes(s, v, vs, d);
    PayAddsUp(ReduceCommission(s, v), v, v, Whole(CommissionOf(s, v)), vs, d);
  }

  lemma PaidConserves(s: Distr, v: Addr, vs: seq<Addr>)
    requires Distinct(vs) && v in vs && WithdrawCommission(s, v).Paid?
    ensures SameFunds(s, WithdrawCommission(s, v).after, vs)
  {
    hide WithdrawCommission, Worth, Bank;
    forall d {
      PaidConservesAt(s, v, vs, d);
    }
  }

  /** When the bank refuses, the records were already reduced: money is gone from the accounts. */
  lemma SendFailedLoses(s: Distr, v: Addr, vs: seq<Addr>)
    requires Distinct(vs) && v in vs
    requires Leq(Decimal(Whole(CommissionOf(s, v))), OutstandingOf(s, v)) && !Payable(s, v, Whole(CommissionOf(s, v)))
    ensures WithdrawCommission(s, v).SendFailed?
    ensures exists d :: Worth(WithdrawCommission(s, v).after, vs, d) < Worth(s, vs, d)
  {
    CommissionCases(s, v);
    var coins := Whole(CommissionOf(s, v));
    if IsZero(CommissionOf(s, v)) {
      NothingHasNoWholePart(CommissionOf(s, v));
    }
    assert coins.Keys != {};
    var d :| d in coins;
    ReduceTakes(s, v, vs, d);
    assert Worth(ReduceCommission(s, v), vs, d) < Worth(s, vs, d);
    hide *;
  }

  /** A commission withdrawal whose error is dropped runs on if and only if the whole coins of commission are
      outstanding; then it conserves funds if and only if they are none, or the bank pays the recipient and the account
      holds them. */
  lemma CommissionConserves(s: Distr, v: Addr, vs: seq<Addr>)
    requires Distinct(vs) && v in vs
    ensures var coins := Whole(CommissionOf(s, v));
            && (AfterCommission(s, v).Some? <==> Leq(Decimal(coins), OutstandingOf(s, v)))
            && (AfterCommission(s, v).Some? ==>
                 (SameFunds(s, AfterCommission(s, v).value, vs)
                  <==> IsZero(coins) || (v !in s.blocked && Leq(coins, s.account))))
  {
    var due := CommissionOf(s, v);
    CommissionCases(s, v);
    if IsZero(due) {
      NothingHasNoWholePart(due);
      NothingFits(Whole(due), OutstandingOf(s, v));
    } else if Leq(Decimal(Whole(due)), OutstandingOf(s, v)) {
      hide WithdrawCommission, Worth, Bank, Leq, Decimal, Whole, Distinct;
      if Payable(s, v, Whole(due)) {
        PaidConserves(s, v, vs);
      } else {
        SendFailedLoses(s, v, vs);
      }
    }
  }

  lemma NothingHasNoWholePart(a: Amounts)
    requires IsZero(a)
    ensures IsZero(Whole(a))
  {
    assert Whole(a) == map[];
  }

  lemma NothingFits(a: Amounts, b: Amounts)
    requires IsZero(a)
    ensures Leq(Decimal(a), b) && Leq(a, b)
  {
  }

  // ---------------------------------------------------------------- what dropped errors lose

  /** The whole coins of commission that a withdrawal loses because the bank does not pay the validator. */
  function Loss(s: Distr, v: Addr, d: Denom): nat {
    if v in s.blocked then WholePart(Amt(CommissionOf(s, v), d)) else 0
  }

  function Lost(s: Distr, vs: seq<Addr>, d: Denom): nat {
    if vs == [] then 0 else Lost(s, vs[..|vs| - 1], d) + Loss(s, vs[|vs| - 1], d)
  }

  /** The accounts over `all` are those of `s`, less what the withdrawals of `vs` lose; the bank has lost nothing. */
  ghost predicate OnlyLost(s: Distr, t: Distr, all: seq<Addr>, vs: seq<Addr>) {
    forall d :: Worth(t, all, d) + Units(Lost(s, vs, d)) == Worth(s, all, d) && Bank(t, d) == Bank(s, d)
  }

  lemma CommissionLosesAt(s: Distr, v: Addr, vs: seq<Addr>, d: Denom)
    requires Distinct(vs) && v in vs && Leq(Decimal(Whole(CommissionOf(s, v))), OutstandingOf(s, v))
    requires v in s.blocked || Covers(s.account, Whole(CommissionOf(s, v)))
    ensures AfterCommission(s, v).Some?
    ensures Worth(AfterCommission(s, v).value, vs, d) + Units(Loss(s, v, d)) == Worth(s, vs, d)
    ensures Bank(AfterCommission(s, v).value, d) == Bank(s, d)
  {
    CommissionCases(s, v);
    var coins := Whole(CommissionOf(s, v));
    PayableMeans(s, v, coins, d);
    hide *;
    AfterIsTaken(s, v);
    LossMeans(s, v, d);
    if IsZero(CommissionOf(s, v)) {
      NothingHasNoWholePart(CommissionOf(s, v));
      ZeroHasNoAmount(coins, d);
    } else if Payable(s, v, coins) {
      PaidConservesAt(s, v, vs, d);
    } else {
      ReduceTakes(s, v, vs, d);
    }
  }

  lemma AfterIsTaken(s: Distr, v: Addr)
    ensures match WithdrawCommission(s, v)
            case Panicked => true
            case NothingDue => AfterCommission(s, v) == Some(s)
            case SendFailed(t) => AfterCommission(s, v) == Some(t)
            case Paid(t) => AfterCommission(s, v) == Some(t)
  {
    hide WithdrawCommission;
  }

  lemma LossMeans(s: Distr, v: Addr, d: Denom)
    ensures Loss(s, v, d) == if v in s.blocked then Amt(Whole(CommissionOf(s, v)), d) else 0
  {
    hide CommissionOf;
  }

  lemma PayableMeans(s: Distr, v: Addr, coins: Amounts, d: Denom)
    requires v in s.blocked || Covers(s.account, coins)
    ensures Payable(s, v, coins) <==> v !in s.blocked || IsZero(coins)
    ensures IsZero(coins) ==> Amt(coins, d) == 0
  {
    hide Covers;
  }

  lemma ZeroHasNoAmount(a: Amounts, d: Denom)
    requires IsZero(a)
    ensures Amt(a, d) == 0
  {
  }

  lemma {:induction false} LostNothingIff(s: Distr, vs: seq<Addr>, d: Denom)
    ensures Lost(s, vs, d) == 0 <==> forall v :: v in vs ==> Loss(s, v, d) == 0
  {
    hide Loss;
    if vs != [] {
      var init, last := vs[..|vs| - 1], vs[|vs| - 1];
      LostNothingIff(s, init, d);
      assert forall v :: v in vs <==> v in init || v == last;
    }
  }

  lemma DonateConserves(s: Distr, v: Addr, vs: seq<Addr>)
    requires Distinct(vs) && v in vs
    ensures SameFunds(s, InitializeValidator(Donate(s, v), v), vs)
  {
    forall d {
      OwedUpdate(s.outstanding, vs, v, ZERO, d);
    }
  }
}
