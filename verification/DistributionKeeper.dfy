/** The distribution keeper as the object the export works on.  Its methods are library code: their contracts, which
    name the store functions of module Distribution, are modelling assumptions. */
module DistributionKeeper {
  import opened Results
  import opened Money
  import opened Distribution

  lemma ReduceKeepsPayable(s: Distr, v: Addr, coins: Amounts)
    requires Leq(Decimal(Whole(CommissionOf(s, v))), OutstandingOf(s, v))
    ensures Payable(ReduceCommission(s, v), v, coins) <==> Payable(s, v, coins)
  {
  }

  class Keeper {
    var pool: Amounts
    var account: Amounts
    var payouts: seq<Payout>
    var outstanding: map<Addr, Amounts>
    var commission: map<Addr, Amounts>
    var current: map<Addr, Current>
    var historical: Records
    var starting: map<Delegation, Starting>
    var slashes: set<SlashKey>
    var blocked: set<Addr>

    function Store(): Distr
      reads this
    {
      Distr(pool, account, payouts, outstanding, commission, current, historical, starting, slashes, blocked)
    }

    /** The store now is `r`, unless that panicked. */
    ghost predicate Became(r: Option<Distr>, ok: bool)
      reads this
    {
      match r
      case None => !ok
      case Some(t) => ok && Store() == t
    }

    method SendCoins(source: Addr, to: Addr, coins: Amounts) returns (ok: bool)
      modifies this`account, this`payouts
      ensures ok == old(Payable(Store(), to, coins))
      ensures ok ==> Store() == Pay(old(Store()), source, to, coins)
      ensures !ok ==> Store() == old(Store())
    {
      if IsZero(coins) {
        return true;
      }
      ok := to !in blocked && Covers(account, coins);
      if ok {
        account := Sub(account, coins);
        payouts := payouts + [Payout(source, to, coins)];
      }
    }

    method TakeCommission(v: Addr) returns (coins: Amounts)
      requires Leq(Decimal(Whole(CommissionOf(Store(), v))), OutstandingOf(Store(), v))
      modifies this`commission, this`outstanding
      ensures Store() == ReduceCommission(old(Store()), v)
      ensures coins == Whole(CommissionOf(old(Store()), v))
    {
      hide Leq, Whole, Fraction, Decimal, Sub;
      var due := if v in commission then commission[v] else ZERO;
      var owed := if v in outstanding then outstanding[v] else ZERO;
      coins := Whole(due);
      commission := commission[v := Fraction(due)];
      outstanding := outstanding[v := Sub(owed, Decimal(coins))];
    }

    /** The error is `NoCommission` or a failed send; the caller may drop it. */
    method WithdrawValidatorCommission(v: Addr) returns (panicked: bool, err: bool)
      modifies this
      ensures match WithdrawCommission(old(Store()), v)
              case Panicked => panicked
              case NothingDue => !panicked && err && Store() == old(Store())
              case SendFailed(t) => !panicked && err && Store() == t
              case Paid(t) => !panicked && !err && Store() == t
    {
      hide Covers, Leq, Whole, Decimal, IsZero, Pay, Payable, ReduceCommission;
      var due := if v in commission then commission[v] else ZERO;
      var owed := if v in outstanding then outstanding[v] else ZERO;
      if IsZero(due) {
        return false, true;
      }
      if !Covers(owed, Decimal(Whole(due))) {
        return true, true;
      }
      ghost var s := Store();
      var coins := TakeCommission(v);
      ReduceKeepsPayable(s, v, coins);
      var sent := SendCoins(v, v, coins);
      return false, !sent;
    }

    method MoveCurrentToPool(v: Addr, rewards: Amounts)
      requires Leq(rewards, OutstandingOf(Store(), v))
      modifies this`pool, this`outstanding
      ensures Store() == old(Store()).(pool := Add(old(pool), rewards),
                outstanding := old(outstanding)[v := Sub(OutstandingOf(old(Store()), v), rewards)])
    {
      hide Leq, Add, Sub;
      var owed := if v in outstanding then outstanding[v] else ZERO;
      pool := Add(pool, rewards);
      outstanding := outstanding[v := Sub(owed, rewards)];
    }

    method IncrementValidatorPeriod(view: View, v: Addr) returns (ok: bool)
      modifies this
      ensures Became(IncrementPeriod(old(Store()), view, v), ok)
    {
      hide Covers, Leq, Add, Sub, Quotient, CloseRecord;
      var cur := if v in current then current[v] else Current(ZERO, 0);
      var gain := ZERO;
      if view.tokens(v) == 0 {
        var owed := if v in outstanding then outstanding[v] else ZERO;
        if !Covers(owed, cur.rewards) {
          return false;
        }
        MoveCurrentToPool(v, cur.rewards);
      } else {
        gain := Quotient(cur.rewards, view.tokens(v));
      }
      var h := CloseRecord(historical, Period(v, Before(cur.period)), Period(v, cur.period), gain);
      if h.None? {
        return false;
      }
      historical := h.value;
      current := current[v := Current(ZERO, cur.period + 1)];
      return true;
    }

    method InitDelegation(view: View, k: Delegation) returns (ok: bool)
      modifies this`historical, this`starting
      ensures Became(InitializeDelegation(old(Store()), view, k), ok)
    {
      hide AddReference;
      var last := Before((if k.validator in current then current[k.validator] else Current(ZERO, 0)).period);
      var h := AddReference(historical, Period(k.validator, last));
      if h.None? {
        return false;
      }
      historical := h.value;
      starting := starting[k := Starting(last, view.stake(k), view.height)];
      return true;
    }

    method DropDelegation(k: Delegation) returns (ok: bool)
      modifies this`historical, this`starting
      ensures Became(CloseDelegation(old(Store()), k), ok)
    {
      hide DropReference;
      if k !in starting {
        return false;
      }
      var h := DropReference(historical, Period(k.validator, starting[k].period));
      if h.None? {
        return false;
      }
      historical := h.value;
      starting := starting - {k};
      return true;
    }

    method Settle(k: Delegation, reward: Amounts) returns (ok: bool)
      requires Leq(reward, OutstandingOf(Store(), k.validator))
      modifies this
      ensures Became(SettleReward(old(Store()), k, reward), ok)
    {
      hide Covers, Leq, Whole, Fraction, Sub, Add, Payable;
      var owed := if k.validator in outstanding then outstanding[k.validator] else ZERO;
      ok := SendCoins(k.validator, k.delegator, Whole(reward));
      if ok {
        outstanding := outstanding[k.validator := Sub(owed, reward)];
        pool := Add(pool, Fraction(reward));
      }
    }

    /** An error of this call makes the export panic, so the two are not told apart. */
    method WithdrawDelegationRewards(view: View, k: Delegation) returns (ok: bool)
      modifies this
      ensures Became(WithdrawRewards(old(Store()), view, k), ok)
    {
      hide IncrementPeriod, SettleReward, CloseDelegation, InitializeDelegation, Calculate, RewardDue, OutstandingOf;
      if k.validator !in view.validators || k !in starting {
        return false;
      }
      ok := IncrementValidatorPeriod(view, k.validator);
      if ok {
        ok := Calculate(Store(), view, k).Some?;
      }
      if ok {
        ok := Settle(k, RewardDue(Store(), view, k));
      }
      if ok {
        ok := DropDelegation(k);
      }
      if ok {
        ok := InitDelegation(view, k);
      }
    }

    method DeleteAllValidatorSlashEvents()
      modifies this`slashes
      ensures Store() == old(Store()).(slashes := {})
    {
      slashes := {};
    }

    method DeleteAllValidatorHistoricalRewards()
      modifies this`historical
      ensures Store() == old(Store()).(historical := map[])
    {
      historical := map[];
    }

    method GetValidatorOutstandingRewardsCoins(v: Addr) returns (coins: Amounts)
      ensures coins == OutstandingOf(Store(), v)
    {
      coins := if v in outstanding then outstanding[v] else ZERO;
    }

    method AfterValidatorCreated(v: Addr)
      modifies this`historical, this`current, this`commission, this`outstanding
      ensures Store() == InitializeValidator(old(Store()), v)
    {
      historical := historical[Period(v, 0) := Historical(ZERO, 1)];
      current := current[v := Current(ZERO, 1)];
      commission := commission[v := ZERO];
      outstanding := outstanding[v := ZERO];
    }

    method BeforeDelegationCreated(view: View, k: Delegation) returns (ok: bool)
      modifies this
      ensures Became(if k.validator !in view.validators then None
                     else IncrementPeriod(old(Store()), view, k.validator), ok)
    {
      if k.validator !in view.validators {
        return false;
      }
      ok := IncrementValidatorPeriod(view, k.validator);
    }

    method AfterDelegationModified(view: View, k: Delegation) returns (ok: bool)
      modifies this`historical, this`starting
      ensures Became(InitializeDelegation(old(Store()), view, k), ok)
    {
      ok := InitDelegation(view, k);
    }
  }
}
