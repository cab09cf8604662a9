/** What each library operation that the export calls does to every field of the stores, denomination by
    denomination. */
module KeeperSteps {
  import opened Results
  import opened Money
  import opened Distribution
  import opened Funds
  import opened Withdrawals

  // ---------------------------------------------------------------- closing a period

  /** The current record of a validator; one that is missing reads as period 0. */
  function CurrentRecord(s: Distr, v: Addr): Current {
    if v in s.current then s.current[v] else Current(ZERO, 0)
  }

  // The number before, in 64 bits.
  function PeriodBefore(n: nat): nat {
    if n == 0 then 0xFFFF_FFFF_FFFF_FFFF else n - 1
  }

  function Owing(s: Distr, v: Addr, d: Denom): nat {
    if v in s.outstanding then Amt(s.outstanding[v], d) else 0
  }

  ghost predicate PeriodCloses(s: Distr, view: View, v: Addr) {
    var cur := CurrentRecord(s, v);
    var last := Period(v, PeriodBefore(cur.period));
    && last in s.historical && s.historical[last].references > 0
    && (view.tokens(v) == 0 ==> forall d :: Amt(cur.rewards, d) <= Owing(s, v, d))
  }

  /** One reference fewer to the last record, which goes with its last reference; the new one holds the cumulative
      ratio. */
  ghost predicate RecordClosed(s: Distr, t: Distr, view: View, v: Addr) {
    var cur := CurrentRecord(s, v);
    var last, next := Period(v, PeriodBefore(cur.period)), Period(v, cur.period);
    && last in s.historical && s.historical[last].references > 0
    && next in t.historical && t.historical[next].references == 1
    && (forall d :: Amt(t.historical[next].ratio, d) == Amt(s.historical[last].ratio, d)
                    + if view.tokens(v) == 0 then 0 else Amt(cur.rewards, d) / view.tokens(v))
    && (last in t.historical <==> s.historical[last].references != 1)
    && (last in t.historical ==>
         t.historical[last] == s.historical[last].(references := s.historical[last].references - 1))
    && forall p :: p != last && p != next ==>
         (p in t.historical <==> p in s.historical) && (p in s.historical ==> t.historical[p] == s.historical[p])
  }

  /** The rewards of a validator without tokens move to the community pool. */
  ghost predicate IdleRewardsPooled(s: Distr, t: Distr, view: View, v: Addr) {
    var cur := CurrentRecord(s, v);
    if view.tokens(v) > 0 then t.pool == s.pool && t.outstanding == s.outstanding
    else
      && v in t.outstanding && t.outstanding == s.outstanding[v := t.outstanding[v]]
      && forall d :: Amt(t.pool, d) == Amt(s.pool, d) + Amt(cur.rewards, d)
                     && Owing(t, v, d) == Owing(s, v, d) - Amt(cur.rewards, d)
  }

  lemma RecordOf(h: Records, last: Period, next: Period, gain: Amounts)
    requires last != next
    ensures CloseRecord(h, last, next, gain).Some? <==> last in h && h[last].references > 0
    ensures CloseRecord(h, last, next, gain).Some? ==>
              var g := CloseRecord(h, last, next, gain).value;
              && next in g && g[next].references == 1
              && (forall d :: Amt(g[next].ratio, d) == Amt(h[last].ratio, d) + Amt(gain, d))
              && (last in g <==> h[last].references != 1)
              && (last in g ==> g[last] == h[last].(references := h[last].references - 1))
              && forall p :: p != last && p != next ==> (p in g <==> p in h) && (p in h ==> g[p] == h[p])
  {
    hide Add;
  }

  function Gain(s: Distr, view: View, v: Addr): Amounts {
    if view.tokens(v) == 0 then ZERO else Quotient(CurrentOf(s, v).rewards, view.tokens(v))
  }

  lemma IncrementParts(s: Distr, view: View, v: Addr)
    ensures var cur := CurrentOf(s, v);
            var h := CloseRecord(s.historical, LastClosed(s, v), Period(v, cur.period), Gain(s, view, v));
            var r := IncrementPeriod(s, view, v);
            && (r.Some? <==> h.Some? && (view.tokens(v) == 0 ==> Leq(cur.rewards, OutstandingOf(s, v))))
            && (r.Some? ==>
                 r.value == s.(pool := r.value.pool, outstanding := r.value.outstanding, historical := h.value,
                               current := s.current[v := Current(ZERO, cur.period + 1)]))
  {
    hide Leq, Add, Sub, Quotient, CloseRecord, LastClosed, CurrentOf, OutstandingOf;
  }

  lemma RecordsAgree(s: Distr, v: Addr)
    ensures CurrentOf(s, v) == CurrentRecord(s, v)
    ensures LastClosed(s, v) == Period(v, PeriodBefore(CurrentRecord(s, v).period))
    ensures LastClosed(s, v) != Period(v, CurrentRecord(s, v).period)
  {
  }

  lemma OwingMeans(s: Distr, v: Addr, d: Denom)
    ensures Owing(s, v, d) == Amt(OutstandingOf(s, v), d)
  {
  }

  lemma GainMeans(s: Distr, view: View, v: Addr, d: Denom)
    ensures Amt(Gain(s, view, v), d)
         == if view.tokens(v) == 0 then 0 else Amt(CurrentRecord(s, v).rewards, d) / view.tokens(v)
  {
    RecordsAgree(s, v);
    hide CurrentOf, CurrentRecord, Quotient;
  }

  lemma ClosesRecord(s: Distr, t: Distr, view: View, v: Addr)
    requires CloseRecord(s.historical, LastClosed(s, v), Period(v, CurrentOf(s, v).period), Gain(s, view, v))
          == Some(t.historical)
    ensures RecordClosed(s, t, view, v)
  {
    RecordsAgree(s, v);
    RecordOf(s.historical, LastClosed(s, v), Period(v, CurrentOf(s, v).period), Gain(s, view, v));
    hide CloseRecord, Gain, LastClosed, CurrentOf, CurrentRecord, PeriodBefore;
    forall d {
      GainMeans(s, view, v, d);
    }
  }

  lemma PoolsIdleRewards(s: Distr, view: View, v: Addr)
    requires IncrementPeriod(s, view, v).Some?
    ensures IdleRewardsPooled(s, IncrementPeriod(s, view, v).value, view, v)
  {
    hide IncrementPeriod, Leq, CurrentOf, CurrentRecord, OutstandingOf, Owing, Amt, Add, Sub;
    IncrementEffect(s, view, v);
    RecordsAgree(s, v);
    var t := IncrementPeriod(s, view, v).value;
    forall d ensures Owing(s, v, d) == Amt(OutstandingOf(s, v), d) && Owing(t, v, d) == Amt(OutstandingOf(t, v), d) {
      OwingMeans(s, v, d);
      OwingMeans(t, v, d);
    }
    if view.tokens(v) == 0 {
      OutstandingAt(t, v);
    }
  }

  lemma OutstandingAt(s: Distr, v: Addr)
    ensures v in s.outstanding ==> OutstandingOf(s, v) == s.outstanding[v]
  {
  }

  /** A period closes exactly when the last record is referenced and, without tokens, the rewards are owed. */
  lemma ClosesPeriod(s: Distr, view: View, v: Addr)
    ensures IncrementPeriod(s, view, v).Some? <==> PeriodCloses(s, view, v)
    ensures IncrementPeriod(s, view, v).Some? ==>
              var t := IncrementPeriod(s, view, v).value;
              && t == s.(pool := t.pool, outstanding := t.outstanding, historical := t.historical, current := t.current)
              && t.current == s.current[v := Current(ZERO, CurrentRecord(s, v).period + 1)]
              && RecordClosed(s, t, view, v) && IdleRewardsPooled(s, t, view, v)
  {
    hide IncrementPeriod, CloseRecord, LastClosed, CurrentOf, CurrentRecord, OutstandingOf, PeriodBefore, Owing, Gain,
      RecordClosed, IdleRewardsPooled;
    IncrementParts(s, view, v);
    RecordsAgree(s, v);
    RecordOf(s.historical, LastClosed(s, v), Period(v, CurrentOf(s, v).period), Gain(s, view, v));
    forall d {
      OwingMeans(s, v, d);
    }
    if IncrementPeriod(s, view, v).Some? {
      ClosesRecord(s, IncrementPeriod(s, view, v).value, view, v);
      PoolsIdleRewards(s, view, v);
    }
  }

  // ---------------------------------------------------------------- starting and ending a delegation

  /** A start takes a reference to the last record, which must not have three already; a missing one is made up. */
  lemma StartsDelegation(s: Distr, view: View, k: Delegation)
    ensures var last := Period(k.validator, PeriodBefore(CurrentRecord(s, k.validator).period));
            var record := if last in s.historical then s.historical[last] else Historical(map[], 0);
            var r := InitializeDelegation(s, view, k);
            && (r.Some? <==> record.references < 3)
            && (r.Some? ==>
                 r.value == s.(historical := s.historical[last := record.(references := record.references + 1)],
                               starting := s.starting[k := Starting(last.number, view.stake(k), view.height)]))
  {
  }

  /** The end of a delegation gives its reference back; a record goes with its last reference. */
  lemma EndsDelegation(s: Distr, k: Delegation)
    ensures CloseDelegation(s, k).Some? <==>
            k in s.starting && var p := Period(k.validator, s.starting[k].period);
            p in s.historical && s.historical[p].references > 0
    ensures CloseDelegation(s, k).Some? ==>
              var p := Period(k.validator, s.starting[k].period);
              var n := s.historical[p].references;
              CloseDelegation(s, k).value
              == s.(starting := s.starting - {k},
                    historical := if n == 1 then s.historical - {p}
                                  else s.historical[p := s.historical[p].(references := n - 1)])
  {
  }

  // ---------------------------------------------------------------- validators again

  /** A validator is created anew after its outstanding rewards went to the community pool. */
  lemma RecreatesValidator(s: Distr, v: Addr)
    ensures var t := InitializeValidator(Donate(s, v), v);
            && (forall d :: Amt(t.pool, d) == Amt(s.pool, d) + Owing(s, v, d))
            && t == s.(pool := t.pool, historical := s.historical[Period(v, 0) := Historical(map[], 1)],
                       current := s.current[v := Current(map[], 1)], commission := s.commission[v := map[]],
                       outstanding := s.outstanding[v := map[]])
  {
    assert forall d :: Amt(OutstandingOf(s, v), d) == Owing(s, v, d);
    hide Add;
  }

  // ---------------------------------------------------------------- paying

  /** One payout of `coins(d)` of each denomination, or none if they are all zero. */
  ghost predicate PaidOnce(s: Distr, t: Distr, source: Addr, to: Addr, coins: Denom -> nat) {
    && (forall d :: Amt(t.account, d) == Amt(s.account, d) - coins(d))
    && if forall d :: coins(d) == 0 then t.payouts == s.payouts && t.account == s.account
       else |t.payouts| == |s.payouts| + 1 && t.payouts[..|s.payouts|] == s.payouts
            && var last := t.payouts[|s.payouts|];
            last.source == source && last.to == to && forall d :: Amt(last.coins, d) == coins(d)
  }

  lemma ZeroIff(a: Amounts)
    ensures IsZero(a) <==> forall d :: Amt(a, d) == 0
  {
    if !IsZero(a) {
      assert a.Keys != {};
      var d :| d in a;
      assert Amt(a, d) > 0;
    }
  }

  lemma PaysOnce(s: Distr, source: Addr, to: Addr, a: Amounts, coins: Denom -> nat)
    requires forall d :: coins(d) == Amt(a, d)
    ensures Payable(s, to, a) <==>
            (forall d :: coins(d) == 0) || (to !in s.blocked && forall d :: coins(d) <= Amt(s.account, d))
    ensures Payable(s, to, a) ==>
              var t := Pay(s, source, to, a);
              PaidOnce(s, t, source, to, coins) && t == s.(account := t.account, payouts := t.payouts)
  {
    ZeroIff(a);
    hide IsZero, Sub;
  }

  // ---------------------------------------------------------------- commission

  function Due(s: Distr, v: Addr, d: Denom): nat {
    if v in s.commission then Amt(s.commission[v], d) else 0
  }

  /** The whole coins left the commission and the outstanding rewards of `v`; the fraction stays. */
  ghost predicate CommissionReduced(s: Distr, t: Distr, v: Addr) {
    && v in t.commission && t.commission == s.commission[v := t.commission[v]]
    && v in t.outstanding && t.outstanding == s.outstanding[v := t.outstanding[v]]
    && forall d :: Due(t, v, d) == Due(s, v, d) % 1_000_000_000_000_000_000
                   && Owing(t, v, d) == Owing(s, v, d) - (Due(s, v, d) - Due(s, v, d) % 1_000_000_000_000_000_000)
  }

  function WholeDue(s: Distr, v: Addr): Denom -> nat {
    (d: Denom) => Due(s, v, d) / 1_000_000_000_000_000_000
  }

  // Nothing is due / what is owed covers the whole coins / the bank sends them.
  ghost predicate NothingIsDue(s: Distr, v: Addr) {
    forall d :: Due(s, v, d) == 0
  }

  ghost predicate WholeDueFits(s: Distr, v: Addr) {
    forall d :: 1_000_000_000_000_000_000 * WholeDue(s, v)(d) <= Owing(s, v, d)
  }

  ghost predicate WholeDueSent(s: Distr, v: Addr) {
    || (forall d :: WholeDue(s, v)(d) == 0)
    || (v !in s.blocked && forall d :: WholeDue(s, v)(d) <= Amt(s.account, d))
  }

  lemma DueMeans(s: Distr, v: Addr, d: Denom)
    ensures Due(s, v, d) == Amt(CommissionOf(s, v), d) && WholeDue(s, v)(d) == Amt(Whole(CommissionOf(s, v)), d)
  {
  }

  lemma DueConditions(s: Distr, v: Addr)
    ensures IsZero(CommissionOf(s, v)) <==> NothingIsDue(s, v)
    ensures Leq(Decimal(Whole(CommissionOf(s, v))), OutstandingOf(s, v)) <==> WholeDueFits(s, v)
    ensures Payable(s, v, Whole(CommissionOf(s, v))) <==> WholeDueSent(s, v)
  {
    hide Due, CommissionOf, OutstandingOf, Owing, IsZero, Payable, WholeDue;
    var due := CommissionOf(s, v);
    forall d ensures Due(s, v, d) == Amt(due, d) && Owing(s, v, d) == Amt(OutstandingOf(s, v), d)
      ensures 1_000_000_000_000_000_000 * WholeDue(s, v)(d) == Amt(Decimal(Whole(due)), d) {
      DueMeans(s, v, d);
      OwingMeans(s, v, d);
    }
    ZeroIff(due);
    forall d {
      DueMeans(s, v, d);
    }
    PaysOnce(s, v, v, Whole(due), WholeDue(s, v));
  }

  lemma ReducesAt(s: Distr, v: Addr, d: Denom)
    requires Leq(Decimal(Whole(CommissionOf(s, v))), OutstandingOf(s, v))
    ensures var t := ReduceCommission(s, v);
            && v in t.commission && t.commission == s.commission[v := t.commission[v]]
            && v in t.outstanding && t.outstanding == s.outstanding[v := t.outstanding[v]]
            && t == s.(commission := t.commission, outstanding := t.outstanding)
            && Due(t, v, d) == Due(s, v, d) % 1_000_000_000_000_000_000
            && Owing(t, v, d) == Owing(s, v, d) - (Due(s, v, d) - Due(s, v, d) % 1_000_000_000_000_000_000)
  {
    DueMeans(s, v, d);
    OwingMeans(s, v, d);
    var due := CommissionOf(s, v);
    assert Amt(due, d) == Units(WholePart(Amt(due, d))) + FractionPart(Amt(due, d));
    hide Leq, CommissionOf, OutstandingOf, Whole, Fraction, Decimal, Sub, Amt;
  }

  lemma Reduces(s: Distr, v: Addr)
    requires Leq(Decimal(Whole(CommissionOf(s, v))), OutstandingOf(s, v))
    ensures var t := ReduceCommission(s, v);
            CommissionReduced(s, t, v) && t == s.(commission := t.commission, outstanding := t.outstanding)
  {
    hide ReduceCommission, Leq, Due, Owing;
    forall d {
      ReducesAt(s, v, d);
    }
    ReducesAt(s, v, "");
  }

  /** The four outcomes of a commission withdrawal, and the whole store after each. */
  lemma WithdrawsCommission(s: Distr, v: Addr)
    ensures match WithdrawCommission(s, v)
            case NothingDue => NothingIsDue(s, v)
            case Panicked => !NothingIsDue(s, v) && !WholeDueFits(s, v)
            case SendFailed(t) =>
              && !NothingIsDue(s, v) && WholeDueFits(s, v) && !WholeDueSent(s, v) && CommissionReduced(s, t, v)
              && t == s.(commission := t.commission, outstanding := t.outstanding)
            case Paid(t) =>
              && !NothingIsDue(s, v) && WholeDueFits(s, v) && WholeDueSent(s, v) && CommissionReduced(s, t, v)
              && PaidOnce(s, t, v, v, WholeDue(s, v))
              && t == s.(commission := t.commission, outstanding := t.outstanding, account := t.account,
                         payouts := t.payouts)
  {
    CommissionCases(s, v);
    DueConditions(s, v);
    hide *;
    var due := CommissionOf(s, v);
    if !IsZero(due) && Leq(Decimal(Whole(due)), OutstandingOf(s, v)) {
      Reduces(s, v);
      if Payable(s, v, Whole(due)) {
        forall d {
          DueMeans(s, v, d);
        }
        PaysOnce(ReduceCommission(s, v), v, v, Whole(due), WholeDue(s, v));
        PaidAfterReduction(s, ReduceCommission(s, v), Pay(ReduceCommission(s, v), v, v, Whole(due)), v);
      }
    }
  }

  lemma PaidAfterReduction(s: Distr, s1: Distr, t: Distr, v: Addr)
    requires CommissionReduced(s, s1, v) && s1 == s.(commission := s1.commission, outstanding := s1.outstanding)
    requires PaidOnce(s1, t, v, v, WholeDue(s, v)) && t == s1.(account := t.account, payouts := t.payouts)
    ensures CommissionReduced(s, t, v) && PaidOnce(s, t, v, v, WholeDue(s, v))
    ensures t == s.(commission := t.commission, outstanding := t.outstanding, account := t.account,
                    payouts := t.payouts)
  {
    hide WholeDue;
  }

  // ---------------------------------------------------------------- rewards

  function RatioAt(s: Distr, p: Period, d: Denom): nat {
    if p in s.historical then Amt(s.historical[p].ratio, d) else 0
  }

  /** The stake a delegation is calculated with: slash events count once the context is past its start. */
  function StakeEnd(s: Distr, view: View, k: Delegation): nat
    requires k in s.starting
  {
    var start := s.starting[k];
    if view.height > start.height then view.afterSlashes(s.slashes, start, k, view.height) else start.stake
  }

  /** The calculation panics on a stake of more than 3 smallest decimals beyond what the shares are worth, or on a ratio
      that went down; and not at all for a delegation that started at the context height. */
  lemma CalculationPanics(s: Distr, view: View, k: Delegation)
    requires k in s.starting
    ensures var first := Period(k.validator, s.starting[k].period);
            var last := Period(k.validator, PeriodBefore(CurrentRecord(s, k.validator).period));
            Calculate(s, view, k).None? <==>
              && s.starting[k].height != view.height
              && (|| StakeEnd(s, view, k) > view.currentStake(k) + 3
                  || exists d :: RatioAt(s, first, d) > RatioAt(s, last, d))
  {
    RecordsAgree(s, k.validator);
    hide LastClosed, CurrentRecord, PeriodBefore;
    var first, last := Period(k.validator, s.starting[k].period), LastClosed(s, k.validator);
    forall d ensures RatioAt(s, first, d) == Amt(HistoricalOf(s.historical, first).ratio, d)
             ensures RatioAt(s, last, d) == Amt(HistoricalOf(s.historical, last).ratio, d) {
    }
  }

  /** What is due once the period is closed: the reward, but of no denomination more than the validator owes; nothing at
      the starting height. */
  function RewardAt(s: Distr, view: View, k: Delegation, d: Denom): nat {
    var raw, owing := Amt(view.reward(s, k, view.height), d), Owing(s, k.validator, d);
    if k in s.starting && s.starting[k].height == view.height then 0 else if raw <= owing then raw else owing
  }

  function WholeReward(s: Distr, view: View, k: Delegation): Denom -> nat {
    (d: Denom) => RewardAt(s, view, k, d) / 1_000_000_000_000_000_000
  }

  lemma RewardMeans(s: Distr, view: View, k: Delegation, d: Denom)
    requires k in s.starting && Calculate(s, view, k).Some?
    ensures Amt(RewardDue(s, view, k), d) == RewardAt(s, view, k, d)
    ensures Amt(Whole(RewardDue(s, view, k)), d) == WholeReward(s, view, k)(d)
  {
    OwingMeans(s, k.validator, d);
    hide Owing, OutstandingOf, LastClosed, HistoricalOf, Calculable, Covers;
  }

  /** The whole coins left the account, the fraction went to the pool, and the validator owes that much less. */
  ghost predicate RewardSettled(s: Distr, t: Distr, view: View, k: Delegation) {
    var v := k.validator;
    && PaidOnce(s, t, v, k.delegator, WholeReward(s, view, k))
    && v in t.outstanding && t.outstanding == s.outstanding[v := t.outstanding[v]]
    && forall d :: Amt(t.pool, d) == Amt(s.pool, d) + RewardAt(s, view, k, d) % 1_000_000_000_000_000_000
                   && Owing(t, v, d) == Owing(s, v, d) - RewardAt(s, view, k, d)
  }

  lemma SettlesPayout(s: Distr, view: View, k: Delegation)
    requires k in s.starting && Calculate(s, view, k).Some? && SettleReward(s, k, RewardDue(s, view, k)).Some?
    ensures var t := SettleReward(s, k, RewardDue(s, view, k)).value;
            PaidOnce(s, t, k.validator, k.delegator, WholeReward(s, view, k))
  {
    hide *;
    var due := RewardDue(s, view, k);
    forall d {
      RewardMeans(s, view, k, d);
    }
    SettleEffect(s, k, due);
    PaysOnce(s, k.validator, k.delegator, Whole(due), WholeReward(s, view, k));
    PaidOnceAs(s, Pay(s, k.validator, k.delegator, Whole(due)), SettleReward(s, k, due).value, k.validator, k.delegator,
               WholeReward(s, view, k));
  }

  lemma PaidOnceAs(s: Distr, u: Distr, t: Distr, source: Addr, to: Addr, coins: Denom -> nat)
    requires PaidOnce(s, u, source, to, coins) && t.account == u.account && t.payouts == u.payouts
    ensures PaidOnce(s, t, source, to, coins)
  {
  }

  lemma SettlesReward(s: Distr, view: View, k: Delegation)
    requires k in s.starting && Calculate(s, view, k).Some? && SettleReward(s, k, RewardDue(s, view, k)).Some?
    ensures var t := SettleReward(s, k, RewardDue(s, view, k)).value;
            && RewardSettled(s, t, view, k)
            && t == s.(pool := t.pool, account := t.account, payouts := t.payouts, outstanding := t.outstanding)
  {
    hide Calculate, SettleReward, RewardDue, Leq, Amt, Owing, OutstandingOf, RewardAt, WholeReward, PaidOnce;
    SettlesPayout(s, view, k);
    SettleKeeps(s, k, RewardDue(s, view, k));
    forall d {
      SettlesRewardAt(s, view, k, d);
    }
  }

  lemma SettleKeeps(s: Distr, k: Delegation, reward: Amounts)
    requires Leq(reward, OutstandingOf(s, k.validator)) && SettleReward(s, k, reward).Some?
    ensures var t := SettleReward(s, k, reward).value;
            && k.validator in t.outstanding && t.outstanding == s.outstanding[k.validator := t.outstanding[k.validator]]
            && t == s.(pool := t.pool, account := t.account, payouts := t.payouts, outstanding := t.outstanding)
  {
    hide Leq, Add, Sub, OutstandingOf, Payable, Whole, Fraction;
    PayKeeps(s, k.validator, k.delegator, Whole(reward));
  }

  lemma SettlesRewardAt(s: Distr, view: View, k: Delegation, d: Denom)
    requires k in s.starting && Calculate(s, view, k).Some? && SettleReward(s, k, RewardDue(s, view, k)).Some?
    ensures var t := SettleReward(s, k, RewardDue(s, view, k)).value;
            && Amt(t.pool, d) == Amt(s.pool, d) + RewardAt(s, view, k, d) % 1_000_000_000_000_000_000
            && Owing(t, k.validator, d) == Owing(s, k.validator, d) - RewardAt(s, view, k, d)
  {
    hide Calculate, SettleReward, RewardDue, Payable, Leq, Amt, Owing, OutstandingOf, RewardAt, Pay, Bank, PaidOut;
    SettleAmounts(s, k, RewardDue(s, view, k), d);
    RewardMeans(s, view, k, d);
    OwingMeans(s, k.validator, d);
    OwingMeans(SettleReward(s, k, RewardDue(s, view, k)).value, k.validator, d);
    SettledOutstanding(s, k, RewardDue(s, view, k));
  }

  lemma SettledOutstanding(s: Distr, k: Delegation, reward: Amounts)
    requires Leq(reward, OutstandingOf(s, k.validator)) && SettleReward(s, k, reward).Some?
    ensures var t := SettleReward(s, k, reward).value;
            k.validator in t.outstanding && OutstandingOf(t, k.validator) == t.outstanding[k.validator]
  {
    SettleKeeps(s, k, reward);
    hide SettleReward, Leq;
  }

  /** A withdrawal of rewards that completes, once the validator's period is closed: what is paid, what goes to the
      pool, what the validator still owes, and where the delegation starts anew. */
  lemma WithdrawsReward(s: Distr, view: View, k: Delegation)
    requires WithdrawRewards(s, view, k).Some?
    ensures k.validator in view.validators && k in s.starting && IncrementPeriod(s, view, k.validator).Some?
    ensures var s1, t := IncrementPeriod(s, view, k.validator).value, WithdrawRewards(s, view, k).value;
            && s1.payouts == s.payouts && s1.account == s.account && s1.starting == s.starting
            && RewardSettled(s1, t, view, k)
            && t == s1.(pool := t.pool, account := t.account, payouts := t.payouts, outstanding := t.outstanding,
                        historical := t.historical, starting := t.starting)
            && t.starting == s.starting[k := Starting(PeriodBefore(CurrentRecord(s1, k.validator).period),
                                                      view.stake(k), view.height)]
  {
    hide *;
    WithdrawnIsPayable(s, view, k);
    IncrementEffect(s, view, k.validator);
    WithdrawalParts(s, view, k);
    WithdrawnStart(s, view, k);
    var s1, t := IncrementPeriod(s, view, k.validator).value, WithdrawRewards(s, view, k).value;
    IncrementKeepsStarts(s, s1, view, k.validator);
    SettlesReward(s1, view, k);
    SettledThenRestarted(s1, SettleReward(s1, k, RewardDue(s1, view, k)).value, t, view, k);
  }

  lemma IncrementKeepsStarts(s: Distr, t: Distr, view: View, v: Addr)
    requires IncrementPeriod(s, view, v) == Some(t)
    ensures t.starting == s.starting
  {
    hide *;
  }

  lemma SettledThenRestarted(s: Distr, u: Distr, t: Distr, view: View, k: Delegation)
    requires RewardSettled(s, u, view, k)
    requires u == s.(pool := u.pool, account := u.account, payouts := u.payouts, outstanding := u.outstanding)
    requires t == u.(historical := t.historical, starting := t.starting)
    ensures RewardSettled(s, t, view, k)
    ensures t == s.(pool := t.pool, account := t.account, payouts := t.payouts, outstanding := t.outstanding,
                    historical := t.historical, starting := t.starting)
  {
    hide WholeReward, RewardAt;
    assert forall d :: Owing(t, k.validator, d) == Owing(u, k.validator, d);
  }

  lemma WithdrawnStart(s: Distr, view: View, k: Delegation)
    requires WithdrawRewards(s, view, k).Some?
    ensures k.validator in view.validators && k in s.starting && IncrementPeriod(s, view, k.validator).Some?
    ensures var s1, t := IncrementPeriod(s, view, k.validator).value, WithdrawRewards(s, view, k).value;
            t.starting == s.starting[k := Starting(PeriodBefore(CurrentRecord(s1, k.validator).period),
                                                   view.stake(k), view.height)]
  {
    hide IncrementPeriod, Calculate, SettleReward, RewardDue, AddReference, DropReference, LastClosed, CurrentRecord,
      PeriodBefore;
    var s1 := IncrementPeriod(s, view, k.validator).value;
    SettleKeeps(s1, k, RewardDue(s1, view, k));
    var s2 := SettleReward(s1, k, RewardDue(s1, view, k)).value;
    var s3 := CloseDelegation(s2, k).value;
    RecordsAgree(s1, k.validator);
    SameCurrent(s1, s3, k.validator);
    assert (s.starting - {k})[k := Starting(LastClosed(s3, k.validator).number, view.stake(k), view.height)]
        == s.starting[k := Starting(LastClosed(s3, k.validator).number, view.stake(k), view.height)];
  }

  lemma SameCurrent(s: Distr, t: Distr, v: Addr)
    requires t.current == s.current
    ensures LastClosed(t, v) == LastClosed(s, v)
  {
  }

  /** The hooks for a delegation run only for a stored validator. */
  lemma RedelegatesOnlyToStored(s: Distr, view: View, k: Delegation)
    ensures Redelegate(s, view, k).Some? <==>
              && k.validator in view.validators && IncrementPeriod(s, view, k.validator).Some?
              && InitializeDelegation(IncrementPeriod(s, view, k.validator).value, view, k).Some?
  {
    hide IncrementPeriod, InitializeDelegation;
  }
}
