/** The distribution module's stores, and the keeper operations the zero-height reset drives, as functions from
    store to store.  `None` is a panic.  Of the reward calculation, when it panics is modelled and what it yields
    otherwise is left to `View.reward`. */
module Distribution {
  import opened Results
  import opened Money

  const MAX_UINT64: nat := 0xFFFF_FFFF_FFFF_FFFF

  datatype Addr = Addr(raw: nat)
  datatype Delegation = Delegation(delegator: Addr, validator: Addr)
  datatype Period = Period(validator: Addr, number: nat)
  datatype SlashKey = SlashKey(validator: Addr, height: nat, period: nat)

  datatype Historical = Historical(ratio: Amounts, references: nat)
  datatype Current = Current(rewards: Amounts, period: nat)
  datatype Starting = Starting(period: nat, stake: nat, height: nat)
  datatype Payout = Payout(source: Addr, to: Addr, coins: Amounts)  // `source` owed the coins

  type Records = map<Period, Historical>

  datatype Distr = Distr(
    pool: Amounts,                        // community pool
    account: Amounts,                     // the module account's coins
    payouts: seq<Payout>,                 // coins sent out of the module account, in order
    outstanding: map<Addr, Amounts>,
    commission: map<Addr, Amounts>,
    current: map<Addr, Current>,
    historical: Records,
    starting: map<Delegation, Starting>,
    slashes: set<SlashKey>,
    blocked: set<Addr>)                   // addresses the bank does not pay

  /** What the distribution keeper reads from staking and from the context.  Staking does not change while the
      distribution phase runs. */
  datatype View = View(
    validators: seq<Addr>,                // store order
    delegations: seq<Delegation>,         // store order
    tokens: Addr -> nat,
    stake: Delegation -> nat,             // tokens for the delegation's shares, truncated
    currentStake: Delegation -> nat,      // ... and rounded
    afterSlashes: (set<SlashKey>, Starting, Delegation, nat) -> nat,  // what slashes up to a height leave of a stake
    reward: (Distr, Delegation, nat) -> Amounts,  // raw reward at a height, where the calculation yields one
    height: nat)

  function OutstandingOf(s: Distr, v: Addr): Amounts {
    if v in s.outstanding then s.outstanding[v] else ZERO
  }

  function CommissionOf(s: Distr, v: Addr): Amounts {
    if v in s.commission then s.commission[v] else ZERO
  }

  function CurrentOf(s: Distr, v: Addr): Current {
    if v in s.current then s.current[v] else Current(ZERO, 0)
  }

  function HistoricalOf(h: Records, p: Period): Historical {
    if p in h then h[p] else Historical(ZERO, 0)
  }

  // uint64 decrement
  function Before(period: nat): nat {
    if period == 0 then MAX_UINT64 else period - 1
  }

  /** The last closed period of a validator. */
  function LastClosed(s: Distr, v: Addr): Period {
    Period(v, Before(CurrentOf(s, v).period))
  }

  // ---------------------------------------------------------------- keeper operations

  function DropReference(h: Records, p: Period): Option<Records> {
    var record := HistoricalOf(h, p);
    if record.references == 0 then None
    else if record.references == 1 then Some(h - {p})
    else Some(h[p := record.(references := record.references - 1)])
  }

  function AddReference(h: Records, p: Period): Option<Records> {
    var record := HistoricalOf(h, p);
    if record.references > 2 then None
    else Some(h[p := record.(references := record.references + 1)])
  }

  /** The records once the current period of `v`, in which `gain` was earned per token, is closed. */
  function CloseRecord(h: Records, last: Period, next: Period, gain: Amounts): Option<Records> {
    var h1 :- DropReference(h, last);
    Some(h1[next := Historical(Add(HistoricalOf(h, last).ratio, gain), 1)])
  }

  /** Ends the validator's current period; the rewards of a validator without tokens go to the community pool. */
  function IncrementPeriod(s: Distr, view: View, v: Addr): (r: Option<Distr>)
    ensures r.Some? ==> r.value.starting == s.starting
  {
    var cur := CurrentOf(s, v);
    var tokens := view.tokens(v);
    if tokens == 0 && !Covers(OutstandingOf(s, v), cur.rewards) then None else
    var s1 := if tokens == 0
              then s.(pool := Add(s.pool, cur.rewards),
                      outstanding := s.outstanding[v := Sub(OutstandingOf(s, v), cur.rewards)])
              else s;
    var gain := if tokens == 0 then ZERO else Quotient(cur.rewards, tokens);
    var h :- CloseRecord(s.historical, LastClosed(s, v), Period(v, cur.period), gain);
    Some(s1.(historical := h, current := s.current[v := Current(ZERO, cur.period + 1)]))
  }

  function InitializeDelegation(s: Distr, view: View, k: Delegation): Option<Distr> {
    var p := LastClosed(s, k.validator);
    var h :- AddReference(s.historical, p);
    Some(s.(historical := h, starting := s.starting[k := Starting(p.number, view.stake(k), view.height)]))
  }

  function InitializeValidator(s: Distr, v: Addr): Distr {
    s.(historical := s.historical[Period(v, 0) := Historical(ZERO, 1)],
       current := s.current[v := Current(ZERO, 1)],
       commission := s.commission[v := ZERO],
       outstanding := s.outstanding[v := ZERO])
  }

  /** The bank refuses a send that the account does not cover or whose recipient is blocked; sending nothing is not
      attempted. */
  predicate Payable(s: Distr, to: Addr, coins: Amounts) {
    IsZero(coins) || (to !in s.blocked && Covers(s.account, coins))
  }

  function Pay(s: Distr, source: Addr, to: Addr, coins: Amounts): Distr
    requires Payable(s, to, coins)
  {
    if IsZero(coins) then s
    else s.(account := Sub(s.account, coins), payouts := s.payouts + [Payout(source, to, coins)])
  }

  datatype Commissioned =
    | Panicked
    | NothingDue                 // error: no commission; the store is as it was
    | SendFailed(after: Distr)   // error: the bank refused, after the records were already reduced
    | Paid(after: Distr)

  /** The records once the whole part of the commission is taken: the fraction stays for later. */
  function ReduceCommission(s: Distr, v: Addr): Distr
    requires Leq(Decimal(Whole(CommissionOf(s, v))), OutstandingOf(s, v))
  {
    var due := CommissionOf(s, v);
    s.(commission := s.commission[v := Fraction(due)],
       outstanding := s.outstanding[v := Sub(OutstandingOf(s, v), Decimal(Whole(due)))])
  }

  function WithdrawCommission(s: Distr, v: Addr): Commissioned {
    var due := CommissionOf(s, v);
    if IsZero(due) then NothingDue
    else if !Covers(OutstandingOf(s, v), Decimal(Whole(due))) then Panicked
    else if !Payable(s, v, Whole(due)) then SendFailed(ReduceCommission(s, v))
    else Paid(Pay(ReduceCommission(s, v), v, v, Whole(due)))
  }

  /** Pays the whole part of a reward to the delegator and sends the fraction to the community pool. */
  function SettleReward(s: Distr, k: Delegation, reward: Amounts): Option<Distr>
    requires Leq(reward, OutstandingOf(s, k.validator))
  {
    var coins := Whole(reward);
    if !Payable(s, k.delegator, coins) then None else
    var rest := Sub(OutstandingOf(s, k.validator), reward);
    var s1 := Pay(s, k.validator, k.delegator, coins);
    Some(s1.(outstanding := s.outstanding[k.validator := rest], pool := Add(s.pool, Fraction(reward))))
  }

  /** Releases the period a delegation started from, and forgets the delegation. */
  function CloseDelegation(s: Distr, k: Delegation): Option<Distr> {
    if k !in s.starting then None else
    var h :- DropReference(s.historical, Period(k.validator, s.starting[k].period));
    Some(s.(historical := h, starting := s.starting - {k}))
  }

  // The stake check tolerates an excess of three smallest decimals.
  const STAKE_MARGIN: nat := 3

  /** The stake the calculation ends with: slash events count only if the context is past the starting height. */
  function FinalStake(s: Distr, view: View, k: Delegation): nat
    requires k in s.starting
  {
    var start := s.starting[k];
    if view.height > start.height then view.afterSlashes(s.slashes, start, k, view.height) else start.stake
  }

  /** A delegation that started at the context height is not calculated; any other must not end with more stake than
      it has. */
  predicate Calculable(s: Distr, view: View, k: Delegation) {
    k in s.starting
    && (s.starting[k].height == view.height || FinalStake(s, view, k) <= view.currentStake(k) + STAKE_MARGIN)
  }

  /** The reward calculation, once the period is closed: nothing at the starting height, a panic on excess stake or on a
      cumulative ratio that went down, and otherwise some reward. */
  function Calculate(s: Distr, view: View, k: Delegation): Option<Amounts>
    requires k in s.starting
  {
    if s.starting[k].height == view.height then Some(ZERO)
    else if !Calculable(s, view, k) then None
    else if !Covers(HistoricalOf(s.historical, LastClosed(s, k.validator)).ratio,
                    HistoricalOf(s.historical, Period(k.validator, s.starting[k].period)).ratio) then None
    else Some(view.reward(s, k, view.height))
  }

  /** The calculated reward, cut down to what the validator still owes. */
  function RewardDue(s: Distr, view: View, k: Delegation): (r: Amounts)
    requires k in s.starting
    ensures Leq(r, OutstandingOf(s, k.validator))
  {
    Min(Calculate(s, view, k).GetOr(ZERO), OutstandingOf(s, k.validator))
  }

  function WithdrawRewards(s: Distr, view: View, k: Delegation): Option<Distr> {
    if k.validator !in view.validators || k !in s.starting then None else
    var s1 :- IncrementPeriod(s, view, k.validator);
    var _ :- Calculate(s1, view, k);
    var s2 :- SettleReward(s1, k, RewardDue(s1, view, k));
    var s3 :- CloseDelegation(s2, k);
    InitializeDelegation(s3, view, k)
  }

  function Redelegate(s: Distr, view: View, k: Delegation): Option<Distr> {
    if k.validator !in view.validators then None else
    var s1 :- IncrementPeriod(s, view, k.validator);
    InitializeDelegation(s1, view, k)
  }

  function Donate(s: Distr, v: Addr): Distr {
    s.(pool := Add(s.pool, OutstandingOf(s, v)))
  }

  // ---------------------------------------------------------------- the export's loops, over a prefix of the store

  // The error of a commission withdrawal is dropped by the caller.
  function AfterCommission(s: Distr, v: Addr): Option<Distr> {
    match WithdrawCommission(s, v)
    case Panicked => None
    case NothingDue => Some(s)
    case SendFailed(t) => Some(t)
    case Paid(t) => Some(t)
  }

  function WithdrawAllCommission(s: Distr, vs: seq<Addr>): Option<Distr> {
    if vs == [] then Some(s) else
    var t :- WithdrawAllCommission(s, vs[..|vs| - 1]);
    AfterCommission(t, vs[|vs| - 1])
  }

  function WithdrawAllRewards(s: Distr, view: View, ks: seq<Delegation>): Option<Distr> {
    if ks == [] then Some(s) else
    var t :- WithdrawAllRewards(s, view, ks[..|ks| - 1]);
    WithdrawRewards(t, view, ks[|ks| - 1])
  }

  function Wipe(s: Distr): Distr {
    s.(slashes := {}, historical := map[])
  }

  function ReinitializeValidators(s: Distr, vs: seq<Addr>): Distr {
    if vs == [] then s else
    var t := ReinitializeValidators(s, vs[..|vs| - 1]);
    InitializeValidator(Donate(t, vs[|vs| - 1]), vs[|vs| - 1])
  }

  function ReinitializeDelegations(s: Distr, view: View, ks: seq<Delegation>): Option<Distr> {
    if ks == [] then Some(s) else
    var t :- ReinitializeDelegations(s, view, ks[..|ks| - 1]);
    Redelegate(t, view, ks[|ks| - 1])
  }

  /** The whole distribution phase. */
  function Reset(s: Distr, view: View): Option<Distr> {
    var s1 :- WithdrawAllCommission(s, view.validators);
    var s2 :- WithdrawAllRewards(s1, view, view.delegations);
    ReinitializeDelegations(ReinitializeValidators(Wipe(s2), view.validators), view, view.delegations)
  }
}
