/** The state export: `prepForZeroHeightGenesis`, loop by loop, on the keepers it is given. */
module Export {
  import opened Results
  import opened Money
  import opened Distribution
  import opened Staking
  import opened Funds
  import opened Withdrawals
  import opened Restart
  import opened Guarantees
  import opened StakeCheck
  import DistributionKeeper

  /** How the preparation ended: `log.Fatal` on the allow-list or on the validator set update, a panic, or normally. */
  datatype Outcome = ListRejected | UpdateFailed | Panicked | Done

  /** `LibraryError`: the module export, the encoding or the validator listing failed. */
  datatype Export = NotPrepared(outcome: Outcome) | LibraryError | Exported(height: nat)

  lemma {:induction false} CommissionPrefix(s: Distr, vs: seq<Addr>, i: nat)
    requires i <= |vs| && WithdrawAllCommission(s, vs[..i]).None?
    ensures WithdrawAllCommission(s, vs).None?
    decreases |vs|
  {
    if i < |vs| {
      assert vs[..|vs| - 1][..i] == vs[..i];
      CommissionPrefix(s, vs[..|vs| - 1], i);
    } else {
      assert vs[..i] == vs;
    }
  }

  lemma {:induction false} RewardsPrefix(s: Distr, view: View, ks: seq<Delegation>, i: nat)
    requires i <= |ks| && WithdrawAllRewards(s, view, ks[..i]).None?
    ensures WithdrawAllRewards(s, view, ks).None?
    decreases |ks|
  {
    if i < |ks| {
      assert ks[..|ks| - 1][..i] == ks[..i];
      RewardsPrefix(s, view, ks[..|ks| - 1], i);
    } else {
      assert ks[..i] == ks;
    }
  }

  lemma {:induction false} RedelegatePrefix(s: Distr, view: View, ks: seq<Delegation>, i: nat)
    requires i <= |ks| && ReinitializeDelegations(s, view, ks[..i]).None?
    ensures ReinitializeDelegations(s, view, ks).None?
    decreases |ks|
  {
    if i < |ks| {
      assert ks[..|ks| - 1][..i] == ks[..i];
      RedelegatePrefix(s, view, ks[..|ks| - 1], i);
    } else {
      assert ks[..i] == ks;
    }
  }

  class ChainApp {
    const distr: DistributionKeeper.Keeper
    const staking: StakingKeeper
    const slashing: SlashingKeeper
    const codec: AddressCodec
    const stake: Delegation -> nat
    const currentStake: Delegation -> nat
    const afterSlashes: (set<SlashKey>, Starting, Delegation, nat) -> nat
    const reward: (Distr, Delegation, nat) -> Amounts
    var lastBlockHeight: nat

    constructor (distr: DistributionKeeper.Keeper, staking: StakingKeeper, slashing: SlashingKeeper,
                 codec: AddressCodec, view: View, height: nat)
      ensures this.distr == distr && this.staking == staking && this.slashing == slashing && this.codec == codec
      ensures stake == view.stake && currentStake == view.currentStake && afterSlashes == view.afterSlashes
      ensures reward == view.reward && lastBlockHeight == height
    {
      this.distr, this.staking, this.slashing, this.codec := distr, staking, slashing, codec;
      stake, currentStake, afterSlashes, reward := view.stake, view.currentStake, view.afterSlashes, view.reward;
      lastBlockHeight := height;
    }

    /** What the distribution keeper sees of staking, at a context height. */
    function ViewAt(height: nat): (view: View)
      reads staking
      ensures view.validators == staking.order && view.delegations == staking.delegations && view.height == height
      ensures forall v :: v in staking.validators ==> view.tokens(v) == staking.validators[v].tokens
      ensures view.stake == stake && view.currentStake == currentStake
      ensures view.afterSlashes == afterSlashes && view.reward == reward
    {
      var validators := staking.validators;
      View(staking.order, staking.delegations, (v: Addr) => if v in validators then validators[v].tokens else 0,
           stake, currentStake, afterSlashes, reward, height)
    }

    method BuildAllowList(jailAllowedAddrs: seq<string>) returns (decoded: bool, allowed: set<string>)
      ensures decoded <==> forall a :: a in jailAllowedAddrs ==> codec.decode(a).Some?
      ensures decoded ==> allowed == Listed(jailAllowedAddrs)
    {
      allowed := {};
      for i := 0 to |jailAllowedAddrs|
        invariant forall a :: a in jailAllowedAddrs[..i] ==> codec.decode(a).Some?
        invariant allowed == Listed(jailAllowedAddrs[..i])
      {
        var addr := jailAllowedAddrs[i];
        if codec.decode(addr).None? {
          return false, {};
        }
        assert jailAllowedAddrs[..i + 1] == jailAllowedAddrs[..i] + [addr];
        allowed := allowed + {addr};
      }
      assert jailAllowedAddrs[..|jailAllowedAddrs|] == jailAllowedAddrs;
      decoded := true;
    }

    // -------------------------------------------------------------- distribution state

    method WithdrawCommissions(view: View) returns (ok: bool)
      modifies distr
      ensures distr.Became(WithdrawAllCommission(old(distr.Store()), view.validators), ok)
    {
      hide AfterCommission;
      ghost var s := distr.Store();
      var vs := view.validators;
      for i := 0 to |vs|
        invariant WithdrawAllCommission(s, vs[..i]) == Some(distr.Store())
      {
        assert vs[..i + 1][..i] == vs[..i];
        var panicked, _ := WithdrawCommissionOf(vs[i]);
        if panicked {
          CommissionPrefix(s, vs, i + 1);
          return false;
        }
      }
      assert vs[..|vs|] == vs;
      return true;
    }

    method WithdrawCommissionOf(v: Addr) returns (panicked: bool, err: bool)
      modifies distr
      ensures distr.Became(AfterCommission(old(distr.Store()), v), !panicked)
    {
      panicked, err := distr.WithdrawValidatorCommission(v);
    }

    method WithdrawRewards(view: View) returns (ok: bool)
      modifies distr
      ensures distr.Became(WithdrawAllRewards(old(distr.Store()), view, view.delegations), ok)
    {
      hide Distribution.WithdrawRewards;
      ghost var s := distr.Store();
      var dels := view.delegations;
      for i := 0 to |dels|
        invariant WithdrawAllRewards(s, view, dels[..i]) == Some(distr.Store())
      {
        assert dels[..i + 1][..i] == dels[..i];
        ok := distr.WithdrawDelegationRewards(view, dels[i]);
        if !ok {
          RewardsPrefix(s, view, dels, i + 1);
          return;
        }
      }
      assert dels[..|dels|] == dels;
      return true;
    }

    method ReinitValidator(v: Addr)
      modifies distr
      ensures distr.Store() == InitializeValidator(Donate(old(distr.Store()), v), v)
    {
      hide InitializeValidator, Add;
      ghost var s := distr.Store();
      var scraps := distr.GetValidatorOutstandingRewardsCoins(v);
      var feePool := distr.pool;
      feePool := Add(feePool, scraps);
      distr.pool := feePool;
      assert distr.Store() == Donate(s, v);
      distr.AfterValidatorCreated(v);
    }

    method ReinitValidators(view: View)
      modifies distr
      ensures distr.Store() == ReinitializeValidators(old(distr.Store()), view.validators)
    {
      hide InitializeValidator, Donate;
      ghost var s := distr.Store();
      var vs := view.validators;
      for i := 0 to |vs|
        invariant distr.Store() == ReinitializeValidators(s, vs[..i])
      {
        assert vs[..i + 1][..i] == vs[..i];
        ReinitValidator(vs[i]);
      }
      assert vs[..|vs|] == vs;
    }

    method ReinitDelegation(view: View, k: Delegation) returns (ok: bool)
      modifies distr
      ensures distr.Became(Redelegate(old(distr.Store()), view, k), ok)
    {
      hide IncrementPeriod, InitializeDelegation;
      ok := distr.BeforeDelegationCreated(view, k);
      if ok {
        ok := distr.AfterDelegationModified(view, k);
      }
    }

    method ReinitDelegations(view: View) returns (ok: bool)
      modifies distr
      ensures distr.Became(ReinitializeDelegations(old(distr.Store()), view, view.delegations), ok)
    {
      hide Redelegate;
      ghost var s := distr.Store();
      var dels := view.delegations;
      for i := 0 to |dels|
        invariant ReinitializeDelegations(s, view, dels[..i]) == Some(distr.Store())
      {
        assert dels[..i + 1][..i] == dels[..i];
        ok := ReinitDelegation(view, dels[i]);
        if !ok {
          RedelegatePrefix(s, view, dels, i + 1);
          return;
        }
      }
      assert dels[..|dels|] == dels;
      return true;
    }

    method ResetDistribution(view: View) returns (ok: bool)
      modifies distr
      ensures distr.Became(Reset(old(distr.Store()), view), ok)
    {
      hide WithdrawAllCommission, WithdrawAllRewards, ReinitializeValidators, ReinitializeDelegations;
      ok := WithdrawCommissions(view);
      if ok {
        ok := WithdrawRewards(view);
      }
      if ok {
        distr.DeleteAllValidatorSlashEvents();
        distr.DeleteAllValidatorHistoricalRewards();
        ReinitValidators(view);
        ok := ReinitDelegations(view);
      }
    }

    // -------------------------------------------------------------- staking state

    method ResetRedelegations()
      modifies staking`redelegations
      ensures staking.redelegations.Keys == old(staking.redelegations.Keys)
      ensures forall k :: k in staking.redelegations ==>
                RedelegationZeroed(old(staking.redelegations)[k], staking.redelegations[k])
    {
      ghost var before := staking.redelegations;
      var pending := staking.redelegations.Keys;
      while pending != {}
        invariant pending <= before.Keys && staking.redelegations.Keys == before.Keys
        invariant forall k :: k in before ==>
                    if k in pending then staking.redelegations[k] == before[k]
                    else RedelegationZeroed(before[k], staking.redelegations[k])
        decreases |pending|
      {
        var key :| key in pending;
        pending := pending - {key};
        var entries := staking.redelegations[key];
        for i := 0 to |entries|
          invariant |entries| == |before[key]|
          invariant forall j :: 0 <= j < |entries| ==>
                      entries[j] == if j < i then before[key][j].(creationHeight := 0) else before[key][j]
        {
          entries := entries[i := entries[i].(creationHeight := 0)];
        }
        staking.redelegations := staking.redelegations[key := entries];
      }
    }

    method ResetUnbondings()
      modifies staking`unbondings
      ensures staking.unbondings.Keys == old(staking.unbondings.Keys)
      ensures forall k :: k in staking.unbondings ==> UnbondingZeroed(old(staking.unbondings)[k], staking.unbondings[k])
    {
      ghost var before := staking.unbondings;
      var pending := staking.unbondings.Keys;
      while pending != {}
        invariant pending <= before.Keys && staking.unbondings.Keys == before.Keys
        invariant forall k :: k in before ==>
                    if k in pending then staking.unbondings[k] == before[k]
                    else UnbondingZeroed(before[k], staking.unbondings[k])
        decreases |pending|
      {
        var key :| key in pending;
        pending := pending - {key};
        var entries := staking.unbondings[key];
        for i := 0 to |entries|
          invariant |entries| == |before[key]|
          invariant forall j :: 0 <= j < |entries| ==>
                      entries[j] == if j < i then before[key][j].(creationHeight := 0) else before[key][j]
        {
          entries := entries[i := entries[i].(creationHeight := 0)];
        }
        staking.unbondings := staking.unbondings[key := entries];
      }
    }

    /** The reverse iteration over validator keys; `ok` is false when a key has no validator. */
    method ResetValidators(applyAllowed: bool, allowed: set<string>) returns (ok: bool)
      requires applyAllowed <==> allowed != {}
      modifies staking`validators
      ensures old(staking.Indexed()) ==> ok
      ensures ok ==> forall a :: a in staking.order ==> a in old(staking.validators)
      ensures ok ==> staking.validators.Keys == old(staking.validators.Keys)
      ensures ok ==> forall a :: a in staking.order && a in staking.validators ==>
                RecordReset(old(staking.validators)[a], staking.validators[a],
                            applyAllowed && codec.encode(a) !in allowed)
      ensures ok ==> forall a :: a in staking.validators && a !in staking.order ==>
                staking.validators[a] == old(staking.validators)[a]
    {
      ghost var before := staking.validators;
      var order := staking.order;
      var i := |order|;
      while i > 0
        invariant 0 <= i <= |order| && order == staking.order
        invariant forall a :: a in order[i..] ==> a in before
        invariant staking.validators.Keys == before.Keys
        invariant forall a :: a in order[i..] && a in before ==>
                    RecordReset(before[a], staking.validators[a], applyAllowed && codec.encode(a) !in allowed)
        invariant forall a :: a in before && a !in order[i..] ==> staking.validators[a] == before[a]
      {
        i := i - 1;
        var addr := order[i];
        assert order[i..] == [addr] + order[i + 1..];
        if addr !in staking.validators {
          return false;
        }
        var validator := staking.validators[addr].(unbondingHeight := 0);
        if applyAllowed && codec.encode(addr) !in allowed {
          validator := validator.(jailed := true);
        }
        staking.validators := staking.validators[addr := validator];
      }
      assert order[0..] == order;
      return true;
    }

    // -------------------------------------------------------------- slashing state

    method ResetSigningInfos()
      modifies slashing
      ensures SigningInfosReset(old(slashing.signingInfos), slashing.signingInfos)
    {
      ghost var before := slashing.signingInfos;
      var pending := slashing.signingInfos.Keys;
      while pending != {}
        invariant pending <= before.Keys && slashing.signingInfos.Keys == before.Keys
        invariant forall a :: a in pending ==> slashing.signingInfos[a] == before[a]
        invariant forall a :: a in before && a !in pending ==>
                    slashing.signingInfos[a] == before[a].(startHeight := 0)
        decreases |pending|
      {
        var addr :| addr in pending;
        pending := pending - {addr};
        var info := slashing.signingInfos[addr].(startHeight := 0);
        slashing.signingInfos := slashing.signingInfos[addr := info];
      }
    }

    // -------------------------------------------------------------- the whole export

    method ResetStaking(applyAllowed: bool, allowed: set<string>) returns (ok: bool)
      requires applyAllowed <==> allowed != {}
      modifies staking`redelegations, staking`unbondings, staking`validators
      ensures old(staking.Indexed()) ==> ok
      ensures ok && old(staking.Indexed()) ==>
                ValidatorsResetBy(codec, allowed, old(staking.validators), staking.validators)
      ensures ok ==> EntriesZeroed()
    {
      hide RedelegationZeroed, UnbondingZeroed, RecordReset;
      ResetRedelegations();
      ResetUnbondings();
      ok := ResetValidators(applyAllowed, allowed);
    }

    /** Entries of redelegations and unbondings are those there were, but for a height of 0. */
    twostate predicate EntriesZeroed()
      reads staking
    {
      && staking.redelegations.Keys == old(staking.redelegations.Keys)
      && (forall k :: k in staking.redelegations ==>
           RedelegationZeroed(old(staking.redelegations)[k], staking.redelegations[k]))
      && staking.unbondings.Keys == old(staking.unbondings.Keys)
      && forall k :: k in staking.unbondings ==> UnbondingZeroed(old(staking.unbondings)[k], staking.unbondings[k])
    }

    /** What the validator set update makes of the validators the loop leaves. */
    function UpdateOf(power: seq<Addr>, allowed: set<string>, validators: map<Addr, Validator>): SetUpdate {
      UpdateSet(power, ResetAll(codec, allowed, validators), staking.finish)
    }

    function UpdateAfterLoop(jailAllowedAddrs: seq<string>): SetUpdate
      reads staking
    {
      UpdateOf(staking.power, Listed(jailAllowedAddrs), staking.validators)
    }

    /** The loops over staking, the validator set update, and the loop over signing infos. */
    method ResetStakingAndSlashing(applyAllowed: bool, allowed: set<string>) returns (outcome: Outcome)
      requires applyAllowed <==> allowed != {}
      modifies staking`redelegations, staking`unbondings, staking`validators, slashing
      ensures !outcome.ListRejected?
      ensures old(staking.Indexed()) ==>
                && (outcome.Done? <==> UpdateOf(old(staking.power), allowed, old(staking.validators)).Updated?)
                && (outcome.Panicked? <==> UpdateOf(old(staking.power), allowed, old(staking.validators)).UpdatePanic?)
      ensures old(staking.Indexed()) && outcome.Done? ==>
                exists reset :: ValidatorsResetBy(codec, allowed, old(staking.validators), reset)
                                && UpdateSet(old(staking.power), reset, staking.finish) == Updated(staking.validators)
      ensures outcome.Done? ==> EntriesZeroed()
      ensures outcome.Done? ==> SigningInfosReset(old(slashing.signingInfos), slashing.signingInfos)
    {
      hide ResetAll, RedelegationZeroed, UnbondingZeroed, ValidatorsResetBy;
      ghost var before := staking.validators;
      var ok := ResetStaking(applyAllowed, allowed);
      ghost var reset := staking.validators;
      if ok && old(staking.Indexed()) {
        ResetAllOnly(codec, allowed, before, reset);
      }
      if !ok {
        return Outcome.Panicked;
      }
      var panicked, err := staking.ApplyAndReturnValidatorSetUpdates();
      if panicked {
        return Outcome.Panicked;
      }
      if err {
        return UpdateFailed;
      }
      ResetSigningInfos();
      return Done;
    }

    /** What the export assumes of the stores. */
    ghost predicate Ready()
      reads distr, staking
    {
      WellFormed(distr.Store(), ViewAt(0)) && staking.Indexed()
    }

    /** The withdrawals at height 0 run through. */
    ghost predicate Prepares()
      reads distr, staking
    {
      Completes(distr.Store(), ViewAt(0))
    }

    /** `ListRejected` exactly when a listed string is no address, before anything changed.  Otherwise, from well-formed
        stores, the preparation is done if and only if the withdrawals at height 0 run through (every delegation passes
        the stake check, the bank refuses no reward) and the validator set update accepts the validators the loop
        leaves.  Then heights are zeroed and nothing else of an entry changes, the validators are those the update makes
        of the ones the loop reset, and the distribution store is what `Reset` makes of it at height 0: every delegation
        starts anew at height 0 and nothing is owed. */
    method PrepForZeroHeightGenesis(ctxHeight: nat, jailAllowedAddrs: seq<string>) returns (outcome: Outcome)
      modifies distr, staking`redelegations, staking`unbondings, staking`validators, slashing
      ensures outcome.ListRejected? <==> exists a :: a in jailAllowedAddrs && codec.decode(a).None?
      ensures outcome.ListRejected? ==> unchanged(distr) && unchanged(staking) && unchanged(slashing)
      ensures old(Ready()) && !outcome.ListRejected? ==>
                (outcome.Done? <==> old(Prepares()) && old(UpdateAfterLoop(jailAllowedAddrs)).Updated?)
      ensures outcome.Done? ==> Reset(old(distr.Store()), old(ViewAt(0))) == Some(distr.Store())
      ensures outcome.Done? ==> EntriesZeroed()
      ensures old(Ready()) && outcome.Done? ==>
                && RestartedAt(distr.Store(), staking.order, staking.delegations, stake, 0)
                && old(Unslashed(distr.Store(), ViewAt(0)))
      ensures old(Ready()) && outcome.Done? ==>
                exists reset :: ValidatorsReset(codec, jailAllowedAddrs, old(staking.validators), reset)
                                && UpdateSet(old(staking.power), reset, staking.finish) == Updated(staking.validators)
      ensures outcome.Done? ==> SigningInfosReset(old(slashing.signingInfos), slashing.signingInfos)
    {
      hide Reset, WellFormed, Completes, OnlyLost, Fresh, Restarted, RestartedAt, Receiving, Unslashed,
        RedelegationZeroed, UnbondingZeroed, ResetAll, UpdateSet, ValidatorsReset, ValidatorsResetBy, SigningInfosReset;
      var height := ctxHeight;
      var ctx := 0;
      var applyAllowedAddrs := |jailAllowedAddrs| > 0;
      var decoded, allowed := BuildAllowList(jailAllowedAddrs);
      if !decoded {
        return ListRejected;
      }
      if applyAllowedAddrs {
        assert jailAllowedAddrs[0] in allowed;
      }

      var view := ViewAt(ctx);
      if old(Ready()) {
        ResetOutcome(old(distr.Store()), view);
      }
      var ok := ResetDistribution(view);
      if !ok {
        return Outcome.Panicked;
      }
      if old(Ready()) {
        ResetRestarts(old(distr.Store()), view);
        ResetAtZeroCompletesIff(old(distr.Store()), view);
      }

      ctx := height;
      ghost var before := staking.validators;
      outcome := ResetStakingAndSlashing(applyAllowedAddrs, allowed);
      if old(Ready()) && outcome.Done? {
        ghost var reset :| ValidatorsResetBy(codec, allowed, before, reset)
                           && UpdateSet(old(staking.power), reset, staking.finish) == Updated(staking.validators);
        ResetByListed(codec, jailAllowedAddrs, before, reset);
      }
    }

    /** The export of well-formed stores yields the height, 0 or the next one, if and only if it needs no preparation or
        the preparation is done, and the library calls after it succeed.  Only a zero-height export touches the
        stores. */
    method ExportAppStateAndValidators(forZeroHeight: bool, jailAllowedAddrs: seq<string>, libraryOk: bool)
      returns (result: Export)
      modifies distr, staking`redelegations, staking`unbondings, staking`validators, slashing
      ensures result.Exported? ==> libraryOk && result.height == if forZeroHeight then 0 else lastBlockHeight + 1
      ensures !forZeroHeight ==> unchanged(distr) && unchanged(staking) && unchanged(slashing)
      ensures !forZeroHeight ==> (result.Exported? <==> libraryOk)
      ensures forZeroHeight && result.Exported? ==> Reset(old(distr.Store()), old(ViewAt(0))) == Some(distr.Store())
      ensures forZeroHeight && result.Exported? ==>
                EntriesZeroed() && SigningInfosReset(old(slashing.signingInfos), slashing.signingInfos)
      ensures forZeroHeight && old(Ready()) && result.Exported? ==>
                RestartedAt(distr.Store(), staking.order, staking.delegations, stake, 0)
      ensures forZeroHeight && old(Ready()) ==>
                (result.Exported? <==>
                   && libraryOk && (forall a :: a in jailAllowedAddrs ==> codec.decode(a).Some?)
                   && old(Prepares()) && old(UpdateAfterLoop(jailAllowedAddrs)).Updated?)
    {
      hide Reset, WellFormed, Completes, UpdateSet, RestartedAt, RedelegationZeroed, UnbondingZeroed, SigningInfosReset;
      var ctxHeight := lastBlockHeight;
      var height := lastBlockHeight + 1;
      if forZeroHeight {
        height := 0;
        var outcome := PrepForZeroHeightGenesis(ctxHeight, jailAllowedAddrs);
        if !outcome.Done? {
          return NotPrepared(outcome);
        }
      }
      return if libraryOk then Exported(height) else LibraryError;
    }
  }
}
