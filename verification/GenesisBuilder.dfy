/** `GenesisStateWithValSet`: a genesis whose staking, slashing and bank sections are built by separate loops over
    one validator set and must agree. */
module GenesisBuilder {
  import opened Results
  import opened CoinLists

  const BOND_DENOM := "stake"
  const BOND_AMOUNT: nat := 1_000_000                     // the default power reduction
  const ONE_SHARE: nat := 1_000_000_000_000_000_000       // 1.0 as a LegacyDec

  function Bond(validators: nat): nat {
    1_000_000 * validators
  }

  /** A consensus validator: its address and its public key, when that converts. */
  datatype ConsensusValidator = ConsensusValidator(address: nat, pubKey: Option<nat>)

  datatype Validator = Validator(operator: string, pubKey: nat, jailed: bool, bonded: bool, tokens: nat, shares: nat)
  datatype Delegation = Delegation(delegator: string, validator: string, shares: nat)
  datatype SigningInfo = SigningInfo(address: string)

  datatype Section =
    | Other(json: string)
    | Auth(accounts: seq<string>)
    | Staking(validators: seq<Validator>, delegations: seq<Delegation>)
    | Slashing(signingInfos: seq<SigningInfo>)
    | Bank(balances: seq<Balance>, supply: seq<Coin>)

  const AUTH := "auth"
  const STAKING := "staking"
  const SLASHING := "slashing"
  const BANK := "bank"

  /** Bech32 spellings of the validator and consensus addresses, and the bonded pool's account. */
  datatype Naming = Naming(operator: nat -> string, consensus: nat -> string, bondedPool: string) {
    ghost predicate Injective() {
      (forall a, b :: operator(a) == operator(b) ==> a == b) && (forall a, b :: consensus(a) == consensus(b) ==> a == b)
    }
  }

  // ---------------------------------------------------------------- what the sections hold

  function ValidatorFor(naming: Naming, val: ConsensusValidator): Validator
    requires val.pubKey.Some?
  {
    Validator(naming.operator(val.address), val.pubKey.value, false, true, BOND_AMOUNT, ONE_SHARE)
  }

  function ValidatorsOf(naming: Naming, vals: seq<ConsensusValidator>): seq<Validator>
    requires forall v :: v in vals ==> v.pubKey.Some?
  {
    seq(|vals|, i requires 0 <= i < |vals| => ValidatorFor(naming, vals[i]))
  }

  function DelegationsOf(naming: Naming, vals: seq<ConsensusValidator>, delegator: string): seq<Delegation> {
    seq(|vals|, i requires 0 <= i < |vals| => Delegation(delegator, naming.operator(vals[i].address), ONE_SHARE))
  }

  function SigningInfosOf(naming: Naming, vals: seq<ConsensusValidator>): seq<SigningInfo> {
    seq(|vals|, i requires 0 <= i < |vals| => SigningInfo(naming.consensus(vals[i].address)))
  }

  function PoolBalance(naming: Naming, n: nat): Balance {
    Balance(naming.bondedPool, [Coin(BOND_DENOM, Bond(n))])
  }

  /** The record of a consensus validator: its own key, bonded, with the fixed tokens and one share. */
  ghost predicate BondedFor(naming: Naming, val: ConsensusValidator, v: Validator) {
    && v.operator == naming.operator(val.address) && Some(v.pubKey) == val.pubKey
    && !v.jailed && v.bonded && v.tokens == 1_000_000 && v.shares == 1_000_000_000_000_000_000
  }

  ghost predicate DelegatesTo(naming: Naming, val: ConsensusValidator, delegator: string, del: Delegation) {
    && del.delegator == delegator && del.validator == naming.operator(val.address)
    && del.shares == 1_000_000_000_000_000_000
  }

  ghost predicate StakingHolds(section: Section, naming: Naming, vals: seq<ConsensusValidator>, genAccs: seq<string>) {
    && section.Staking? && |section.validators| == |vals| && |section.delegations| == |vals|
    && (vals != [] ==> genAccs != [])
    && forall i :: 0 <= i < |vals| ==>
         && BondedFor(naming, vals[i], section.validators[i])
         && DelegatesTo(naming, vals[i], genAccs[0], section.delegations[i])
  }

  ghost predicate SlashingHolds(section: Section, naming: Naming, vals: seq<ConsensusValidator>) {
    && section.Slashing? && |section.signingInfos| == |vals|
    && forall i :: 0 <= i < |vals| ==> section.signingInfos[i].address == naming.consensus(vals[i].address)
  }

  /** The given balances, then the pool's tokens; and the canonical list of what all of them add up to. */
  ghost predicate BankHolds(section: Section, naming: Naming, n: nat, balances: seq<Balance>) {
    && section.Bank? && |section.balances| == |balances| + 1 && section.balances[..|balances|] == balances
    && section.balances[|balances|] == Balance(naming.bondedPool, [Coin("stake", 1_000_000 * n)])
    && Valid(section.supply) && forall d :: Amount(section.supply, d) == Total(section.balances, d)
  }

  lemma BankBuilt(naming: Naming, n: nat, balances: seq<Balance>)
    ensures var all := balances + [PoolBalance(naming, n)];
            Supply(all).Some? ==> BankHolds(Bank(all, Supply(all).value), naming, n, balances)
  {
    SupplyIsTotal(balances + [PoolBalance(naming, n)]);
    hide Supply, Total, Amount, Valid;
  }

  // ---------------------------------------------------------------- the builder

  datatype Built = Complete | KeyError | Panicked

  class GenesisState {
    var sections: map<string, Section>

    constructor (sections: map<string, Section>)
      ensures this.sections == sections
    {
      this.sections := sections;
    }

    method BuildStaking(naming: Naming, vals: seq<ConsensusValidator>, genAccs: seq<string>)
      returns (built: Built, validators: seq<Validator>, delegations: seq<Delegation>)
      ensures built.Complete? <==> (forall v :: v in vals ==> v.pubKey.Some?) && (vals != [] ==> genAccs != [])
      ensures built.Panicked? <==> vals != [] && vals[0].pubKey.Some? && genAccs == []
      ensures built.Complete? ==>
                && validators == ValidatorsOf(naming, vals)
                && (vals == [] ==> delegations == [])
                && (vals != [] ==> delegations == DelegationsOf(naming, vals, genAccs[0]))
      ensures built.Complete? ==>
                && |validators| == |vals| && |delegations| == |vals|
                && forall i :: 0 <= i < |vals| ==>
                     && BondedFor(naming, vals[i], validators[i])
                     && DelegatesTo(naming, vals[i], genAccs[0], delegations[i])
    {
      validators, delegations := [], [];
      for i := 0 to |vals|
        invariant |validators| == i && |delegations| == i && (i > 0 ==> genAccs != [])
        invariant forall j :: 0 <= j < i ==> vals[j].pubKey.Some?
        invariant forall j :: 0 <= j < i ==> validators[j] == ValidatorFor(naming, vals[j])
        invariant forall j :: 0 <= j < i ==>
                    delegations[j] == Delegation(genAccs[0], naming.operator(vals[j].address), ONE_SHARE)
      {
        var val := vals[i];
        if val.pubKey.None? {
          assert val in vals;
          return KeyError, [], [];
        }
        var operator := naming.operator(val.address);
        validators := validators + [Validator(operator, val.pubKey.value, false, true, BOND_AMOUNT, ONE_SHARE)];
        if genAccs == [] {
          return Panicked, [], [];
        }
        delegations := delegations + [Delegation(genAccs[0], operator, ONE_SHARE)];
      }
      return Complete, validators, delegations;
    }

    method BuildSigningInfos(naming: Naming, vals: seq<ConsensusValidator>) returns (infos: seq<SigningInfo>)
      ensures infos == SigningInfosOf(naming, vals)
      ensures |infos| == |vals| && forall i :: 0 <= i < |vals| ==> infos[i].address == naming.consensus(vals[i].address)
    {
      var signingInfos := new SigningInfo[|vals|](_ => SigningInfo(""));
      for i := 0 to |vals|
        invariant forall j :: 0 <= j < i ==> signingInfos[j] == SigningInfo(naming.consensus(vals[j].address))
      {
        signingInfos[i] := SigningInfo(naming.consensus(vals[i].address));
      }
      infos := signingInfos[..];
    }

    /** Only the four sections change.  The call fails exactly on a key that does not convert, and panics exactly when
        there is no account to delegate from or some balance is unsorted. */
    method WithValSet(naming: Naming, vals: seq<ConsensusValidator>, genAccs: seq<string>, balances: seq<Balance>)
      returns (built: Built)
      modifies this
      ensures built.Complete? <==>
                && (forall v :: v in vals ==> v.pubKey.Some?) && (vals != [] ==> genAccs != [])
                && forall b :: b in balances ==> IsSorted(b.coins)
      ensures built.KeyError? ==> exists v :: v in vals && v.pubKey.None?
      ensures forall name :: name in old(sections) && name !in {AUTH, STAKING, SLASHING, BANK} ==>
                name in sections && sections[name] == old(sections)[name]
      ensures built.Complete? ==>
                && sections.Keys == old(sections).Keys + {AUTH, STAKING, SLASHING, BANK}
                && sections[AUTH] == Auth(genAccs)
                && sections[STAKING] == Staking(ValidatorsOf(naming, vals),
                                                if vals == [] then [] else DelegationsOf(naming, vals, genAccs[0]))
                && sections[SLASHING] == Slashing(SigningInfosOf(naming, vals))
                && var all := balances + [PoolBalance(naming, |vals|)];
                   Supply(all).Some? && sections[BANK] == Bank(all, Supply(all).value)
      ensures built.Complete? ==>
                && "auth" in sections && sections["auth"] == Auth(genAccs)
                && "staking" in sections && StakingHolds(sections["staking"], naming, vals, genAccs)
                && "slashing" in sections && SlashingHolds(sections["slashing"], naming, vals)
                && "bank" in sections && BankHolds(sections["bank"], naming, |vals|, balances)
    {
      hide BankHolds, BondedFor, DelegatesTo, Amount, Total, Supply, Valid, ValidatorsOf, DelegationsOf, SigningInfosOf;
      sections := sections[AUTH := Auth(genAccs)];
      var validators, delegations;
      built, validators, delegations := BuildStaking(naming, vals, genAccs);
      if !built.Complete? {
        return;
      }
      sections := sections[STAKING := Staking(validators, delegations)];
      var signingInfos := BuildSigningInfos(naming, vals);
      sections := sections[SLASHING := Slashing(signingInfos)];

      var all := balances + [PoolBalance(naming, |vals|)];
      var supply := AccumulateSupply(all);
      assert all[|balances|] == PoolBalance(naming, |vals|) && IsSorted(PoolBalance(naming, |vals|).coins);
      if supply.None? {
        return Panicked;
      }
      BankBuilt(naming, |vals|, balances);
      assert forall b :: b in balances ==> b in all;
      sections := sections[BANK := Bank(all, supply.value)];
      return Complete;
    }
  }

  // ---------------------------------------------------------------- the sections agree

  function TokensOf(validators: seq<Validator>): nat {
    if validators == [] then 0 else validators[0].tokens + TokensOf(validators[1..])
  }

  function SharesTo(delegations: seq<Delegation>, operator: string): nat {
    if delegations == [] then 0
    else SharesTo(delegations[1..], operator)
         + if delegations[0].validator == operator then delegations[0].shares else 0
  }

  function CountTo(delegations: seq<Delegation>, operator: string): nat {
    if delegations == [] then 0
    else (if delegations[0].validator == operator then 1 else 0) + CountTo(delegations[1..], operator)
  }

  function CountInfos(infos: seq<SigningInfo>, address: string): nat {
    if infos == [] then 0 else (if infos[0].address == address then 1 else 0) + CountInfos(infos[1..], address)
  }

  function Occurrences(vals: seq<ConsensusValidator>, address: nat): nat {
    if vals == [] then 0 else (if vals[0].address == address then 1 else 0) + Occurrences(vals[1..], address)
  }

  ghost predicate DistinctAddresses(vals: seq<ConsensusValidator>) {
    forall i, j :: 0 <= i < j < |vals| ==> vals[i].address != vals[j].address
  }

  lemma {:induction false} TokensAddUp(naming: Naming, vals: seq<ConsensusValidator>)
    requires forall v :: v in vals ==> v.pubKey.Some?
    ensures TokensOf(ValidatorsOf(naming, vals)) == Bond(|vals|)
  {
    if vals != [] {
      assert ValidatorsOf(naming, vals)[1..] == ValidatorsOf(naming, vals[1..]);
      TokensAddUp(naming, vals[1..]);
    }
  }

  lemma {:induction false} CountsAreOccurrences(naming: Naming, vals: seq<ConsensusValidator>, delegator: string,
                                                a: nat)
    requires naming.Injective()
    ensures CountTo(DelegationsOf(naming, vals, delegator), naming.operator(a)) == Occurrences(vals, a)
    ensures SharesTo(DelegationsOf(naming, vals, delegator), naming.operator(a)) == ONE_SHARE * Occurrences(vals, a)
    ensures CountInfos(SigningInfosOf(naming, vals), naming.consensus(a)) == Occurrences(vals, a)
  {
    if vals != [] {
      assert DelegationsOf(naming, vals, delegator)[1..] == DelegationsOf(naming, vals[1..], delegator);
      assert SigningInfosOf(naming, vals)[1..] == SigningInfosOf(naming, vals[1..]);
      CountsAreOccurrences(naming, vals[1..], delegator, a);
    }
  }

  lemma {:induction false} OccursAtLeast(vals: seq<ConsensusValidator>, i: nat)
    requires i < |vals|
    ensures Occurrences(vals, vals[i].address) >= 1
  {
    if i > 0 {
      OccursAtLeast(vals[1..], i - 1);
    }
  }

  lemma {:induction false} DistinctIffOnce(vals: seq<ConsensusValidator>)
    ensures DistinctAddresses(vals) <==> forall i :: 0 <= i < |vals| ==> Occurrences(vals, vals[i].address) == 1
  {
    if vals != [] {
      DistinctIffOnce(vals[1..]);
      forall j | 1 <= j < |vals| && vals[j].address == vals[0].address ensures Occurrences(vals, vals[0].address) >= 2 {
        OccursAtLeast(vals[1..], j - 1);
        assert vals[1..][j - 1] == vals[j];
      }
      if DistinctAddresses(vals) {
        NeverOccurs(vals[1..], vals[0].address);
        forall i | 0 <= i < |vals| ensures Occurrences(vals, vals[i].address) == 1 {
          assert i > 0 ==> vals[1..][i - 1] == vals[i];
        }
      }
      if forall i :: 0 <= i < |vals| ==> Occurrences(vals, vals[i].address) == 1 {
        forall i | 0 <= i < |vals| - 1 ensures Occurrences(vals[1..], vals[1..][i].address) == 1 {
          OccursAtLeast(vals[1..], i);
          assert Occurrences(vals, vals[i + 1].address) == 1;
        }
        assert forall i, j :: 1 <= i < j < |vals| ==> vals[i] == vals[1..][i - 1] && vals[j] == vals[1..][j - 1];
      }
    }
  }

  lemma {:induction false} NeverOccurs(vals: seq<ConsensusValidator>, a: nat)
    requires forall i :: 0 <= i < |vals| ==> vals[i].address != a
    ensures Occurrences(vals, a) == 0
  {
    if vals != [] {
      NeverOccurs(vals[1..], a);
    }
  }

  /** Every validator is bonded, and matched by its delegations, its share of the pool and one signing info. */
  ghost predicate Balanced(naming: Naming, vals: seq<ConsensusValidator>, delegator: string)
    requires forall v :: v in vals ==> v.pubKey.Some?
  {
    var validators := ValidatorsOf(naming, vals);
    var delegations := DelegationsOf(naming, vals, delegator);
    forall i :: 0 <= i < |vals| ==>
      && validators[i].bonded && !validators[i].jailed
      && SharesTo(delegations, validators[i].operator) == validators[i].shares
      && CountTo(delegations, validators[i].operator) == 1
      && CountInfos(SigningInfosOf(naming, vals), naming.consensus(vals[i].address)) == 1
  }

  lemma {:induction false} HeldNothingIff(balances: seq<Balance>, account: string, d: string)
    ensures Held(balances, account, d) == 0
       <==> forall b :: b in balances && b.address == account ==> Amount(b.coins, d) == 0
  {
    hide Amount;
    if balances != [] {
      var init, last := balances[..|balances| - 1], balances[|balances| - 1];
      HeldNothingIff(init, account, d);
      assert forall b :: b in balances <==> b in init || b == last;
    }
  }

  /** With the balance appended, the pool account holds the validators' tokens and whatever the given balances already
      pay it. */
  lemma PoolHolds(naming: Naming, vals: seq<ConsensusValidator>, balances: seq<Balance>)
    requires forall v :: v in vals ==> v.pubKey.Some?
    ensures var all := balances + [PoolBalance(naming, |vals|)];
            Held(all, naming.bondedPool, BOND_DENOM)
            == Held(balances, naming.bondedPool, BOND_DENOM) + TokensOf(ValidatorsOf(naming, vals))
  {
    TokensAddUp(naming, vals);
    var pool := PoolBalance(naming, |vals|);
    HeldSnoc(balances, pool, naming.bondedPool, BOND_DENOM);
    assert pool.coins[1..] == [];
    assert Amount(pool.coins, BOND_DENOM) == Bond(|vals|);
  }

  lemma HeldSnoc(balances: seq<Balance>, last: Balance, account: string, d: string)
    ensures Held(balances + [last], account, d)
         == Held(balances, account, d) + if last.address == account then Amount(last.coins, d) else 0
  {
    hide Amount;
    assert (balances + [last])[..|balances|] == balances;
  }

  /** The pool account holds exactly the validators' tokens if and only if no given balance pays it in the bond
      denomination; shares, delegations and signing infos match exactly when no address is repeated. */
  lemma SectionsAgree(naming: Naming, vals: seq<ConsensusValidator>, delegator: string, balances: seq<Balance>)
    requires naming.Injective() && forall v :: v in vals ==> v.pubKey.Some?
    ensures Held(balances + [PoolBalance(naming, |vals|)], naming.bondedPool, BOND_DENOM)
         == TokensOf(ValidatorsOf(naming, vals))
       <==> forall b :: b in balances && b.address == naming.bondedPool ==> Amount(b.coins, BOND_DENOM) == 0
    ensures Balanced(naming, vals, delegator) <==> DistinctAddresses(vals)
  {
    hide Held, PoolBalance, TokensOf, Amount;
    PoolHolds(naming, vals, balances);
    HeldNothingIff(balances, naming.bondedPool, BOND_DENOM);
    RecordsMatch(naming, vals, delegator);
  }

  lemma RecordsMatch(naming: Naming, vals: seq<ConsensusValidator>, delegator: string)
    requires naming.Injective() && forall v :: v in vals ==> v.pubKey.Some?
    ensures Balanced(naming, vals, delegator) <==> DistinctAddresses(vals)
  {
    DistinctIffOnce(vals);
    forall i | 0 <= i < |vals|
      ensures ValidatorsOf(naming, vals)[i].operator == naming.operator(vals[i].address)
      ensures CountTo(DelegationsOf(naming, vals, delegator), naming.operator(vals[i].address))
           == Occurrences(vals, vals[i].address)
      ensures SharesTo(DelegationsOf(naming, vals, delegator), naming.operator(vals[i].address))
           == ONE_SHARE * Occurrences(vals, vals[i].address)
      ensures CountInfos(SigningInfosOf(naming, vals), naming.consensus(vals[i].address))
           == Occurrences(vals, vals[i].address)
    {
      CountsAreOccurrences(naming, vals, delegator, vals[i].address);
    }
  }

  /** The supply counts the bonded tokens once, on top of the balances given. */
  lemma SupplyCountsBondOnce(naming: Naming, n: nat, balances: seq<Balance>, d: string)
    requires forall b :: b in balances ==> IsSorted(b.coins)
    ensures var all := balances + [PoolBalance(naming, n)];
            Supply(all).Some? && Valid(Supply(all).value)
            && Amount(Supply(all).value, d) == Total(balances, d) + if d == BOND_DENOM then Bond(n) else 0
  {
    var all := balances + [PoolBalance(naming, n)];
    SupplyIsTotal(all);
    assert all[..|all| - 1] == balances;
    assert Amount(PoolBalance(naming, n).coins, d) == if d == BOND_DENOM then Bond(n) else 0;
    assert forall b :: b in all ==> b in balances || b == PoolBalance(naming, n);
    assert Amount(Supply(all).value, d) == Total(all, d);
  }
}
