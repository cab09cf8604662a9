/** The staking and slashing records the export rewrites, and what it must leave of each. */
module Staking {
  import opened Results
  import opened Distribution

  datatype RedelegationKey = RedelegationKey(delegator: Addr, source: Addr, destination: Addr)
  datatype RedelegationEntry =
    RedelegationEntry(creationHeight: int, completionTime: int, initialBalance: nat, sharesDestination: nat)

  datatype UnbondingKey = UnbondingKey(delegator: Addr, validator: Addr)
  datatype UnbondingEntry = UnbondingEntry(creationHeight: int, completionTime: int, initialBalance: nat, balance: nat)

  datatype Validator =
    Validator(jailed: bool, bonded: bool, tokens: nat, shares: nat, unbondingHeight: int, unbondingTime: int)

  datatype SigningInfo =
    SigningInfo(startHeight: int, indexOffset: int, jailedUntil: int, tombstoned: bool, missedBlocks: int)

  /** Bech32 for validator addresses.  `decode` may accept several spellings of one address; `encode` yields the
      canonical one. */
  datatype AddressCodec = AddressCodec(encode: Addr -> string, decode: string -> Option<Addr>) {
    ghost predicate Canonical() {
      forall a: Addr :: decode(encode(a)) == Some(a)
    }
  }

  /** What updating the validator set does with the stored validators: it panics on a jailed or missing validator among
      those it looks at, may fail otherwise, or changes the validators. */
  datatype SetUpdate = UpdatePanic | UpdateError | Updated(validators: map<Addr, Validator>)

  /** `power` are the validators the update looks at, from the power index; `finish` is everything after the look. */
  function UpdateSet(power: seq<Addr>, validators: map<Addr, Validator>,
                     finish: map<Addr, Validator> -> Option<map<Addr, Validator>>): SetUpdate {
    if exists a :: a in power && (a !in validators || validators[a].jailed) then UpdatePanic
    else match finish(validators)
      case None => UpdateError
      case Some(after) => Updated(after)
  }

  class StakingKeeper {
    const finish: map<Addr, Validator> -> Option<map<Addr, Validator>>
    var power: seq<Addr>                    // validators by power, as far as a set update looks
    var order: seq<Addr>                    // validator keys, in store order
    var validators: map<Addr, Validator>
    var delegations: seq<Delegation>        // in store order
    var redelegations: map<RedelegationKey, seq<RedelegationEntry>>
    var unbondings: map<UnbondingKey, seq<UnbondingEntry>>

    constructor (finish: map<Addr, Validator> -> Option<map<Addr, Validator>>)
      ensures this.finish == finish
    {
      this.finish := finish;
      power, order, validators, delegations, redelegations, unbondings := [], [], map[], [], map[], map[];
    }

    /** The iterator over validator keys sees exactly the stored validators. */
    ghost predicate Indexed()
      reads this
    {
      (forall a :: a in order <==> a in validators) && Distinct(order)
    }

    method ApplyAndReturnValidatorSetUpdates() returns (panicked: bool, err: bool)
      modifies this`validators
      ensures panicked <==> exists a :: a in power && (a !in old(validators) || old(validators)[a].jailed)
      ensures !panicked ==> (err <==> finish(old(validators)).None?)
      ensures panicked || err ==> validators == old(validators)
      ensures !panicked && !err ==> Some(validators) == finish(old(validators))
    {
      if exists a :: a in power && (a !in validators || validators[a].jailed) {
        return true, true;
      }
      var after := finish(validators);
      if after.None? {
        return false, true;
      }
      validators := after.value;
      return false, false;
    }
  }

  class SlashingKeeper {
    var signingInfos: map<Addr, SigningInfo>
  }

  // ---------------------------------------------------------------- what the export makes of a record

  ghost predicate RedelegationZeroed(before: seq<RedelegationEntry>, after: seq<RedelegationEntry>) {
    |after| == |before| && forall i :: 0 <= i < |before| ==>
      && after[i].creationHeight == 0
      && after[i].completionTime == before[i].completionTime
      && after[i].initialBalance == before[i].initialBalance
      && after[i].sharesDestination == before[i].sharesDestination
  }

  ghost predicate UnbondingZeroed(before: seq<UnbondingEntry>, after: seq<UnbondingEntry>) {
    |after| == |before| && forall i :: 0 <= i < |before| ==>
      && after[i].creationHeight == 0
      && after[i].completionTime == before[i].completionTime
      && after[i].initialBalance == before[i].initialBalance
      && after[i].balance == before[i].balance
  }

  /** A validator's unbonding height is 0, it is jailed if it was or `unlisted`, and the rest is as it was. */
  ghost predicate RecordReset(before: Validator, after: Validator, unlisted: bool) {
    && after.unbondingHeight == 0
    && (after.jailed <==> before.jailed || unlisted)
    && after.bonded == before.bonded && after.tokens == before.tokens && after.shares == before.shares
    && after.unbondingTime == before.unbondingTime
  }

  /** Every validator is reset; those that a list in force does not name canonically are jailed. */
  ghost predicate ValidatorsReset(codec: AddressCodec, addrs: seq<string>, before: map<Addr, Validator>,
                                  after: map<Addr, Validator>) {
    && after.Keys == before.Keys
    && forall a :: a in before ==> RecordReset(before[a], after[a], addrs != [] && codec.encode(a) !in addrs)
  }

  ghost predicate SigningInfosReset(before: map<Addr, SigningInfo>, after: map<Addr, SigningInfo>) {
    && after.Keys == before.Keys
    && forall a :: a in before ==>
         && after[a].startHeight == 0
         && after[a].indexOffset == before[a].indexOffset && after[a].jailedUntil == before[a].jailedUntil
         && after[a].tombstoned == before[a].tombstoned && after[a].missedBlocks == before[a].missedBlocks
  }

  /** An empty allow-list spares everybody. */
  predicate Spared(codec: AddressCodec, allowed: set<string>, a: Addr) {
    allowed == {} || codec.encode(a) in allowed
  }

  function ResetValidator(codec: AddressCodec, allowed: set<string>, a: Addr, v: Validator): Validator {
    v.(unbondingHeight := 0, jailed := v.jailed || !Spared(codec, allowed, a))
  }

  /** The validators as the loop over them leaves them. */
  function ResetAll(codec: AddressCodec, allowed: set<string>, validators: map<Addr, Validator>): map<Addr, Validator> {
    map a | a in validators :: ResetValidator(codec, allowed, a, validators[a])
  }

  function Listed(addrs: seq<string>): set<string> {
    set a | a in addrs
  }

  /** The same, by the set of listed strings. */
  ghost predicate ValidatorsResetBy(codec: AddressCodec, allowed: set<string>, before: map<Addr, Validator>,
                                    after: map<Addr, Validator>) {
    && after.Keys == before.Keys
    && forall a :: a in before ==> RecordReset(before[a], after[a], allowed != {} && codec.encode(a) !in allowed)
  }

  lemma ResetByListed(codec: AddressCodec, addrs: seq<string>, before: map<Addr, Validator>,
                      after: map<Addr, Validator>)
    requires ValidatorsResetBy(codec, Listed(addrs), before, after)
    ensures ValidatorsReset(codec, addrs, before, after)
  {
    assert addrs != [] ==> addrs[0] in Listed(addrs);
    hide RecordReset;
    forall a ensures codec.encode(a) in Listed(addrs) <==> codec.encode(a) in addrs {
    }
  }

  lemma ResetAllMeans(codec: AddressCodec, addrs: seq<string>, before: map<Addr, Validator>)
    ensures ValidatorsReset(codec, addrs, before, ResetAll(codec, Listed(addrs), before))
  {
    assert addrs != [] ==> addrs[0] in Listed(addrs);
    forall a ensures codec.encode(a) in Listed(addrs) <==> codec.encode(a) in addrs {
    }
  }

  lemma ResetAllOnly(codec: AddressCodec, allowed: set<string>, before: map<Addr, Validator>,
                     after: map<Addr, Validator>)
    requires ValidatorsResetBy(codec, allowed, before, after)
    ensures after == ResetAll(codec, allowed, before)
  {
    forall a | a in before ensures after[a] == ResetValidator(codec, allowed, a, before[a]) {
      assert RecordReset(before[a], after[a], allowed != {} && codec.encode(a) !in allowed);
    }
  }

  /** The list and the old validators determine the new ones. */
  lemma ValidatorsResetOnce(codec: AddressCodec, addrs: seq<string>, before: map<Addr, Validator>,
                            x: map<Addr, Validator>, y: map<Addr, Validator>)
    requires ValidatorsReset(codec, addrs, before, x) && ValidatorsReset(codec, addrs, before, y)
    ensures x == y
  {
    forall a | a in before ensures x[a] == y[a] {
      assert RecordReset(before[a], x[a], addrs != [] && codec.encode(a) !in addrs);
    }
  }

  // ---------------------------------------------------------------- the allow-list

  /** A validator is jailed afterwards if and only if it was, or the list is not empty and none of its strings is the
      validator's canonical spelling. */
  lemma JailedIff(codec: AddressCodec, addrs: seq<string>, a: Addr, v: Validator)
    ensures ResetValidator(codec, Listed(addrs), a, v).jailed
       <==> v.jailed || (addrs != [] && forall i :: 0 <= i < |addrs| ==> addrs[i] != codec.encode(a))
  {
    if addrs != [] {
      assert addrs[0] in Listed(addrs);
    }
    assert codec.encode(a) in Listed(addrs) <==> codec.encode(a) in addrs;
  }

  /** Listing more strings never jails a validator that the shorter list spared, once anything is listed. */
  lemma JailingIsMonotone(codec: AddressCodec, few: seq<string>, many: seq<string>, a: Addr, v: Validator)
    requires few != [] && forall x :: x in few ==> x in many
    ensures ResetValidator(codec, Listed(many), a, v).jailed ==> ResetValidator(codec, Listed(few), a, v).jailed
    ensures v.jailed ==> ResetValidator(codec, Listed(many), a, v).jailed
  {
    assert few[0] in Listed(few);
  }

  /** A list that names a validator, all of whose strings decode, spares it if and only if one of the strings is the
      canonical spelling: another spelling of the same address passes the check and still gets it jailed. */
  lemma SparedIffCanonicallyListed(codec: AddressCodec, addrs: seq<string>, a: Addr)
    requires codec.Canonical()
    requires exists x :: x in addrs && codec.decode(x) == Some(a)
    ensures Spared(codec, Listed(addrs), a)
       <==> exists x :: x in addrs && codec.decode(x) == Some(a) && x == codec.encode(a)
  {
    var x :| x in addrs && codec.decode(x) == Some(a);
    assert x in Listed(addrs);
    assert codec.decode(codec.encode(a)) == Some(a);
  }

  // ---------------------------------------------------------------- a second spelling

  function Unary(a: Addr): string {
    seq(a.raw, _ => 'a')
  }

  function FromUnary(s: string): Option<Addr> {
    if (forall i :: 0 <= i < |s| ==> s[i] == 'a') || (forall i :: 0 <= i < |s| ==> s[i] == 'A') then Some(Addr(|s|))
    else None
  }

  /** Like Bech32, accepts an address in either case and writes it in lower case. */
  function TwoCases(): AddressCodec {
    AddressCodec(Unary, FromUnary)
  }

  /** Listed in upper case, the string decodes and the validator is jailed all the same. */
  lemma UpperCaseListingJails(v: Validator)
    ensures TwoCases().Canonical()
    ensures TwoCases().decode("A") == Some(Addr(1)) && TwoCases().decode("A") == TwoCases().decode("a")
    ensures ResetValidator(TwoCases(), Listed(["A"]), Addr(1), v).jailed
    ensures ResetValidator(TwoCases(), Listed(["a"]), Addr(1), v).jailed == v.jailed
  {
    assert Unary(Addr(1)) == "a";
    assert "a"[0] != "A"[0];
    assert "A" in Listed(["A"]) && "a" in Listed(["a"]);
    forall a: Addr ensures FromUnary(Unary(a)) == Some(a) {
      assert |Unary(a)| == a.raw;
    }
  }

  // ---------------------------------------------------------------- the validator set update after the loop

  /** As long as no validator the update looks at was jailed before, the update panics after the loop if and only if the
      list is in force and lacks the canonical spelling of one of them. */
  lemma UpdatePanicsIffOneIsNotSpared(codec: AddressCodec, addrs: seq<string>, validators: map<Addr, Validator>,
                                      power: seq<Addr>, finish: map<Addr, Validator> -> Option<map<Addr, Validator>>)
    requires forall a :: a in power ==> a in validators && !validators[a].jailed
    ensures UpdateSet(power, ResetAll(codec, Listed(addrs), validators), finish).UpdatePanic?
       <==> addrs != [] && exists a :: a in power && codec.encode(a) !in addrs
  {
    var after := ResetAll(codec, Listed(addrs), validators);
    assert addrs != [] ==> addrs[0] in Listed(addrs);
    forall a | a in power ensures after[a].jailed <==> addrs != [] && codec.encode(a) !in addrs {
      assert codec.encode(a) in Listed(addrs) <==> codec.encode(a) in addrs;
    }
  }
}
