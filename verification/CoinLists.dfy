/** `sdk.Coins` as the list it is: sorted by denomination, one entry each, no zero amounts; and the total supply as
    the sum of such lists. */
module CoinLists {
  import opened Results

  datatype Coin = Coin(denom: string, amount: nat)
  datatype Balance = Balance(address: string, coins: seq<Coin>)

  // ---------------------------------------------------------------- string order

  predicate Less(a: string, b: string) {
    b != [] && (a == [] || a[0] < b[0] || (a[0] == b[0] && Less(a[1..], b[1..])))
  }

  lemma {:induction false} LessTransitive(a: string, b: string, c: string)
    requires Less(a, b) && Less(b, c)
    ensures Less(a, c)
  {
    if a != [] && a[0] == b[0] == c[0] {
      LessTransitive(a[1..], b[1..], c[1..]);
    }
  }

  lemma {:induction false} LessTotal(a: string, b: string)
    ensures a == b || Less(a, b) || Less(b, a)
    ensures !(Less(a, b) && Less(b, a)) && !Less(a, a)
  {
    if a != [] {
      LessTotal(a[1..], a[1..]);
    }
    if a != [] && b != [] && a[0] == b[0] {
      LessTotal(a[1..], b[1..]);
      assert a == [a[0]] + a[1..] && b == [b[0]] + b[1..];
    }
  }

  // ---------------------------------------------------------------- lists of coins

  function Amount(cs: seq<Coin>, d: string): nat {
    if cs == [] then 0 else (if cs[0].denom == d then cs[0].amount else 0) + Amount(cs[1..], d)
  }

  ghost predicate Above(d: string, cs: seq<Coin>) {
    forall c :: c in cs ==> Less(d, c.denom)
  }

  /** Strictly sorted, positive amounts. */
  ghost predicate Valid(cs: seq<Coin>) {
    cs != [] ==> cs[0].amount > 0 && Above(cs[0].denom, cs[1..]) && Valid(cs[1..])
  }

  /** The check that addition makes of both its arguments; duplicates pass it. */
  predicate IsSorted(cs: seq<Coin>) {
    |cs| < 2 || (!Less(cs[1].denom, cs[0].denom) && IsSorted(cs[1..]))
  }

  function Insert(c: Coin, cs: seq<Coin>): seq<Coin> {
    if c.amount == 0 then cs
    else if cs == [] then [c]
    else if c.denom == cs[0].denom then [Coin(c.denom, c.amount + cs[0].amount)] + cs[1..]
    else if Less(c.denom, cs[0].denom) then [c] + cs
    else [cs[0]] + Insert(c, cs[1..])
  }

  /** One entry per denomination, zeros dropped, sorted. */
  function Coalesce(cs: seq<Coin>): seq<Coin> {
    if cs == [] then [] else Insert(cs[0], Coalesce(cs[1..]))
  }

  /** `Coins.Add`; `None` is the panic on an unsorted operand. */
  function Add(a: seq<Coin>, b: seq<Coin>): Option<seq<Coin>> {
    if !IsSorted(a) || !IsSorted(b) then None else Some(Coalesce(a + b))
  }

  lemma {:induction false} InsertIntoValid(c: Coin, cs: seq<Coin>, low: string)
    requires Valid(cs)
    ensures Valid(Insert(c, cs))
    ensures Above(low, cs) && Less(low, c.denom) ==> Above(low, Insert(c, cs))
  {
    if cs != [] {
      LessTotal(c.denom, cs[0].denom);
      InsertIntoValid(c, cs[1..], cs[0].denom);
      InsertIntoValid(c, cs[1..], low);
      if Less(c.denom, cs[0].denom) {
        forall x | x in cs ensures Less(c.denom, x.denom) {
          if x != cs[0] {
            assert x in cs[1..];
            LessTransitive(c.denom, cs[0].denom, x.denom);
          }
        }
      }
    }
  }

  lemma {:induction false} InsertAmount(c: Coin, cs: seq<Coin>, d: string)
    ensures Amount(Insert(c, cs), d) == Amount(cs, d) + if c.denom == d then c.amount else 0
  {
    if cs != [] && c.amount > 0 && c.denom != cs[0].denom && !Less(c.denom, cs[0].denom) {
      InsertAmount(c, cs[1..], d);
    }
  }

  lemma {:induction false} CoalesceIsCanonical(cs: seq<Coin>, d: string)
    ensures Valid(Coalesce(cs)) && Amount(Coalesce(cs), d) == Amount(cs, d)
  {
    if cs != [] {
      CoalesceIsCanonical(cs[1..], d);
      InsertIntoValid(cs[0], Coalesce(cs[1..]), "");
      InsertAmount(cs[0], Coalesce(cs[1..]), d);
    }
  }

  /** Addition panics exactly on an unsorted operand, and otherwise yields the valid list of the summed amounts. */
  lemma AddsUp(a: seq<Coin>, b: seq<Coin>)
    ensures Add(a, b).None? <==> !IsSorted(a) || !IsSorted(b)
    ensures Add(a, b).Some? ==>
              Valid(Add(a, b).value) && forall d :: Amount(Add(a, b).value, d) == Amount(a, d) + Amount(b, d)
  {
    hide IsSorted, Amount, Coalesce;
    CoalesceIsCanonical(a + b, "");
    forall d ensures Amount(Coalesce(a + b), d) == Amount(a, d) + Amount(b, d) {
      CoalesceIsCanonical(a + b, d);
      AmountOfConcat(a, b, d);
    }
  }

  lemma {:induction false} AboveIsAbsent(d: string, cs: seq<Coin>)
    requires Above(d, cs)
    ensures Amount(cs, d) == 0
  {
    if cs != [] {
      LessTotal(d, d);
      assert cs[0] in cs;
      AboveIsAbsent(d, cs[1..]);
    }
  }

  lemma HeadBelowIsMissing(d: string, cs: seq<Coin>)
    requires Valid(cs) && cs != [] && Less(d, cs[0].denom)
    ensures Amount(cs, d) == 0
  {
    forall c | c in cs ensures Less(d, c.denom) {
      if c != cs[0] {
        assert c in cs[1..];
        LessTransitive(d, cs[0].denom, c.denom);
      }
    }
    AboveIsAbsent(d, cs);
  }

  /** A valid list is determined by its amounts. */
  lemma {:induction false} ValidIsUnique(x: seq<Coin>, y: seq<Coin>)
    requires Valid(x) && Valid(y) && forall d :: Amount(x, d) == Amount(y, d)
    ensures x == y
  {
    assert x != [] ==> Amount(x, x[0].denom) > 0;
    assert y != [] ==> Amount(y, y[0].denom) > 0;
    if x != [] && y != [] {
      var a, b := x[0].denom, y[0].denom;
      LessTotal(a, b);
      assert Amount(x, a) == Amount(y, a) && Amount(x, b) == Amount(y, b);
      if Less(a, b) {
        HeadBelowIsMissing(a, y);
      } else if Less(b, a) {
        HeadBelowIsMissing(b, x);
      } else {
        AboveIsAbsent(a, x[1..]);
        AboveIsAbsent(a, y[1..]);
        forall d ensures Amount(x[1..], d) == Amount(y[1..], d) {
          assert Amount(x, d) == Amount(y, d);
        }
        ValidIsUnique(x[1..], y[1..]);
        assert x == [x[0]] + x[1..] && y == [y[0]] + y[1..];
      }
    }
  }

  lemma {:induction false} ValidIsSorted(cs: seq<Coin>)
    requires Valid(cs)
    ensures IsSorted(cs)
  {
    if |cs| >= 2 {
      assert cs[1] in cs[1..];
      LessTotal(cs[0].denom, cs[1].denom);
      ValidIsSorted(cs[1..]);
    }
  }

  lemma {:induction false} AmountOfConcat(a: seq<Coin>, b: seq<Coin>, d: string)
    ensures Amount(a + b, d) == Amount(a, d) + Amount(b, d)
  {
    if a == [] {
      assert a + b == b;
    } else {
      assert (a + b)[1..] == a[1..] + b;
      AmountOfConcat(a[1..], b, d);
    }
  }

  // ---------------------------------------------------------------- sorting

  function SortInto(c: Coin, cs: seq<Coin>): seq<Coin> {
    if cs == [] || !Less(cs[0].denom, c.denom) then [c] + cs else [cs[0]] + SortInto(c, cs[1..])
  }

  /** `Coins.Sort`: reorders, and merges nothing. */
  function Sort(cs: seq<Coin>): seq<Coin> {
    if cs == [] then [] else SortInto(cs[0], Sort(cs[1..]))
  }

  lemma {:induction false} SortIntoSorted(c: Coin, cs: seq<Coin>)
    requires IsSorted(cs)
    ensures IsSorted(SortInto(c, cs)) && multiset(SortInto(c, cs)) == multiset(cs) + multiset{c}
    ensures SortInto(c, cs)[0] == c || (cs != [] && SortInto(c, cs)[0] == cs[0])
  {
    if cs != [] {
      assert cs == [cs[0]] + cs[1..];
      LessTotal(cs[0].denom, c.denom);
      if Less(cs[0].denom, c.denom) {
        SortIntoSorted(c, cs[1..]);
      }
    }
  }

  lemma {:induction false} SortSorts(cs: seq<Coin>)
    ensures IsSorted(Sort(cs)) && multiset(Sort(cs)) == multiset(cs)
  {
    if cs != [] {
      SortSorts(cs[1..]);
      SortIntoSorted(cs[0], Sort(cs[1..]));
      assert cs == [cs[0]] + cs[1..];
    }
  }

  // ---------------------------------------------------------------- total supply

  /** The accumulation loop over a prefix of the balances, starting from no coins. */
  function Supply(bs: seq<Balance>): Option<seq<Coin>> {
    if bs == [] then Some([]) else
    var t :- Supply(bs[..|bs| - 1]);
    Add(t, bs[|bs| - 1].coins)
  }

  function Total(bs: seq<Balance>, d: string): nat {
    if bs == [] then 0 else Total(bs[..|bs| - 1], d) + Amount(bs[|bs| - 1].coins, d)
  }

  /** The loop panics exactly when some balance is unsorted; otherwise it yields the canonical list of the per-denom
      sums. */
  lemma {:induction false} SupplyIsTotal(bs: seq<Balance>)
    ensures Supply(bs).Some? <==> forall b :: b in bs ==> IsSorted(b.coins)
    ensures Supply(bs).Some? ==> Valid(Supply(bs).value) && forall d :: Amount(Supply(bs).value, d) == Total(bs, d)
  {
    if bs != [] {
      var init, last := bs[..|bs| - 1], bs[|bs| - 1];
      SupplyIsTotal(init);
      assert bs == init + [last];
      if Supply(init).Some? {
        var t := Supply(init).value;
        ValidIsSorted(t);
        CoalesceIsCanonical(t + last.coins, "");
        forall d ensures Amount(Coalesce(t + last.coins), d) == Total(bs, d) || !IsSorted(last.coins) {
          CoalesceIsCanonical(t + last.coins, d);
          AmountOfConcat(t, last.coins, d);
        }
      }
    }
  }

  lemma {:induction false} TotalWithout(bs: seq<Balance>, i: nat, d: string)
    requires i < |bs|
    ensures Total(bs, d) == Total(bs[..i] + bs[i + 1..], d) + Amount(bs[i].coins, d)
  {
    var init, last := bs[..|bs| - 1], bs[|bs| - 1];
    if i == |init| {
      assert bs[..i] + bs[i + 1..] == init;
    } else {
      TotalWithout(init, i, d);
      var rest := bs[..i] + bs[i + 1..];
      assert rest[..|rest| - 1] == init[..i] + init[i + 1..];
    }
  }

  lemma MultisetWithout(bs: seq<Balance>, i: nat)
    requires i < |bs|
    ensures multiset(bs[..i] + bs[i + 1..]) == multiset(bs) - multiset{bs[i]}
  {
    assert bs == bs[..i] + [bs[i]] + bs[i + 1..];
  }

  lemma {:induction false} TotalIgnoresOrder(xs: seq<Balance>, ys: seq<Balance>, d: string)
    requires multiset(xs) == multiset(ys)
    ensures Total(xs, d) == Total(ys, d)
    decreases |xs|
  {
    assert |xs| == |multiset(xs)| && |ys| == |multiset(ys)|;
    if xs != [] {
      var n := |xs| - 1;
      assert xs[n] in multiset(ys);
      var i :| 0 <= i < |ys| && ys[i] == xs[n];
      MultisetWithout(xs, n);
      MultisetWithout(ys, i);
      assert xs[..n] + xs[n + 1..] == xs[..n];
      TotalWithout(ys, i, d);
      TotalIgnoresOrder(xs[..n], ys[..i] + ys[i + 1..], d);
    }
  }

  /** The supply does not depend on the order of the balances. */
  lemma SupplyIgnoresOrder(xs: seq<Balance>, ys: seq<Balance>)
    requires multiset(xs) == multiset(ys)
    ensures Supply(xs) == Supply(ys)
  {
    SupplyIsTotal(xs);
    SupplyIsTotal(ys);
    assert forall b :: b in xs <==> b in multiset(xs);
    assert forall b :: b in ys <==> b in multiset(ys);
    forall d ensures Total(xs, d) == Total(ys, d) {
      TotalIgnoresOrder(xs, ys, d);
    }
    if Supply(xs).Some? {
      ValidIsUnique(Supply(xs).value, Supply(ys).value);
    }
  }

  // ---------------------------------------------------------------- what one account holds

  /** What an account holds over all balance entries. */
  function Held(balances: seq<Balance>, account: string, d: string): nat {
    if balances == [] then 0
    else Held(balances[..|balances| - 1], account, d)
         + if balances[|balances| - 1].address == account then Amount(balances[|balances| - 1].coins, d) else 0
  }

  lemma {:induction false} HeldWithout(bs: seq<Balance>, i: nat, account: string, d: string)
    requires i < |bs|
    ensures Held(bs, account, d)
         == Held(bs[..i] + bs[i + 1..], account, d) + if bs[i].address == account then Amount(bs[i].coins, d) else 0
  {
    hide Amount;
    var init := bs[..|bs| - 1];
    if i == |init| {
      assert bs[..i] + bs[i + 1..] == init;
    } else {
      HeldWithout(init, i, account, d);
      var rest := bs[..i] + bs[i + 1..];
      assert rest[..|rest| - 1] == init[..i] + init[i + 1..];
    }
  }

  lemma {:induction false} HeldIgnoresOrder(xs: seq<Balance>, ys: seq<Balance>, account: string, d: string)
    requires multiset(xs) == multiset(ys)
    ensures Held(xs, account, d) == Held(ys, account, d)
    decreases |xs|
  {
    assert |xs| == |multiset(xs)| && |ys| == |multiset(ys)|;
    if xs != [] {
      var n := |xs| - 1;
      assert xs[n] in multiset(ys);
      var i :| 0 <= i < |ys| && ys[i] == xs[n];
      MultisetWithout(xs, n);
      MultisetWithout(ys, i);
      assert xs[..n] + xs[n + 1..] == xs[..n];
      HeldWithout(ys, i, account, d);
      HeldIgnoresOrder(xs[..n], ys[..i] + ys[i + 1..], account, d);
    }
  }

  /** An account that only entry `i` names holds what that entry lists. */
  lemma {:induction false} HeldOnce(bs: seq<Balance>, i: nat, d: string)
    requires i < |bs| && forall j :: 0 <= j < |bs| && j != i ==> bs[j].address != bs[i].address
    ensures Held(bs, bs[i].address, d) == Amount(bs[i].coins, d)
  {
    hide Amount;
    var init := bs[..|bs| - 1];
    if i == |init| {
      HeldNever(init, bs[i].address, d);
    } else {
      HeldOnce(init, i, d);
    }
  }

  lemma {:induction false} HeldNever(bs: seq<Balance>, account: string, d: string)
    requires forall b :: b in bs ==> b.address != account
    ensures Held(bs, account, d) == 0
  {
    if bs != [] {
      HeldNever(bs[..|bs| - 1], account, d);
    }
  }

  /** The accumulation, as both genesis builders run it. */
  method AccumulateSupply(balances: seq<Balance>) returns (supply: Option<seq<Coin>>)
    ensures supply == Supply(balances)
    ensures supply.Some? <==> forall b :: b in balances ==> IsSorted(b.coins)
    ensures supply.Some? ==> Valid(supply.value) && forall d :: Amount(supply.value, d) == Total(balances, d)
  {
    SupplyIsTotal(balances);
    var total: seq<Coin> := [];
    for i := 0 to |balances|
      invariant Supply(balances[..i]) == Some(total)
    {
      assert balances[..i + 1][..i] == balances[..i];
      var sum := Add(total, balances[i].coins);
      if sum.None? {
        SupplyIsTotal(balances[..i]);
        SupplyIsTotal(balances[..i + 1]);
        assert balances[..i + 1] == balances[..i] + [balances[i]];
        return None;
      }
      total := sum.value;
    }
    assert balances[..|balances|] == balances;
    return Some(total);
  }
}
