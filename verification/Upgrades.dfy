/** Registering the chain's upgrades at start-up: every listed upgrade gets a handler, and the one named by the
    upgrade-info file gets its store loader. */
module Upgrades {
  import opened Results

  datatype StoreUpgrades = StoreUpgrades(added: seq<string>, deleted: seq<string>)

  /** `body` stands for the handler the upgrade creates. */
  datatype Upgrade = Upgrade(name: string, body: nat, stores: StoreUpgrades)
  datatype UpgradeInfo = UpgradeInfo(height: int, name: string)
  datatype StoreLoader = StoreLoader(height: int, stores: StoreUpgrades)

  const NOOP_BODY: nat := 0

  function NoopUpgrade(version: string): Upgrade {
    Upgrade(version, NOOP_BODY, StoreUpgrades([], []))
  }

  /** The list in force: never empty. */
  function InForce(listed: seq<Upgrade>, version: string): seq<Upgrade> {
    if listed == [] then [NoopUpgrade(version)] else listed
  }

  ghost predicate FirstNamed(us: seq<Upgrade>, name: string, i: nat) {
    i < |us| && us[i].name == name && forall j :: 0 <= j < i ==> us[j].name != name
  }

  ghost predicate LastNamed(us: seq<Upgrade>, name: string, i: nat) {
    i < |us| && us[i].name == name && forall j :: i < j < |us| ==> us[j].name != name
  }

  ghost predicate Unique(us: seq<Upgrade>) {
    forall i, j :: 0 <= i < j < |us| ==> us[i].name != us[j].name
  }

  /** The handler for the name on disk and the store loader are those of upgrade `i`. */
  ghost predicate FromOneUpgrade(us: seq<Upgrade>, info: UpgradeInfo, i: nat, handlers: map<string, nat>,
                                 loader: Option<StoreLoader>) {
    && i < |us| && us[i].name == info.name
    && info.name in handlers && handlers[info.name] == us[i].body
    && loader == Some(StoreLoader(info.height, us[i].stores))
  }

  ghost predicate Named(us: seq<Upgrade>, name: string) {
    exists i :: 0 <= i < |us| && us[i].name == name
  }

  /** The package-level list, shared by every app the process constructs. */
  class UpgradeList {
    var upgrades: seq<Upgrade>

    constructor (upgrades: seq<Upgrade>)
      ensures this.upgrades == upgrades
    {
      this.upgrades := upgrades;
    }
  }

  class UpgradeKeeper {
    var handlers: map<string, nat>
    const skipHeights: set<int>
    const onDisk: Option<UpgradeInfo>   // `None`: the upgrade-info file cannot be read

    constructor (skipHeights: set<int>, onDisk: Option<UpgradeInfo>)
      ensures handlers == map[] && this.skipHeights == skipHeights && this.onDisk == onDisk
    {
      handlers := map[];
      this.skipHeights, this.onDisk := skipHeights, onDisk;
    }
  }

  class ChainApp {
    const keeper: UpgradeKeeper
    const version: string
    var storeLoader: Option<StoreLoader>

    constructor (keeper: UpgradeKeeper, version: string)
      ensures this.keeper == keeper && this.version == version && storeLoader == None
    {
      this.keeper, this.version, storeLoader := keeper, version, None;
    }

    /** The name on disk is listed and its height is not skipped. */
    ghost predicate LoadsStore(us: seq<Upgrade>) {
      && keeper.onDisk.Some? && keeper.onDisk.value.height !in keeper.skipHeights
      && Named(us, keeper.onDisk.value.name)
    }

    /** `ok` is false when the upgrade-info file cannot be read.  A name's handler is that of the last upgrade listed
        under it; the loader is that of the first upgrade listed under the name on disk. */
    method RegisterUpgradeHandlers(list: UpgradeList) returns (ok: bool)
      modifies this, keeper, list
      ensures ok == keeper.onDisk.Some?
      ensures old(list.upgrades) != [] ==> list.upgrades == old(list.upgrades)
      ensures old(list.upgrades) == [] ==>
                && |list.upgrades| == 1 && list.upgrades[0].name == version && list.upgrades[0].body == NOOP_BODY
                && list.upgrades[0].stores.added == [] && list.upgrades[0].stores.deleted == []
      ensures forall name :: name in keeper.handlers <==> name in old(keeper.handlers) || Named(list.upgrades, name)
      ensures forall name, i: nat :: LastNamed(list.upgrades, name, i) ==>
                name in keeper.handlers && keeper.handlers[name] == list.upgrades[i].body
      ensures forall name :: name in old(keeper.handlers) && !Named(list.upgrades, name) ==>
                keeper.handlers[name] == old(keeper.handlers)[name]
      ensures LoadsStore(list.upgrades) ==>
                exists i: nat :: FirstNamed(list.upgrades, keeper.onDisk.value.name, i)
                            && storeLoader == Some(StoreLoader(keeper.onDisk.value.height, list.upgrades[i].stores))
      ensures !LoadsStore(list.upgrades) ==> storeLoader == old(storeLoader)
      ensures LoadsStore(list.upgrades) && Unique(list.upgrades) ==>
                exists i: nat :: FromOneUpgrade(list.upgrades, keeper.onDisk.value, i, keeper.handlers, storeLoader)
    {
      if |list.upgrades| == 0 {
        list.upgrades := list.upgrades + [NoopUpgrade(version)];
      }
      SetHandlers(list.upgrades);
      if keeper.onDisk.None? {
        return false;
      }
      var info := keeper.onDisk.value;
      if info.height !in keeper.skipHeights {
        SetLoader(list.upgrades, info);
        if Named(list.upgrades, info.name) && Unique(list.upgrades) {
          ghost var i: nat :| FirstNamed(list.upgrades, info.name, i)
                              && storeLoader == Some(StoreLoader(info.height, list.upgrades[i].stores));
          assert LastNamed(list.upgrades, info.name, i);
          assert FromOneUpgrade(list.upgrades, info, i, keeper.handlers, storeLoader);
        }
      }
      return true;
    }

    method SetHandlers(us: seq<Upgrade>)
      modifies keeper
      ensures forall name :: name in keeper.handlers <==> name in old(keeper.handlers) || Named(us, name)
      ensures forall name, i: nat :: LastNamed(us, name, i) ==>
                name in keeper.handlers && keeper.handlers[name] == us[i].body
      ensures forall name :: name in old(keeper.handlers) && !Named(us, name) ==>
                keeper.handlers[name] == old(keeper.handlers)[name]
    {
      for i := 0 to |us|
        invariant forall name :: name in keeper.handlers <==> name in old(keeper.handlers) || Named(us[..i], name)
        invariant forall name, k: nat :: LastNamed(us[..i], name, k) ==>
                    name in keeper.handlers && keeper.handlers[name] == us[k].body
        invariant forall name :: name in old(keeper.handlers) && !Named(us[..i], name) ==>
                    keeper.handlers[name] == old(keeper.handlers)[name]
      {
        NamedSnoc(us, i);
        keeper.handlers := keeper.handlers[us[i].name := us[i].body];
      }
      assert us[..|us|] == us;
    }

    method SetLoader(us: seq<Upgrade>, info: UpgradeInfo)
      modifies this`storeLoader
      ensures Named(us, info.name) ==>
                exists i: nat :: FirstNamed(us, info.name, i)
                            && storeLoader == Some(StoreLoader(info.height, us[i].stores))
      ensures !Named(us, info.name) ==> storeLoader == old(storeLoader)
    {
      for i := 0 to |us|
        invariant forall j :: 0 <= j < i ==> us[j].name != info.name
        invariant storeLoader == old(storeLoader)
      {
        if info.name == us[i].name {
          storeLoader := Some(StoreLoader(info.height, us[i].stores));
          assert FirstNamed(us, info.name, i);
          break;
        }
      }
    }
  }

  lemma NamedSnoc(us: seq<Upgrade>, i: nat)
    requires i < |us|
    ensures forall name :: Named(us[..i + 1], name) <==> Named(us[..i], name) || us[i].name == name
    ensures LastNamed(us[..i + 1], us[i].name, i)
    ensures forall name, k: nat :: LastNamed(us[..i + 1], name, k) ==>
              (name == us[i].name && k == i) || LastNamed(us[..i], name, k)
  {
    var more := us[..i + 1];
    forall name ensures Named(more, name) <==> Named(us[..i], name) || us[i].name == name {
      if k :| 0 <= k < |more| && more[k].name == name {
        assert k < i ==> us[..i][k].name == name;
      }
      if k :| 0 <= k < i && us[..i][k].name == name {
        assert more[k].name == name;
      }
      assert more[i].name == us[i].name;
    }
    forall name, k: nat | LastNamed(more, name, k) && !(name == us[i].name && k == i)
      ensures LastNamed(us[..i], name, k) {
      assert more[i] == us[i];
      assert forall j :: k < j < i ==> us[..i][j] == more[j];
    }
  }

  /** First and last duplicate are the same upgrade for every name exactly when no name is listed twice. */
  lemma TiesAgreeIffUnique(us: seq<Upgrade>)
    ensures (forall name, i: nat, j: nat :: FirstNamed(us, name, i) && LastNamed(us, name, j) ==> i == j)
       <==> Unique(us)
  {
    if i, j :| 0 <= i < j < |us| && us[i].name == us[j].name {
      var f := FindFirst(us, us[i].name, i);
      var l := FindLast(us, us[i].name, j);
    }
  }

  lemma {:induction false} FindFirst(us: seq<Upgrade>, name: string, at: nat) returns (i: nat)
    requires at < |us| && us[at].name == name
    ensures i <= at && FirstNamed(us, name, i)
  {
    i := at;
    if j :| 0 <= j < at && us[j].name == name {
      i := FindFirst(us, name, j);
    }
  }

  lemma {:induction false} FindLast(us: seq<Upgrade>, name: string, at: nat) returns (i: nat)
    requires at < |us| && us[at].name == name
    ensures at <= i && LastNamed(us, name, i)
    decreases |us| - at
  {
    i := at;
    if j :| at < j < |us| && us[j].name == name {
      i := FindLast(us, name, j);
    }
  }

  /** The list after any number of apps were constructed, with whatever versions. */
  function Reconstructed(listed: seq<Upgrade>, versions: seq<string>): seq<Upgrade>
    decreases |versions|
  {
    if versions == [] then listed else Reconstructed(InForce(listed, versions[0]), versions[1..])
  }

  /** A list that names an upgrade is never changed; an empty one gets the no-op of the first version constructed. */
  lemma {:induction false} ListSettles(listed: seq<Upgrade>, versions: seq<string>)
    requires versions != []
    ensures Reconstructed(listed, versions)
         == if listed != [] then listed else [Upgrade(versions[0], NOOP_BODY, StoreUpgrades([], []))]
    decreases |versions|
  {
    if |versions| > 1 {
      ListSettles(InForce(listed, versions[0]), versions[1..]);
    }
  }
}
