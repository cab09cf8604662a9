/** Writing the files of a multi-node testnet: one loop lays the nodes out, a second one collects their genesis
    transactions, and both go through one configuration object. */
module Testnet {
  import opened Results
  import opened CoinLists
  import opened Layout

  datatype AppState = AppState(accounts: seq<string>, balances: seq<Balance>, supply: seq<Coin>, genTxs: seq<string>)
  datatype AppGenesis = AppGenesis(chainID: string, genesisTime: Option<nat>, appState: AppState)

  datatype Memo = Memo(nodeID: string, ip: IPv4, port: nat)

  datatype File =
    | GenesisDoc(genesis: AppGenesis)
    | AppSettings(apiPort: nat, grpcPort: nat)
    | NodeSettings(moniker: string, rpcPort: nat, p2pPort: nat)
    | GenTx(moniker: string, memo: Memo)

  /** `--starting-ip-address`: left empty, the host's own address stands in for it. */
  datatype StartingIP = Unset(external: Option<IPv4>) | Given(parsed: Option<IPv4>)

  datatype InitArgs = InitArgs(chainID: string, nodeDaemonHome: string, nodeDirPrefix: string, numValidators: nat,
                               outputDir: string, startingIP: StartingIP, singleMachine: bool)

  /** What the library calls yield: keys and accounts per node, the order balances are sanitized into, and the app state
      collected for a node, or an error. */
  datatype Libraries = Libraries(
    randomID: string,
    now: nat,
    nodeID: nat -> Option<string>,
    account: nat -> string,
    sanitize: seq<Balance> -> seq<Balance>,
    collect: (AppGenesis, string, string) -> Option<AppState>)  // genesis, node ID, moniker

  class NodeConfig {
    var rootDir: Path
    var moniker: string
    var rpcPort: nat
    var p2pPort: nat
    var strictRoutability: bool

    constructor ()
    {
      rootDir, moniker, rpcPort, p2pPort, strictRoutability := Join([]), "", RPC_PORT, P2P_PORT, true;
    }

    method SetRoot(root: Path)
      modifies this`rootDir
      ensures rootDir == root
    {
      rootDir := root;
    }

    function GenesisPath(): Path
      reads this
    {
      GenesisFile(rootDir)
    }
  }

  // ---------------------------------------------------------------- what a node's files hold

  function Dir(args: InitArgs, i: nat): Path {
    NodeDir(args.outputDir, args.nodeDirPrefix, args.nodeDaemonHome, i)
  }

  function Name(args: InitArgs, i: nat): string {
    NodeDirName(args.nodeDirPrefix, i)
  }

  function IPOf(start: StartingIP, i: nat): Option<IPv4> {
    match start
    case Unset(external) => external
    case Given(parsed) => if parsed.None? then None else Some(Plus(parsed.value, i))
  }

  const UNSORTED_COINS := [Coin("testtoken", 1_000_000_000), Coin("stake", 500_000_000)]

  function NodeBalance(libs: Libraries, i: nat): Balance {
    Balance(libs.account(i), Sort(UNSORTED_COINS))
  }

  /** The two coins of a node, in sorted order. */
  ghost predicate NodeCoins(coins: seq<Coin>) {
    IsSorted(coins) && multiset(coins) == multiset{Coin("testtoken", 1_000_000_000), Coin("stake", 500_000_000)}
  }

  /** Each node has its own account and its own entry among the balances. */
  ghost predicate NodesFund(libs: Libraries, n: nat, accounts: seq<string>, balances: seq<Balance>) {
    && |accounts| == n && |balances| == n
    && forall i :: 0 <= i < n ==>
         && accounts[i] == libs.account(i)
         && balances[i].address == libs.account(i) && NodeCoins(balances[i].coins)
  }

  lemma NodesAreFunded(libs: Libraries, n: nat)
    ensures NodesFund(libs, n, Accounts(libs, n), NodeBalances(libs, n))
  {
    SortSorts(UNSORTED_COINS);
    assert multiset(UNSORTED_COINS) == multiset{UNSORTED_COINS[0], UNSORTED_COINS[1]};
    hide Sort, IsSorted;
  }

  function NodeBalances(libs: Libraries, n: nat): seq<Balance> {
    seq(n, i requires 0 <= i < n => NodeBalance(libs, i))
  }

  /** Each node's directory is its own. */
  predicate OwnDirs(args: InitArgs) {
    StaysBelow(Split(args.nodeDaemonHome))
  }

  /** What the first `n` nodes wrote under node `i`'s directory, node `i` wrote last. */
  predicate LastInDir(args: InitArgs, i: nat, n: nat) {
    OwnDirs(args) || i == n - 1
  }

  ghost predicate AppConfigured(files: map<Path, File>, args: InitArgs, i: nat) {
    && AppToml(Dir(args, i)) in files
    && files[AppToml(Dir(args, i))] == AppSettings(Port(args.singleMachine, API, i), Port(args.singleMachine, GRPC, i))
  }

  function NodeMemo(args: InitArgs, libs: Libraries, i: nat): Memo
    requires libs.nodeID(i).Some? && IPOf(args.startingIP, i).Some?
  {
    Memo(libs.nodeID(i).value, IPOf(args.startingIP, i).value, Port(args.singleMachine, P2P, i))
  }

  ghost predicate MemoWritten(files: map<Path, File>, args: InitArgs, libs: Libraries, i: nat) {
    && libs.nodeID(i).Some? && IPOf(args.startingIP, i).Some?
    && GenTxFile(args.outputDir, Name(args, i)) in files
    && files[GenTxFile(args.outputDir, Name(args, i))] == GenTx(Name(args, i), NodeMemo(args, libs, i))
  }

  /** The files of node `i` that the first loop writes, once it has laid out `n` nodes. */
  ghost predicate NodeLaidOut(files: map<Path, File>, args: InitArgs, libs: Libraries, i: nat, n: nat) {
    MemoWritten(files, args, libs, i) && (LastInDir(args, i, n) ==> AppConfigured(files, args, i))
  }

  function Offset(args: InitArgs, i: nat): nat {
    if args.singleMachine then i else 0
  }

  ghost predicate NodeConfigured(files: map<Path, File>, args: InitArgs, i: nat, rpcPort: nat, p2pPort: nat) {
    && ConfigToml(Dir(args, i)) in files
    && files[ConfigToml(Dir(args, i))]
       == NodeSettings(Name(args, i), rpcPort + Offset(args, i), p2pPort + Offset(args, i))
  }

  ghost predicate HoldsGenesis(files: map<Path, File>, args: InitArgs, i: nat, doc: AppGenesis) {
    GenesisFile(Dir(args, i)) in files && files[GenesisFile(Dir(args, i))] == GenesisDoc(doc)
  }

  class Disk {
    var files: map<Path, File>

    constructor ()
      ensures files == map[]
    {
      files := map[];
    }

    method Write(p: Path, f: File)
      modifies this
      ensures files == old(files)[p := f]
    {
      files := files[p := f];
    }

    /** `os.RemoveAll` does nothing for an empty name and refuses one whose last component is a dot. */
    method RemoveAll(dir: string)
      modifies this
      ensures forall p :: p in files ==> p in old(files) && files[p] == old(files)[p]
      ensures dir == "" || Split(dir)[|Split(dir)| - 1] == "." ==> files == old(files)
      ensures dir != "" && Split(dir)[|Split(dir)| - 1] != "." ==>
                forall p :: p in files <==> p in old(files) && !Under(dir, p)
    {
      if dir != "" && Split(dir)[|Split(dir)| - 1] != "." {
        files := map p | p in files && !Under(dir, p) :: files[p];
      }
    }
  }

  method GetIP(i: nat, start: StartingIP) returns (ip: Option<IPv4>)
    ensures ip == IPOf(start, i)
    ensures start.Unset? ==> ip == start.external
    ensures start.Given? ==> (ip.Some? <==> start.parsed.Some?)
    ensures start.Given? && ip.Some? ==>
              && ip.value.a == start.parsed.value.a && ip.value.b == start.parsed.value.b
              && ip.value.c == start.parsed.value.c && ip.value.d as int == (start.parsed.value.d as int + i) % 256
  {
    match start
    case Unset(external) => ip := external;
    case Given(parsed) => ip := CalculateIP(parsed, i);
  }

  // ---------------------------------------------------------------- initGenFiles

  function InitialGenesis(libs: Libraries, chainID: string, accounts: seq<string>,
                          balances: seq<Balance>): Option<AppGenesis> {
    var sanitized := libs.sanitize(balances);
    var supply :- Supply(sanitized);
    Some(AppGenesis(chainID, None, AppState(accounts, sanitized, supply, [])))
  }

  /** A genesis of this chain with these accounts and, in the library's order, these balances and what they add up
      to. */
  ghost predicate StartsWith(doc: AppGenesis, libs: Libraries, chainID: string, accounts: seq<string>,
                             balances: seq<Balance>) {
    && doc.chainID == chainID && doc.genesisTime.None? && doc.appState.genTxs == []
    && doc.appState.accounts == accounts && doc.appState.balances == libs.sanitize(balances)
    && Valid(doc.appState.supply)
    && forall d :: Amount(doc.appState.supply, d) == Total(doc.appState.balances, d)
  }

  lemma InitialStartsWith(libs: Libraries, chainID: string, accounts: seq<string>, balances: seq<Balance>)
    ensures var doc := InitialGenesis(libs, chainID, accounts, balances);
            && (doc.Some? <==> forall b :: b in libs.sanitize(balances) ==> IsSorted(b.coins))
            && (doc.Some? ==> StartsWith(doc.value, libs, chainID, accounts, balances))
  {
    SupplyIsTotal(libs.sanitize(balances));
    hide Supply, Total, Amount, IsSorted, Valid;
  }

  /** Every listed file gets the same initial genesis; the accumulation panics on an unsorted balance. */
  method InitGenFiles(disk: Disk, libs: Libraries, chainID: string, accounts: seq<string>, balances: seq<Balance>,
                      genFiles: seq<Path>) returns (doc: Option<AppGenesis>)
    modifies disk
    ensures doc == InitialGenesis(libs, chainID, accounts, balances)
    ensures doc.Some? <==> forall b :: b in libs.sanitize(balances) ==> IsSorted(b.coins)
    ensures doc.Some? ==> StartsWith(doc.value, libs, chainID, accounts, balances)
    ensures doc.Some? ==> forall p :: p in genFiles ==> p in disk.files && disk.files[p] == GenesisDoc(doc.value)
    ensures forall p :: p in old(disk.files) && p !in genFiles ==>
              p in disk.files && disk.files[p] == old(disk.files)[p]
  {
    InitialStartsWith(libs, chainID, accounts, balances);
    hide StartsWith, Valid, IsSorted;
    var sanitized := libs.sanitize(balances);
    var supply := AccumulateSupply(sanitized);
    if supply.None? {
      return None;
    }
    var genesis := AppGenesis(chainID, None, AppState(accounts, sanitized, supply.value, []));
    for i := 0 to |genFiles|
      invariant forall p :: p in genFiles[..i] ==> p in disk.files && disk.files[p] == GenesisDoc(genesis)
      invariant forall p :: p in old(disk.files) && p !in genFiles ==>
                  p in disk.files && disk.files[p] == old(disk.files)[p]
    {
      assert genFiles[..i + 1] == genFiles[..i] + [genFiles[i]];
      disk.Write(genFiles[i], GenesisDoc(genesis));
    }
    assert genFiles[..|genFiles|] == genFiles;
    return Some(genesis);
  }

  // ---------------------------------------------------------------- collectGenFiles

  ghost predicate AllHold(files: map<Path, File>, args: InitArgs, doc: AppGenesis) {
    forall i: nat :: i < args.numValidators ==> HoldsGenesis(files, args, i, doc)
  }

  ghost predicate CollectionWrites(args: InitArgs, n: nat, p: Path) {
    exists i: nat :: i < n && p in {GenesisFile(Dir(args, i)), ConfigToml(Dir(args, i))}
  }

  ghost predicate Untouched(before: map<Path, File>, after: map<Path, File>, args: InitArgs, n: nat) {
    forall p :: p in before && !CollectionWrites(args, n, p) ==> p in after && after[p] == before[p]
  }

  lemma UntouchedRefl(files: map<Path, File>, args: InitArgs, n: nat)
    ensures Untouched(files, files, args, n)
  {
  }

  lemma UntouchedByNode(before: map<Path, File>, files: map<Path, File>, args: InitArgs, n: nat, i: nat,
                        settings: File, genesis: File)
    requires Untouched(before, files, args, n) && i < n
    ensures var after := files[ConfigToml(Dir(args, i)) := settings][GenesisFile(Dir(args, i)) := genesis];
            Untouched(before, after, args, n)
  {
  }

  /** What one turn of the collection writes disturbs no node with a directory of its own; nodes that share the
      directory get the genesis too. */
  lemma CollectedOne(files: map<Path, File>, args: InitArgs, i: nat, settings: File, genesis: AppGenesis, j: nat,
                     doc: AppGenesis, rpcPort: nat, p2pPort: nat)
    requires i != j
    ensures var after := files[ConfigToml(Dir(args, i)) := settings][GenesisFile(Dir(args, i)) := GenesisDoc(genesis)];
            && (OwnDirs(args) && HoldsGenesis(files, args, j, doc) ==> HoldsGenesis(after, args, j, doc))
            && (OwnDirs(args) && NodeConfigured(files, args, j, rpcPort, p2pPort) ==>
                 NodeConfigured(after, args, j, rpcPort, p2pPort))
            && (!OwnDirs(args) ==> HoldsGenesis(after, args, j, genesis))
  {
    PathsDiffer(args.outputDir, args.nodeDirPrefix, args.nodeDaemonHome, i, j);
    KindsDiffer(Dir(args, i), Dir(args, j), args.outputDir, args.nodeDirPrefix, i);
    KindsDiffer(Dir(args, j), Dir(args, i), args.outputDir, args.nodeDirPrefix, i);
    hide Config, NodeDir, StaysBelow, Split;
  }

  /** The genesis that node `i` reads when its turn comes: in a shared directory the one node 0 left. */
  function SeenBy(args: InitArgs, i: nat, doc: AppGenesis, collected: AppGenesis): AppGenesis {
    if i == 0 || OwnDirs(args) then doc else collected
  }

  /** The collection succeeds for the first `n` nodes. */
  ghost predicate Collectable(args: InitArgs, libs: Libraries, chainID: string, nodeIDs: seq<string>, doc: AppGenesis,
                              n: nat)
    requires n <= |nodeIDs|
  {
    forall i: nat :: i < n ==>
      var first := libs.collect(doc, nodeIDs[0], Name(args, 0));
      first.Some? && libs.collect(SeenBy(args, i, doc, AppGenesis(chainID, Some(libs.now), first.value)),
                                  nodeIDs[i], Name(args, i)).Some?
  }

  /** The genesis file of node `i` holds `genesis`, and its settings are its own if nobody overwrote them. */
  ghost predicate NodeCollected(files: map<Path, File>, args: InitArgs, i: nat, genesis: AppGenesis, rpcPort: nat,
                                p2pPort: nat) {
    && HoldsGenesis(files, args, i, genesis)
    && (LastInDir(args, i, args.numValidators) ==> NodeConfigured(files, args, i, rpcPort, p2pPort))
  }

  /** The genesis every node ends with: the state collected for node 0. */
  function Canonical(args: InitArgs, libs: Libraries, chainID: string, nodeID: string,
                     doc: AppGenesis): Option<AppGenesis> {
    var state :- libs.collect(doc, nodeID, Name(args, 0));
    Some(AppGenesis(chainID, Some(libs.now), state))
  }

  /** The state collected for node 0 of the document, under a chain ID and the time of the run. */
  ghost predicate CollectedFrom(genesis: AppGenesis, args: InitArgs, libs: Libraries, chainID: string, nodeID: string,
                                doc: AppGenesis) {
    && genesis.chainID == chainID && genesis.genesisTime == Some(libs.now)
    && Some(genesis.appState) == libs.collect(doc, nodeID, NodeDirName(args.nodeDirPrefix, 0))
  }

  lemma CanonicalIsCollected(args: InitArgs, libs: Libraries, chainID: string, nodeID: string, doc: AppGenesis)
    requires Canonical(args, libs, chainID, nodeID, doc).Some?
    ensures CollectedFrom(Canonical(args, libs, chainID, nodeID, doc).value, args, libs, chainID, nodeID, doc)
  {
  }

  /** With the same initial genesis in every node's file, the collection succeeds exactly when it succeeds for each node
      on the genesis it reads, and then every file holds the state collected for node 0, at one time. */
  method CollectGenFiles(disk: Disk, config: NodeConfig, args: InitArgs, libs: Libraries, chainID: string,
                         nodeIDs: seq<string>, rpcPortStart: nat, p2pPortStart: nat, ghost doc: AppGenesis)
    returns (ok: bool)
    requires |nodeIDs| == args.numValidators
    modifies disk, config
    ensures old(AllHold(disk.files, args, doc)) ==>
              (ok <==> Collectable(args, libs, chainID, nodeIDs, doc, args.numValidators))
    ensures ok && old(AllHold(disk.files, args, doc)) && args.numValidators > 0 ==>
              var genesis := Canonical(args, libs, chainID, nodeIDs[0], doc);
              genesis.Some? && CollectedFrom(genesis.value, args, libs, chainID, nodeIDs[0], doc)
              && forall i: nat :: i < args.numValidators ==>
                   NodeCollected(disk.files, args, i, genesis.value, rpcPortStart, p2pPortStart)
    ensures Untouched(old(disk.files), disk.files, args, args.numValidators)
  {
    hide HoldsGenesis, NodeConfigured, GenesisFile, ConfigToml, NodeDir, NodeDirName, Untouched, OwnDirs;
    UntouchedRefl(disk.files, args, args.numValidators);
    var appState: Option<AppState> := None;
    var genTime := libs.now;
    ghost var ready := AllHold(disk.files, args, doc);
    for i := 0 to args.numValidators
      invariant appState.None? <==> i == 0
      invariant ready && i > 0 ==> appState == libs.collect(doc, nodeIDs[0], Name(args, 0))
      invariant ready ==> Collectable(args, libs, chainID, nodeIDs, doc, i)
      invariant ready ==> forall j: nat :: j < i ==>
                  && HoldsGenesis(disk.files, args, j, AppGenesis(chainID, Some(genTime), appState.value))
                  && (LastInDir(args, j, i) ==> NodeConfigured(disk.files, args, j, rpcPortStart, p2pPortStart))
      invariant ready ==> forall j: nat :: i <= j < args.numValidators ==>
                  HoldsGenesis(disk.files, args, j,
                    SeenBy(args, i, doc, AppGenesis(chainID, Some(genTime), appState.GetOr(doc.appState))))
      invariant Untouched(old(disk.files), disk.files, args, args.numValidators)
    {
      var portOffset := if args.singleMachine then i else 0;
      config.moniker := Name(args, i);
      config.rpcPort := rpcPortStart + portOffset;
      config.p2pPort := p2pPortStart + portOffset;
      config.SetRoot(Dir(args, i));
      var genFile := config.GenesisPath();
      ghost var seen := SeenBy(args, i, doc, AppGenesis(chainID, Some(genTime), appState.GetOr(doc.appState)));
      assert ready ==> HoldsGenesis(disk.files, args, i, seen);
      assert ready ==> genFile in disk.files && disk.files[genFile] == GenesisDoc(seen) by {
        ReadGenesis(disk.files, args, i, seen);
      }
      if genFile !in disk.files || !disk.files[genFile].GenesisDoc? {
        return false;
      }
      var nodeAppState := libs.collect(disk.files[genFile].genesis, nodeIDs[i], config.moniker);
      if nodeAppState.None? {
        return false;
      }
      if appState.None? {
        appState := nodeAppState;
      }
      ghost var before := disk.files;
      var settings := NodeSettings(config.moniker, config.rpcPort, config.p2pPort);
      var genesis := AppGenesis(chainID, Some(genTime), appState.value);
      disk.Write(ConfigToml(config.rootDir), settings);
      disk.Write(genFile, GenesisDoc(genesis));
      CollectedHere(before, args, i, settings, genesis, rpcPortStart, p2pPortStart);
      UntouchedByNode(old(disk.files), before, args, args.numValidators, i, settings, GenesisDoc(genesis));
      forall j: nat, d | j != i && OwnDirs(args) && HoldsGenesis(before, args, j, d)
        ensures HoldsGenesis(disk.files, args, j, d) {
        CollectedOne(before, args, i, settings, genesis, j, d, rpcPortStart, p2pPortStart);
      }
      forall j: nat | j != i && !OwnDirs(args) ensures HoldsGenesis(disk.files, args, j, genesis) {
        CollectedOne(before, args, i, settings, genesis, j, doc, rpcPortStart, p2pPortStart);
      }
      forall j: nat | j != i && OwnDirs(args) && NodeConfigured(before, args, j, rpcPortStart, p2pPortStart)
        ensures NodeConfigured(disk.files, args, j, rpcPortStart, p2pPortStart) {
        CollectedOne(before, args, i, settings, genesis, j, doc, rpcPortStart, p2pPortStart);
      }
    }
    return true;
  }

  lemma ReadGenesis(files: map<Path, File>, args: InitArgs, i: nat, doc: AppGenesis)
    ensures HoldsGenesis(files, args, i, doc) ==>
              GenesisFile(Dir(args, i)) in files && files[GenesisFile(Dir(args, i))] == GenesisDoc(doc)
  {
  }

  lemma CollectedHere(files: map<Path, File>, args: InitArgs, i: nat, settings: File, genesis: AppGenesis,
                      rpcPort: nat, p2pPort: nat)
    requires settings == NodeSettings(Name(args, i), rpcPort + Offset(args, i), p2pPort + Offset(args, i))
    ensures var after := files[ConfigToml(Dir(args, i)) := settings][GenesisFile(Dir(args, i)) := GenesisDoc(genesis)];
            HoldsGenesis(after, args, i, genesis) && NodeConfigured(after, args, i, rpcPort, p2pPort)
  {
    KindsDiffer(Dir(args, i), Dir(args, i), args.outputDir, args.nodeDirPrefix, i);
    hide Config, NodeDir;
  }

  // ---------------------------------------------------------------- initTestnetFiles

  function ChainID(args: InitArgs, libs: Libraries): string {
    if args.chainID == "" then "chain-" + libs.randomID else args.chainID
  }

  function Accounts(libs: Libraries, n: nat): seq<string> {
    seq(n, i requires 0 <= i < n => libs.account(i))
  }

  /** The genesis every node starts from. */
  function Initial(args: InitArgs, libs: Libraries): Option<AppGenesis> {
    var n := args.numValidators;
    InitialGenesis(libs, ChainID(args, libs), Accounts(libs, n), NodeBalances(libs, n))
  }

  ghost predicate NodesUsable(args: InitArgs, libs: Libraries, n: nat) {
    forall i: nat :: i < n ==> IPOf(args.startingIP, i).Some? && libs.nodeID(i).Some?
  }

  function NodeIDs(libs: Libraries, n: nat): seq<string> {
    seq(n, i requires 0 <= i < n => libs.nodeID(i).GetOr(""))
  }

  lemma LaidOutHere(files: map<Path, File>, args: InitArgs, libs: Libraries, i: nat)
    requires libs.nodeID(i).Some? && IPOf(args.startingIP, i).Some?
    ensures var settings := AppSettings(Port(args.singleMachine, API, i), Port(args.singleMachine, GRPC, i));
            NodeLaidOut(files[GenTxFile(args.outputDir, Name(args, i)) := GenTx(Name(args, i), NodeMemo(args, libs, i))]
                             [AppToml(Dir(args, i)) := settings], args, libs, i, i + 1)
  {
    KindsDiffer(Dir(args, i), Dir(args, i), args.outputDir, args.nodeDirPrefix, i);
    hide Config, NodeDir, GenTxFile, OwnDirs, IPOf;
  }

  lemma LaidOutElsewhere(files: map<Path, File>, args: InitArgs, libs: Libraries, i: nat, f: File, g: File, j: nat)
    requires j < i && NodeLaidOut(files, args, libs, j, i)
    ensures var after := files[GenTxFile(args.outputDir, Name(args, i)) := f][AppToml(Dir(args, i)) := g];
            NodeLaidOut(after, args, libs, j, i + 1)
  {
    PathsDiffer(args.outputDir, args.nodeDirPrefix, args.nodeDaemonHome, i, j);
    GenTxsDiffer(args.outputDir, args.nodeDirPrefix, i, j);
    KindsDiffer(Dir(args, i), Dir(args, i), args.outputDir, args.nodeDirPrefix, j);
    KindsDiffer(Dir(args, j), Dir(args, j), args.outputDir, args.nodeDirPrefix, i);
    hide Config, NodeDir, GenTxFile, StaysBelow, Split, NodeDirName, IPOf;
  }

  lemma LaidOutUntouched(before: map<Path, File>, after: map<Path, File>, args: InitArgs, libs: Libraries, i: nat)
    requires NodeLaidOut(before, args, libs, i, args.numValidators)
    requires Untouched(before, after, args, args.numValidators)
    ensures NodeLaidOut(after, args, libs, i, args.numValidators)
  {
    forall j: nat
      ensures AppToml(Dir(args, i)) !in {GenesisFile(Dir(args, j)), ConfigToml(Dir(args, j))}
      ensures GenTxFile(args.outputDir, Name(args, i)) !in {GenesisFile(Dir(args, j)), ConfigToml(Dir(args, j))}
    {
      KindsDiffer(Dir(args, j), Dir(args, i), args.outputDir, args.nodeDirPrefix, i);
    }
    hide Config, NodeDir, GenTxFile, OwnDirs, NodeDirName, IPOf;
  }

  /** The first loop: every node's directory, keys, memo and settings, and what the later steps need of them. */
  method LayOutNodes(disk: Disk, config: NodeConfig, args: InitArgs, libs: Libraries)
    returns (ok: bool, nodeIDs: seq<string>, genAccounts: seq<string>, genBalances: seq<Balance>, genFiles: seq<Path>,
             p2pPortStart: nat)
    modifies disk, config
    ensures ok <==> NodesUsable(args, libs, args.numValidators)
    ensures args.numValidators > 0 ==>
              (config.strictRoutability <==> old(config.strictRoutability) && !args.singleMachine)
    ensures !ok && args.outputDir != "" && Split(args.outputDir)[|Split(args.outputDir)| - 1] != "." ==>
              forall p :: p in disk.files ==> !Under(args.outputDir, p)
    ensures ok ==>
              && |nodeIDs| == args.numValidators && |genFiles| == args.numValidators
              && (forall j :: 0 <= j < args.numValidators ==> nodeIDs[j] == libs.nodeID(j).value)
              && (forall j :: 0 <= j < args.numValidators ==> genFiles[j] == GenesisFile(Dir(args, j)))
              && genAccounts == Accounts(libs, args.numValidators)
              && genBalances == NodeBalances(libs, args.numValidators)
              && NodesFund(libs, args.numValidators, genAccounts, genBalances)
              && (args.numValidators > 0 ==> p2pPortStart == Port(args.singleMachine, P2P, 0))
              && forall j: nat :: j < args.numValidators ==> NodeLaidOut(disk.files, args, libs, j, args.numValidators)
  {
    hide NodeLaidOut, Under, GenesisFile, AppToml, GenTxFile, NodeDir, NodeDirName, Sort, IPOf,
      NodesFund;
    nodeIDs, genAccounts, genBalances, genFiles, p2pPortStart := [], [], [], [], P2P_PORT;
    for i := 0 to args.numValidators
      invariant NodesUsable(args, libs, i)
      invariant config.strictRoutability <==> old(config.strictRoutability) && !(args.singleMachine && i > 0)
      invariant |nodeIDs| == i && forall j :: 0 <= j < i ==> nodeIDs[j] == libs.nodeID(j).value
      invariant genAccounts == Accounts(libs, i) && genBalances == NodeBalances(libs, i)
      invariant |genFiles| == i && forall j :: 0 <= j < i ==> genFiles[j] == GenesisFile(Dir(args, j))
      invariant i > 0 || !args.singleMachine ==> p2pPortStart == Port(args.singleMachine, P2P, 0)
      invariant forall j: nat :: j < i ==> NodeLaidOut(disk.files, args, libs, j, i)
    {
      var portOffset := 0;
      if args.singleMachine {
        portOffset := i;
        p2pPortStart := P2P_PORT_SINGLE_HOST;
        config.strictRoutability := false;
      }
      var nodeDirName := Name(args, i);
      config.SetRoot(Dir(args, i));
      config.moniker := nodeDirName;
      config.rpcPort := RPC_PORT;
      var settings := AppSettings(API_PORT + portOffset, GRPC_PORT + portOffset);
      var ip := GetIP(i, args.startingIP);
      if ip.None? || libs.nodeID(i).None? {
        disk.RemoveAll(args.outputDir);
        ok := false;
        return;
      }
      nodeIDs := nodeIDs + [libs.nodeID(i).value];
      var memo := Memo(nodeIDs[i], ip.value, p2pPortStart + portOffset);
      genFiles := genFiles + [config.GenesisPath()];
      genBalances := genBalances + [Balance(libs.account(i), Sort(UNSORTED_COINS))];
      genAccounts := genAccounts + [libs.account(i)];
      assert Accounts(libs, i + 1) == Accounts(libs, i) + [libs.account(i)];
      assert NodeBalances(libs, i + 1) == NodeBalances(libs, i) + [NodeBalance(libs, i)];
      ghost var before := disk.files;
      disk.Write(GenTxFile(args.outputDir, nodeDirName), GenTx(nodeDirName, memo));
      disk.Write(AppToml(config.rootDir), settings);
      LaidOutHere(before, args, libs, i);
      ghost var next := i + 1;
      forall j: nat | j < i ensures NodeLaidOut(disk.files, args, libs, j, next) {
        LaidOutElsewhere(before, args, libs, i, GenTx(nodeDirName, memo), settings, j);
      }
    }
    NodesAreFunded(libs, args.numValidators);
    ok := true;
  }

  // The chain ID given, or a random one.
  ghost predicate NamesChain(args: InitArgs, libs: Libraries, chainID: string) {
    chainID == if args.chainID == "" then "chain-" + libs.randomID else args.chainID
  }

  /** The genesis that the nodes start from: of this chain, with the nodes' accounts and balances. */
  ghost predicate InitialDoc(args: InitArgs, libs: Libraries, doc: AppGenesis) {
    NamesChain(args, libs, doc.chainID)
    && exists accounts: seq<string>, balances: seq<Balance> :: NodesFund(libs, args.numValidators, accounts, balances)
                                    && StartsWith(doc, libs, doc.chainID, accounts, balances)
  }

  /** The genesis that they all end with: what node 0 collects from it. */
  ghost predicate FinalGenesis(args: InitArgs, libs: Libraries, doc: AppGenesis, genesis: AppGenesis) {
    libs.nodeID(0).Some? && CollectedFrom(genesis, args, libs, doc.chainID, libs.nodeID(0).value, doc)
  }

  lemma InitialIsInitialDoc(args: InitArgs, libs: Libraries)
    requires Initial(args, libs).Some?
    ensures InitialDoc(args, libs, Initial(args, libs).value)
  {
    var n := args.numValidators;
    InitialStartsWith(libs, ChainID(args, libs), Accounts(libs, n), NodeBalances(libs, n));
    NodesAreFunded(libs, n);
    hide InitialGenesis, NodesFund, StartsWith, Accounts, NodeBalances;
    assert StartsWith(Initial(args, libs).value, libs, ChainID(args, libs), Accounts(libs, n), NodeBalances(libs, n));
    assert Initial(args, libs).value.chainID == ChainID(args, libs) by {
      StartsWithChain(Initial(args, libs).value, libs, ChainID(args, libs), Accounts(libs, n), NodeBalances(libs, n));
    }
  }

  lemma StartsWithChain(doc: AppGenesis, libs: Libraries, chainID: string, accounts: seq<string>,
                        balances: seq<Balance>)
    requires StartsWith(doc, libs, chainID, accounts, balances)
    ensures doc.chainID == chainID
  {
  }

  /** The testnet is written out exactly when every node gets an address and keys, the accumulation of the supply does
      not panic, and collection succeeds for every node.  Then, for any number of nodes, each genesis file holds one and
      the same document, each memo says where its node listens, and each node with a directory of its own, or the last
      one to write to a shared directory, has its own settings.  When a node cannot be set up, nothing that can be
      removed is left under the output directory. */
  method InitTestnetFiles(disk: Disk, config: NodeConfig, args: InitArgs, libs: Libraries) returns (ok: bool)
    modifies disk, config
    ensures ok <==> NodesUsable(args, libs, args.numValidators) && Initial(args, libs).Some?
                    && Collectable(args, libs, ChainID(args, libs), NodeIDs(libs, args.numValidators),
                         Initial(args, libs).value, args.numValidators)
    ensures ok ==> forall i: nat :: i < args.numValidators ==>
              NodeLaidOut(disk.files, args, libs, i, args.numValidators)
    ensures ok && args.numValidators > 0 ==>
              exists doc, genesis :: InitialDoc(args, libs, doc) && FinalGenesis(args, libs, doc, genesis)
                && forall i: nat :: i < args.numValidators ==>
                     NodeCollected(disk.files, args, i, genesis, RPC_PORT, Port(args.singleMachine, P2P, 0))
    ensures !NodesUsable(args, libs, args.numValidators)
            && args.outputDir != "" && Split(args.outputDir)[|Split(args.outputDir)| - 1] != "." ==>
              forall p :: p in disk.files ==> !Under(args.outputDir, p)
  {
    hide HoldsGenesis, NodeConfigured, NodeLaidOut, Collectable, GenesisFile, AppToml, ConfigToml, GenTxFile, NodeDir,
      NodeDirName, InitialGenesis, Sort, IPOf, OwnDirs, Under;
    var chainID := if args.chainID == "" then "chain-" + libs.randomID else args.chainID;
    var laid, nodeIDs, genAccounts, genBalances, genFiles, p2pPortStart := LayOutNodes(disk, config, args, libs);
    if !laid {
      return false;
    }
    assert nodeIDs == NodeIDs(libs, args.numValidators);
    assert args.numValidators > 0 ==> libs.nodeID(0).Some? && nodeIDs[0] == libs.nodeID(0).value;
    ghost var laidOut := disk.files;
    var doc := InitGenFiles(disk, libs, chainID, genAccounts, genBalances, genFiles);
    if doc.None? {
      return false;
    }
    ghost var initialized := disk.files;
    assert AllHold(initialized, args, doc.value) by {
      FilesHold(initialized, args, genFiles, doc.value);
    }
    ok := CollectGenFiles(disk, config, args, libs, chainID, nodeIDs, RPC_PORT, p2pPortStart, doc.value);
    hide NodeCollected, Canonical, CollectedFrom, NodesFund, StartsWith;
    if ok && args.numValidators > 0 {
      InitialIsInitialDoc(args, libs);
      ghost var genesis := Canonical(args, libs, chainID, nodeIDs[0], doc.value);
      assert FinalGenesis(args, libs, doc.value, genesis.value) by {
        assert NamesChain(args, libs, doc.value.chainID);
      }
    }
    forall i: nat | i < args.numValidators ensures NodeLaidOut(disk.files, args, libs, i, args.numValidators) {
      LaidOutUntouched(laidOut, initialized, args, libs, i);
      LaidOutUntouched(initialized, disk.files, args, libs, i);
    }
  }

  /** Nodes with directories of their own all collect from the initial genesis. */
  lemma CollectableIff(args: InitArgs, libs: Libraries, chainID: string, nodeIDs: seq<string>, doc: AppGenesis)
    requires OwnDirs(args) && |nodeIDs| == args.numValidators
    ensures Collectable(args, libs, chainID, nodeIDs, doc, args.numValidators)
       <==> forall i: nat :: i < args.numValidators ==> libs.collect(doc, nodeIDs[i], Name(args, i)).Some?
  {
    hide StaysBelow, Split, NodeDirName;
    if forall i: nat :: i < args.numValidators ==> libs.collect(doc, nodeIDs[i], Name(args, i)).Some? {
      assert args.numValidators > 0 ==> libs.collect(doc, nodeIDs[0], Name(args, 0)).Some?;
    }
  }

  lemma FilesHold(files: map<Path, File>, args: InitArgs, genFiles: seq<Path>, doc: AppGenesis)
    requires |genFiles| == args.numValidators
    requires forall j :: 0 <= j < |genFiles| ==> genFiles[j] == GenesisFile(Dir(args, j))
    requires forall p :: p in genFiles ==> p in files && files[p] == GenesisDoc(doc)
    ensures AllHold(files, args, doc)
  {
    forall i: nat | i < args.numValidators ensures HoldsGenesis(files, args, i, doc) {
      assert genFiles[i] in genFiles;
    }
  }

  // ---------------------------------------------------------------- the supply of the testnet

  lemma NodeCoinsSorted(libs: Libraries, n: nat)
    ensures forall b :: b in NodeBalances(libs, n) ==> IsSorted(b.coins)
    ensures !IsSorted(UNSORTED_COINS)
  {
    SortSorts(UNSORTED_COINS);
  }

  lemma NodeAmounts()
    ensures Amount(Sort(UNSORTED_COINS), "stake") == 500_000_000
    ensures Amount(Sort(UNSORTED_COINS), "testtoken") == 1_000_000_000
  {
    var stake, test := UNSORTED_COINS[1], UNSORTED_COINS[0];
    assert stake.denom[0] != test.denom[0];
    assert UNSORTED_COINS[1..] == [stake];
    assert Sort([stake]) == [stake];
    assert Sort(UNSORTED_COINS) == [stake, test];
    assert [stake, test][1..] == [test] && [test][1..] == [];
    assert Amount([test], "stake") == 0 && Amount([test], "testtoken") == 1_000_000_000;
  }

  lemma {:induction false} NodeTotals(libs: Libraries, n: nat)
    ensures Total(NodeBalances(libs, n), "stake") == 500_000_000 * n
    ensures Total(NodeBalances(libs, n), "testtoken") == 1_000_000_000 * n
  {
    NodeAmounts();
    if n > 0 {
      NodeTotals(libs, n - 1);
      assert NodeBalances(libs, n)[..n - 1] == NodeBalances(libs, n - 1);
    }
  }

  /** However the balances are reordered on the way in, the initial genesis exists and its supply is the per-denom total
      of the nodes' coins.  It needs the sort: with the coins as first written down, the accumulation panics. */
  lemma InitialSupply(args: InitArgs, libs: Libraries)
    requires forall bs :: multiset(libs.sanitize(bs)) == multiset(bs)
    ensures Initial(args, libs).Some?
    ensures var supply := Initial(args, libs).value.appState.supply;
            Valid(supply) && Amount(supply, "stake") == 500_000_000 * args.numValidators
            && Amount(supply, "testtoken") == 1_000_000_000 * args.numValidators
    ensures forall b: Balance, bs :: b in bs && b.coins == UNSORTED_COINS ==> Supply(bs).None?
  {
    var balances := NodeBalances(libs, args.numValidators);
    NodeCoinsSorted(libs, args.numValidators);
    NodeTotals(libs, args.numValidators);
    SupplyIsTotal(balances);
    SupplyIgnoresOrder(libs.sanitize(balances), balances);
    forall b: Balance, bs | b in bs && b.coins == UNSORTED_COINS ensures Supply(bs).None? {
      SupplyIsTotal(bs);
    }
  }

  lemma NodeCoinAmounts(coins: seq<Coin>)
    requires NodeCoins(coins)
    ensures Amount(coins, "stake") == 500_000_000 && Amount(coins, "testtoken") == 1_000_000_000
  {
    var stake, test := Coin("stake", 500_000_000), Coin("testtoken", 1_000_000_000);
    var m := multiset(coins);
    assert m == multiset{test, stake};
    assert |coins| == |m| == 2;
    assert coins[0] in m && coins[1] in m;
    assert coins == [coins[0], coins[1]];
    assert coins[0] == coins[1] ==> m[coins[0]] == 2;
    assert stake.denom[0] != test.denom[0];
    TwoAmounts(coins, "stake");
    TwoAmounts(coins, "testtoken");
  }

  lemma TwoAmounts(coins: seq<Coin>, d: string)
    requires |coins| == 2
    ensures Amount(coins, d) == (if coins[0].denom == d then coins[0].amount else 0)
                              + (if coins[1].denom == d then coins[1].amount else 0)
  {
    assert coins[1..] == [coins[1]] && coins[1..][1..] == [];
    assert Amount(coins[1..][1..], d) == 0;
    assert Amount(coins[1..], d) == if coins[1].denom == d then coins[1].amount else 0;
  }

  /** In the genesis that the nodes start from every node's account holds its own coins, if the accounts are distinct
      and the library only reorders the balances. */
  lemma NodesHoldTheirCoins(args: InitArgs, libs: Libraries, doc: AppGenesis, i: nat)
    requires InitialDoc(args, libs, doc) && i < args.numValidators
    requires forall bs :: multiset(libs.sanitize(bs)) == multiset(bs)
    requires forall j, k :: 0 <= j < k < args.numValidators ==> libs.account(j) != libs.account(k)
    ensures |doc.appState.accounts| == args.numValidators && doc.appState.accounts[i] == libs.account(i)
    ensures Held(doc.appState.balances, libs.account(i), "stake") == 500_000_000
    ensures Held(doc.appState.balances, libs.account(i), "testtoken") == 1_000_000_000
  {
    var accounts: seq<string>, balances: seq<Balance> :| NodesFund(libs, args.numValidators, accounts, balances)
                              && StartsWith(doc, libs, doc.chainID, accounts, balances);
    NodeCoinAmounts(balances[i].coins);
    hide Held, Amount, NodeCoins;
    HeldIgnoresOrder(doc.appState.balances, balances, libs.account(i), "stake");
    HeldIgnoresOrder(doc.appState.balances, balances, libs.account(i), "testtoken");
    forall j | 0 <= j < |balances| && j != i ensures balances[j].address != balances[i].address {
      assert balances[j].address == libs.account(j);
    }
    HeldOnce(balances, i, "stake");
    HeldOnce(balances, i, "testtoken");
  }

  function MemoOf(files: map<Path, File>, args: InitArgs, i: nat): Option<Memo> {
    var p := GenTxFile(args.outputDir, Name(args, i));
    if p in files && files[p].GenTx? then Some(files[p].memo) else None
  }

  /** What the files of node `i` say: its own name and ID, the ports of its services, and in its memo the P2P port its
      settings make it listen on. */
  lemma MemoMatchesSettings(files: map<Path, File>, args: InitArgs, libs: Libraries, i: nat)
    requires NodeLaidOut(files, args, libs, i, args.numValidators) && LastInDir(args, i, args.numValidators)
    requires NodeConfigured(files, args, i, RPC_PORT, Port(args.singleMachine, P2P, 0))
    ensures var offset, dir := if args.singleMachine then i else 0, Dir(args, i);
            var p2p := (if args.singleMachine then 16656 else 26656) + offset;
            && files[ConfigToml(dir)] == NodeSettings(args.nodeDirPrefix + Decimal(i), 26657 + offset, p2p)
            && AppToml(dir) in files && files[AppToml(dir)] == AppSettings(1317 + offset, 9090 + offset)
            && libs.nodeID(i).Some? && MemoOf(files, args, i).Some?
            && files[GenTxFile(args.outputDir, Name(args, i))].moniker == args.nodeDirPrefix + Decimal(i)
            && MemoOf(files, args, i).value.nodeID == libs.nodeID(i).value && MemoOf(files, args, i).value.port == p2p
  {
    hide ConfigToml, AppToml, GenTxFile, NodeDir, IPOf;
  }

  /** The address in a memo: this host's own, or the starting one with the index added to its last byte. */
  lemma MemoAddress(files: map<Path, File>, args: InitArgs, libs: Libraries, i: nat)
    requires MemoWritten(files, args, libs, i)
    ensures MemoOf(files, args, i).Some?
    ensures var ip := MemoOf(files, args, i).value.ip;
            match args.startingIP
            case Unset(external) => external == Some(ip)
            case Given(parsed) =>
              && parsed.Some? && ip.a == parsed.value.a && ip.b == parsed.value.b && ip.c == parsed.value.c
              && ip.d as int == (parsed.value.d as int + i) % 256
  {
    hide GenTxFile, NodeDirName;
  }

  ghost predicate PeersDistinct(files: map<Path, File>, args: InitArgs)
    requires forall i: nat :: i < args.numValidators ==> MemoOf(files, args, i).Some?
  {
    forall i: nat, j: nat :: i < j < args.numValidators ==>
      var x, y := MemoOf(files, args, i).value, MemoOf(files, args, j).value; (x.ip, x.port) != (y.ip, y.port)
  }

  /** No two memos name the same peer: always on one host; on separate hosts exactly up to 256 nodes from a starting
      address, and only for a single node when none is given and all memos carry this host's own. */
  lemma PeersDistinctIff(files: map<Path, File>, args: InitArgs, libs: Libraries)
    requires forall i: nat :: i < args.numValidators ==> MemoWritten(files, args, libs, i)
    ensures forall i: nat :: i < args.numValidators ==> MemoOf(files, args, i).Some?
    ensures PeersDistinct(files, args)
       <==> args.singleMachine || args.numValidators <= (if args.startingIP.Given? then 256 else 1)
  {
    forall i: nat | i < args.numValidators
      ensures MemoOf(files, args, i).Some? && IPOf(args.startingIP, i).Some?
      ensures var m := MemoOf(files, args, i).value;
              (m.ip, m.port) == (IPOf(args.startingIP, i).value, Port(args.singleMachine, P2P, i))
    {
      assert MemoWritten(files, args, libs, i);
      hide GenTxFile, NodeDirName, IPOf;
    }
    hide MemoWritten, MemoOf, GenTxFile;
    if args.numValidators > 0 {
      assert MemoOf(files, args, 0).Some? && IPOf(args.startingIP, 0).Some?;
      if args.startingIP.Given? {
        var start := args.startingIP.parsed.value;
        forall i: nat | i < args.numValidators
          ensures var m := MemoOf(files, args, i).value; (m.ip, m.port) == Endpoint(args.singleMachine, start, i) {
        }
        EndpointsDistinct(args.singleMachine, start, args.numValidators);
        hide Endpoint;
      } else if !args.singleMachine && args.numValidators > 1 {
        assert MemoOf(files, args, 0).value.ip == MemoOf(files, args, 1).value.ip;
      }
    }
  }
}
