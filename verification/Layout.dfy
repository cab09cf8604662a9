/** Names, paths, ports and addresses of the testnet's nodes, in closed form. */
module Layout {
  import opened Results

  // ---------------------------------------------------------------- decimal names

  function Digit(n: nat): char
    requires n < 10
  {
    "0123456789"[n]
  }

  /** `%d` */
  function Decimal(n: nat): string {
    if n < 10 then [Digit(n)] else Decimal(n / 10) + [Digit(n % 10)]
  }

  lemma {:induction false} DecimalInjective(a: nat, b: nat)
    requires Decimal(a) == Decimal(b)
    ensures a == b
  {
    var s, t := Decimal(a), Decimal(b);
    assert s[|s| - 1] == Digit(a % 10) && t[|t| - 1] == Digit(b % 10);
    DecimalLength(a);
    DecimalLength(b);
    if a >= 10 && b >= 10 {
      assert s[..|s| - 1] == Decimal(a / 10) && t[..|t| - 1] == Decimal(b / 10);
      DecimalInjective(a / 10, b / 10);
    }
  }

  /** What a string of digits means. */
  function Value(s: string): nat {
    if s == "" then 0
    else 10 * Value(s[..|s| - 1])
         + if '0' <= s[|s| - 1] <= '9' then s[|s| - 1] as int - '0' as int else 0
  }

  /** The decimal form is read back as the number; it has digits only, and no leading zero. */
  lemma {:induction false} DecimalRoundTrip(n: nat)
    ensures Value(Decimal(n)) == n && Decimal(n) != ""
    ensures (forall c :: c in Decimal(n) ==> '0' <= c <= '9') && (Decimal(n)[0] == '0' ==> Decimal(n) == "0")
  {
    var s := Decimal(n);
    DigitMeans(n % 10);
    if n < 10 {
      assert s[..|s| - 1] == "";
    } else {
      assert s[..|s| - 1] == Decimal(n / 10);
      DecimalRoundTrip(n / 10);
      DecimalLength(n / 10);
      assert Decimal(n / 10) == "0" ==> Value("0") == 0 by {
        assert "0"[..0] == "";
      }
    }
  }

  lemma DigitMeans(n: nat)
    requires n < 10
    ensures '0' <= Digit(n) <= '9' && Digit(n) as int == '0' as int + n
    ensures n > 0 ==> Digit(n) != '0'
  {
  }

  lemma {:induction false} DecimalLength(n: nat)
    ensures |Decimal(n)| >= 1 && (|Decimal(n)| == 1 <==> n < 10)
  {
    if n >= 10 {
      DecimalLength(n / 10);
    }
  }

  // ---------------------------------------------------------------- cleaned paths

  type Parts = seq<string>

  predicate Plain(c: string) {
    c !in {"", ".", ".."}
  }

  /** One more component on a path already cleaned. */
  function Descend(rooted: bool, path: Parts, c: string): Parts {
    if Plain(c) then path + [c]
    else if c != ".." then path
    else if path != [] && path[|path| - 1] != ".." then path[..|path| - 1]
    else if rooted then path
    else path + [c]
  }

  /** The components of a joined path, as cleaning leaves them. */
  function Clean(rooted: bool, cs: Parts): Parts {
    if cs == [] then [] else Descend(rooted, Clean(rooted, cs[..|cs| - 1]), cs[|cs| - 1])
  }

  function Level(c: string): int {
    if Plain(c) then 1 else if c == ".." then -1 else 0
  }

  /** No empty component and no dot; two dots stand only in front, and not below the root. */
  predicate Tidy(rooted: bool, p: Parts) {
    && (forall i :: 0 <= i < |p| ==> p[i] != "" && p[i] != ".")
    && (forall i, j :: 0 <= j <= i < |p| && p[i] == ".." ==> !rooted && p[j] == "..")
  }

  lemma DescendIsTidy(rooted: bool, path: Parts, c: string)
    requires Tidy(rooted, path)
    ensures Tidy(rooted, Descend(rooted, path, c))
    ensures Tidy(rooted, path + [c]) ==> Descend(rooted, path, c) == path + [c]
  {
    if Tidy(rooted, path + [c]) {
      assert (path + [c])[|path|] == c;
      assert c == ".." && path != [] ==> (path + [c])[|path| - 1] == "..";
    }
  }

  /** Cleaning tidies, and leaves a tidy path as it is. */
  lemma {:induction false} CleanTidies(rooted: bool, cs: Parts)
    ensures Tidy(rooted, Clean(rooted, cs))
    ensures Tidy(rooted, cs) ==> Clean(rooted, cs) == cs
  {
    if cs != [] {
      hide Descend;
      var init, c := cs[..|cs| - 1], cs[|cs| - 1];
      assert cs == init + [c];
      CleanTidies(rooted, init);
      DescendIsTidy(rooted, Clean(rooted, init), c);
    }
  }

  /** How far a path leads below where it is taken from. */
  function Depth(cs: Parts): int {
    if cs == [] then 0 else Depth(cs[..|cs| - 1]) + Level(cs[|cs| - 1])
  }

  /** At no point does the path lead above where it is taken from. */
  predicate StaysBelow(cs: Parts) {
    forall k :: 0 <= k <= |cs| ==> Depth(cs[..k]) >= 0
  }

  lemma StaysBelowSnoc(cs: Parts, c: string)
    ensures StaysBelow(cs + [c]) <==> StaysBelow(cs) && Depth(cs + [c]) >= 0
  {
    var all := cs + [c];
    assert all[..|cs| + 1] == all;
    assert forall k :: 0 <= k <= |cs| ==> all[..k] == cs[..k];
  }

  lemma CleanSnoc(rooted: bool, cs: Parts, c: string)
    ensures Clean(rooted, cs + [c]) == Descend(rooted, Clean(rooted, cs), c)
    ensures Depth(cs + [c]) == Depth(cs) + Level(c)
  {
    hide Descend, Level;
    assert (cs + [c])[..|cs|] == cs;
  }

  lemma DescendBelow(rooted: bool, base: Parts, name: string, tail: Parts, c: string)
    requires Plain(name) && ".." !in tail && |tail| + Level(c) >= 0
    ensures Descend(rooted, base + [name] + tail, c) == base + [name] + Descend(rooted, tail, c)
    ensures ".." !in Descend(rooted, tail, c) && |Descend(rooted, tail, c)| == |tail| + Level(c)
  {
    var path := base + [name] + tail;
    if c == ".." {
      assert path[|path| - 1] == tail[|tail| - 1];
      assert path[..|path| - 1] == base + [name] + tail[..|tail| - 1];
    } else if Plain(c) {
      assert path + [c] == base + [name] + (tail + [c]);
    }
  }

  lemma DescendAbove(rooted: bool, base: Parts, name: string, c: string)
    requires Plain(name) && Level(c) < 0
    ensures Descend(rooted, base + [name] + [], c) == base
  {
    assert base + [name] + [] == base + [name] && (base + [name])[..|base|] == base;
  }

  /** Below a plain name such a path is cleaned by itself. */
  lemma {:induction false} CleanBelow(rooted: bool, o: Parts, name: string, cs: Parts)
    requires Plain(name) && StaysBelow(cs)
    ensures Clean(rooted, o + [name] + cs) == Clean(rooted, o) + [name] + Clean(rooted, cs)
    ensures |Clean(rooted, cs)| == Depth(cs) && ".." !in Clean(rooted, cs)
  {
    if cs == [] {
      hide Plain, StaysBelow;
      CleanSnoc(rooted, o, name);
      assert o + [name] + cs == o + [name];
      assert Descend(rooted, Clean(rooted, o), name) == Clean(rooted, o) + [name];
    } else {
      hide *;
      var init, c := cs[..|cs| - 1], cs[|cs| - 1];
      assert cs == init + [c] && o + [name] + cs == o + [name] + init + [c];
      StaysBelowSnoc(init, c);
      CleanBelow(rooted, o, name, init);
      CleanSnoc(rooted, init, c);
      CleanSnoc(rooted, o + [name] + init, c);
      DescendBelow(rooted, Clean(rooted, o), name, Clean(rooted, init), c);
    }
  }

  /** A path that leads above the name forgets it. */
  lemma {:induction false} CleanForgets(rooted: bool, o: Parts, x: string, y: string, cs: Parts)
    requires Plain(x) && Plain(y) && !StaysBelow(cs)
    ensures Clean(rooted, o + [x] + cs) == Clean(rooted, o + [y] + cs)
  {
    hide *;
    if cs == [] {
      NowhereStaysBelow();
    } else {
      var init, c := cs[..|cs| - 1], cs[|cs| - 1];
      assert cs == init + [c] && o + [x] + cs == o + [x] + init + [c] && o + [y] + cs == o + [y] + init + [c];
      StaysBelowSnoc(init, c);
      CleanSnoc(rooted, init, c);
      CleanSnoc(rooted, o + [x] + init, c);
      CleanSnoc(rooted, o + [y] + init, c);
      if StaysBelow(init) {
        CleanBelow(rooted, o, x, init);
        CleanBelow(rooted, o, y, init);
        LevelAtLeast(c);
        assert Clean(rooted, init) == [];
        DescendAbove(rooted, Clean(rooted, o), x, c);
        DescendAbove(rooted, Clean(rooted, o), y, c);
      } else {
        CleanForgets(rooted, o, x, y, init);
      }
    }
  }

  lemma NowhereStaysBelow()
    ensures StaysBelow([])
  {
  }

  lemma LevelAtLeast(c: string)
    ensures Level(c) >= -1
  {
  }

  // ---------------------------------------------------------------- joined paths

  /** The components of a string. */
  function Split(s: string): (parts: Parts)
    ensures parts != []
  {
    if s == "" then [""] else
    var init, c := Split(s[..|s| - 1]), s[|s| - 1];
    if c == '/' then init + [""] else init[..|init| - 1] + [init[|init| - 1] + [c]]
  }

  /** The components joined by slashes. */
  function Unsplit(parts: Parts): string {
    if |parts| == 0 then "" else if |parts| == 1 then parts[0]
    else Unsplit(parts[..|parts| - 1]) + "/" + parts[|parts| - 1]
  }

  lemma UnsplitLast(parts: Parts, last: string)
    ensures Unsplit(parts + [last]) == if parts == [] then last else Unsplit(parts) + "/" + last
  {
    assert (parts + [last])[..|parts|] == parts;
  }

  lemma UnsplitEmpty(parts: Parts)
    requires parts != []
    ensures Unsplit(parts + [""]) == Unsplit(parts) + "/"
  {
    hide Unsplit;
    UnsplitLast(parts, "");
    assert Unsplit(parts) + "/" + "" == Unsplit(parts) + "/";
  }

  lemma AppendChar(a: string, b: string, c: char)
    ensures a + "/" + (b + [c]) == a + "/" + b + [c]
  {
  }

  lemma UnsplitGrow(init: Parts, last: string, c: char)
    ensures Unsplit(init + [last + [c]]) == Unsplit(init + [last]) + [c]
  {
    hide Unsplit;
    UnsplitLast(init, last);
    UnsplitLast(init, last + [c]);
    if init != [] {
      AppendChar(Unsplit(init), last, c);
    }
  }

  /** Splitting loses nothing ... */
  lemma {:induction false} SplitRoundTrip(s: string)
    ensures Unsplit(Split(s)) == s
  {
    if s == "" {
      assert Split(s) == [""];
    } else {
      hide Unsplit, Split;
      var init, c := s[..|s| - 1], s[|s| - 1];
      SplitRoundTrip(init);
      var parts := Split(init);
      if c == '/' {
        UnsplitEmpty(parts);
        assert Split(init + "/") == parts + [""] by { SplitSnoc(init, '/'); }
        assert s == init + "/";
      } else {
        var front, last := parts[..|parts| - 1], parts[|parts| - 1];
        assert parts == front + [last];
        UnsplitGrow(front, last, c);
        assert Split(init + [c]) == front + [last + [c]] by { SplitSnoc(init, c); }
        assert s == init + [c];
      }
    }
  }

  /** ... and leaves no slash. */
  lemma {:induction false} SplitLeavesNoSlash(s: string)
    ensures forall p :: p in Split(s) ==> '/' !in p
  {
    if s != "" {
      SplitLeavesNoSlash(s[..|s| - 1]);
    }
  }

  lemma SplitSnoc(s: string, c: char)
    ensures var init := Split(s);
            Split(s + [c]) == if c == '/' then init + [""] else init[..|init| - 1] + [init[|init| - 1] + [c]]
  {
    assert (s + [c])[..|s|] == s;
  }

  /** What is appended without a slash goes to the last component. */
  lemma {:induction false} SplitAppend(s: string, t: string)
    requires '/' !in t
    ensures Split(s + t) == Split(s)[..|Split(s)| - 1] + [Split(s)[|Split(s)| - 1] + t]
  {
    hide Split;
    var parts := Split(s);
    if t == "" {
      assert s + t == s && parts[|parts| - 1] + t == parts[|parts| - 1];
    } else {
      var init, c := t[..|t| - 1], t[|t| - 1];
      SplitAppend(s, init);
      SplitSnoc(s + init, c);
      assert s + t == s + init + [c] && parts[|parts| - 1] + t == parts[|parts| - 1] + init + [c];
    }
  }

  datatype Path = Path(rooted: bool, parts: Parts)

  /** The first element that is not empty decides whether a joined path is rooted. */
  function Rooted(elems: seq<string>): bool {
    if elems == [] then false
    else if elems[0] == "" then Rooted(elems[1..])
    else elems[0][0] == '/'
  }

  function SplitAll(elems: seq<string>): Parts {
    if elems == [] then [] else Split(elems[0]) + SplitAll(elems[1..])
  }

  /** `filepath.Join` */
  function Join(elems: seq<string>): Path {
    Path(Rooted(elems), Clean(Rooted(elems), SplitAll(elems)))
  }

  function NodeDirName(prefix: string, i: nat): string {
    prefix + Decimal(i)
  }

  function NodeDir(outputDir: string, prefix: string, home: string, i: nat): Path {
    Join([outputDir, NodeDirName(prefix, i), home])
  }

  function Config(root: Path, name: string): Path {
    root.(parts := root.parts + ["config", name])
  }

  function GenesisFile(root: Path): Path {
    Config(root, "genesis.json")
  }

  function ConfigToml(root: Path): Path {
    Config(root, "config.toml")
  }

  function AppToml(root: Path): Path {
    Config(root, "app.toml")
  }

  function GenTxFile(outputDir: string, name: string): Path {
    Join([outputDir, "gentxs", name + ".json"])
  }

  lemma NamesDiffer(prefix: string, i: nat, j: nat)
    requires i != j
    ensures NodeDirName(prefix, i) != NodeDirName(prefix, j)
  {
    if NodeDirName(prefix, i) == NodeDirName(prefix, j) {
      assert NodeDirName(prefix, i)[|prefix|..] == Decimal(i) && NodeDirName(prefix, j)[|prefix|..] == Decimal(j);
      DecimalInjective(i, j);
    }
  }

  lemma EndsInDigit(prefix: string, i: nat)
    ensures var name := NodeDirName(prefix, i); name != "" && name[|name| - 1] == Digit(i % 10)
  {
    DecimalLength(i);
    assert Decimal(i)[|Decimal(i)| - 1] == Digit(i % 10);
  }

  lemma NamesArePlain(prefix: string, i: nat)
    ensures Plain(NodeDirName(prefix, i))
  {
    EndsInDigit(prefix, i);
  }

  lemma {:induction false} DecimalHasNoSlash(n: nat)
    ensures '/' !in Decimal(n)
  {
    if n >= 10 {
      DecimalHasNoSlash(n / 10);
    }
  }

  lemma JoinThree(a: string, b: string, c: string)
    ensures var p := Join([a, b, c]);
            && p.rooted == (if a != "" then a[0] == '/' else if b != "" then b[0] == '/' else c != "" && c[0] == '/')
            && p.parts == Clean(p.rooted, Split(a) + Split(b) + Split(c))
  {
    hide Split, Clean;
    assert [a, b, c][1..] == [b, c] && [b, c][1..] == [c] && [c][1..] == [];
    assert SplitAll([c]) == Split(c);
    assert SplitAll([b, c]) == Split(b) + Split(c);
    assert SplitAll([a, b, c]) == Split(a) + (Split(b) + Split(c)) == Split(a) + Split(b) + Split(c);
    assert Rooted([c]) == (c != "" && c[0] == '/');
    assert Rooted([b, c]) == if b != "" then b[0] == '/' else Rooted([c]);
  }

  lemma SplitsToItself(s: string)
    requires '/' !in s
    ensures Split(s) == [s]
  {
    SplitAppend("", s);
    assert Split("") == [""] && "" + s == s;
  }

  /** The files of the layout, component by component, before cleaning. */
  lemma LayoutPaths(o: string, prefix: string, home: string, i: nat)
    ensures var dir := NodeDir(o, prefix, home, i);
            && dir.rooted == (if o != "" then o[0] == '/' else prefix != "" && prefix[0] == '/')
            && dir.parts == Clean(dir.rooted, Split(o) + Split(prefix + Decimal(i)) + Split(home))
            && GenesisFile(dir) == Path(dir.rooted, dir.parts + ["config", "genesis.json"])
            && ConfigToml(dir) == Path(dir.rooted, dir.parts + ["config", "config.toml"])
            && AppToml(dir) == Path(dir.rooted, dir.parts + ["config", "app.toml"])
    ensures var p := GenTxFile(o, prefix + Decimal(i));
            && p.rooted == (o != "" && o[0] == '/')
            && p.parts == Clean(p.rooted, Split(o) + ["gentxs"] + Split(prefix + Decimal(i) + ".json"))
  {
    hide Split, Clean, Rooted, SplitAll, Decimal;
    NodeDirRooted(o, prefix, home, i);
    JoinThree(o, prefix + Decimal(i), home);
    JoinThree(o, "gentxs", prefix + Decimal(i) + ".json");
    assert "gentxs"[0] == 'g';
    SplitsToItself("gentxs");
  }

  // The directories above a node's own name, and the start of that name, after the prefix's last slash.
  function Above(outputDir: string, prefix: string): Parts {
    Split(outputDir) + Split(prefix)[..|Split(prefix)| - 1]
  }

  function Stem(prefix: string): string {
    Split(prefix)[|Split(prefix)| - 1]
  }

  function RootedDir(outputDir: string, prefix: string): bool {
    if outputDir != "" then outputDir[0] == '/' else prefix != "" && prefix[0] == '/'
  }

  lemma NodeDirRooted(o: string, prefix: string, home: string, i: nat)
    ensures Rooted([o, NodeDirName(prefix, i), home]) == RootedDir(o, prefix)
  {
    var elems, name := [o, NodeDirName(prefix, i), home], NodeDirName(prefix, i);
    assert elems[1..] == [name, home] && [name, home][1..] == [home];
    DecimalLength(i);
    DecimalHasNoSlash(i);
    if prefix == "" {
      assert name == Decimal(i) && Decimal(i)[0] in Decimal(i);
    } else {
      assert name[0] == prefix[0];
    }
  }

  lemma NodeDirParts(o: string, prefix: string, home: string, i: nat)
    ensures SplitAll([o, NodeDirName(prefix, i), home])
         == Above(o, prefix) + [NodeDirName(Stem(prefix), i)] + Split(home)
  {
    hide Split, Decimal;
    var name := NodeDirName(prefix, i);
    assert [o, name, home][1..] == [name, home] && [name, home][1..] == [home] && [home][1..] == [];
    DecimalHasNoSlash(i);
    SplitAppend(prefix, Decimal(i));
    assert SplitAll([home]) == Split(home);
    assert SplitAll([name, home]) == Split(name) + Split(home);
    assert Split(name) == Split(prefix)[..|Split(prefix)| - 1] + [NodeDirName(Stem(prefix), i)];
  }

  /** Two nodes have directories of their own, and with them files of each kind, if and only if the daemon home never
      leads above the node's directory. */
  lemma PathsDiffer(o: string, prefix: string, home: string, i: nat, j: nat)
    requires i != j
    ensures var a, b := NodeDir(o, prefix, home, i), NodeDir(o, prefix, home, j);
            && (a != b <==> StaysBelow(Split(home)))
            && (GenesisFile(a) != GenesisFile(b) <==> StaysBelow(Split(home)))
            && (ConfigToml(a) != ConfigToml(b) <==> StaysBelow(Split(home)))
            && (AppToml(a) != AppToml(b) <==> StaysBelow(Split(home)))
  {
    var a, b := NodeDir(o, prefix, home, i), NodeDir(o, prefix, home, j);
    hide NodeDirName, Split, Plain, Clean, StaysBelow, Above, Stem;
    NodeDirRooted(o, prefix, home, i);
    NodeDirRooted(o, prefix, home, j);
    NodeDirParts(o, prefix, home, i);
    NodeDirParts(o, prefix, home, j);
    CleanedDiffer(a.rooted, Above(o, prefix), Stem(prefix), Split(home), i, j);
    ConfigDiffers(a, b, "genesis.json");
    ConfigDiffers(a, b, "config.toml");
    ConfigDiffers(a, b, "app.toml");
  }

  lemma ConfigDiffers(a: Path, b: Path, name: string)
    ensures Config(a, name) == Config(b, name) <==> a == b
  {
    assert (a.parts + ["config", name])[..|a.parts|] == a.parts;
    assert (b.parts + ["config", name])[..|b.parts|] == b.parts;
  }

  lemma CleanedDiffer(rooted: bool, o: Parts, stem: string, home: Parts, i: nat, j: nat)
    requires i != j
    ensures Clean(rooted, o + [NodeDirName(stem, i)] + home) != Clean(rooted, o + [NodeDirName(stem, j)] + home)
       <==> StaysBelow(home)
  {
    hide Clean, NodeDirName, Plain;
    var x, y := NodeDirName(stem, i), NodeDirName(stem, j);
    NamesArePlain(stem, i);
    NamesArePlain(stem, j);
    if StaysBelow(home) {
      NamesDiffer(stem, i, j);
      CleanBelow(rooted, o, x, home);
      CleanBelow(rooted, o, y, home);
      var at := |Clean(rooted, o)|;
      assert (Clean(rooted, o) + [x] + Clean(rooted, home))[at] == x;
      assert (Clean(rooted, o) + [y] + Clean(rooted, home))[at] == y;
    } else {
      CleanForgets(rooted, o, x, y, home);
    }
  }

  lemma GenTxSplit(o: string, prefix: string, i: nat)
    ensures SplitAll([o, "gentxs", NodeDirName(prefix, i) + ".json"])
         == Split(o) + Split("gentxs") + Split(prefix)[..|Split(prefix)| - 1] + [NodeDirName(Stem(prefix), i) + ".json"]
  {
    hide Split, Decimal;
    var name := NodeDirName(prefix, i) + ".json";
    var elems := [o, "gentxs", name];
    assert elems[1..] == ["gentxs", name] && ["gentxs", name][1..] == [name] && [name][1..] == [];
    DecimalHasNoSlash(i);
    assert name == prefix + (Decimal(i) + ".json");
    SplitAppend(prefix, Decimal(i) + ".json");
    var last := NodeDirName(Stem(prefix), i) + ".json";
    assert Stem(prefix) + (Decimal(i) + ".json") == last;
    assert SplitAll([name]) == Split(name);
    assert SplitAll(["gentxs", name]) == Split("gentxs") + Split(name);
    assert Split(name) == Split(prefix)[..|Split(prefix)| - 1] + [last];
  }

  lemma JsonIsPlain(name: string)
    ensures Plain(name + ".json")
  {
    assert (name + ".json")[|name| + 4] == 'n';
  }

  /** The genesis transactions lie side by side whatever the daemon home is. */
  lemma GenTxParts(o: string, prefix: string, i: nat)
    ensures var parts := GenTxFile(o, NodeDirName(prefix, i)).parts;
            parts != [] && parts[|parts| - 1] == NodeDirName(Stem(prefix), i) + ".json"
  {
    hide Split, SplitAll, Rooted, Plain, Clean, Descend, NodeDirName, Stem;
    var rooted := GenTxFile(o, NodeDirName(prefix, i)).rooted;
    var dirs := Split(o) + Split("gentxs") + Split(prefix)[..|Split(prefix)| - 1];
    var last := NodeDirName(Stem(prefix), i) + ".json";
    GenTxSplit(o, prefix, i);
    JsonIsPlain(NodeDirName(Stem(prefix), i));
    CleanSnoc(rooted, dirs, last);
    PlainAppends(rooted, Clean(rooted, dirs), last);
    assert GenTxFile(o, NodeDirName(prefix, i)).parts == Clean(rooted, dirs) + [last];
  }

  lemma PlainAppends(rooted: bool, path: Parts, c: string)
    requires Plain(c)
    ensures Descend(rooted, path, c) == path + [c]
  {
  }

  lemma GenTxsDiffer(o: string, prefix: string, i: nat, j: nat)
    requires i != j
    ensures GenTxFile(o, NodeDirName(prefix, i)) != GenTxFile(o, NodeDirName(prefix, j))
  {
    hide GenTxFile, Stem;
    GenTxParts(o, prefix, i);
    GenTxParts(o, prefix, j);
    NamesDiffer(Stem(prefix), i, j);
    var x, y := NodeDirName(Stem(prefix), i), NodeDirName(Stem(prefix), j);
    assert (x + ".json")[..|x|] == x && (y + ".json")[..|y|] == y;
  }

  lemma LastOfConfigs(a: Path)
    ensures Last(GenesisFile(a)) == "genesis.json"
    ensures Last(ConfigToml(a)) == "config.toml"
    ensures Last(AppToml(a)) == "app.toml"
  {
  }

  lemma FixedNamesDiffer(prefix: string, i: nat)
    ensures "genesis.json" != "config.toml" && "genesis.json" != "app.toml" && "config.toml" != "app.toml"
    ensures NodeDirName(prefix, i) + ".json" !in {"genesis.json", "config.toml", "app.toml"}
  {
    assert "genesis.json"[0] == 'g' && "config.toml"[0] == 'c' && "app.toml"[0] == 'a';
    EndsInDigit(prefix, i);
    hide NodeDirName;
    var name := NodeDirName(prefix, i);
    var last := name + ".json";
    assert last[|last| - 6] == Digit(i % 10) && "genesis.json"[6] == 's';
    assert last[|last| - 1] == 'n' && "config.toml"[10] == 'l' && "app.toml"[7] == 'l';
  }

  /** No two files of different kinds share a path. */
  lemma KindsDiffer(a: Path, b: Path, o: string, prefix: string, i: nat)
    ensures GenesisFile(a) != ConfigToml(b) && GenesisFile(a) != AppToml(b) && ConfigToml(a) != AppToml(b)
    ensures GenTxFile(o, NodeDirName(prefix, i)) !in {GenesisFile(a), ConfigToml(a), AppToml(a)}
  {
    hide GenTxFile, Stem, NodeDirName, Config;
    FixedNamesDiffer(Stem(prefix), i);
    GenTxParts(o, prefix, i);
    LastOfConfigs(a);
    LastOfConfigs(b);
  }

  function Last(path: Path): string {
    if path.parts == [] then "" else path.parts[|path.parts| - 1]
  }

  /** Nodes have directories of their own if and only if there is only one, or the daemon home never leads above the
      node's directory. */
  lemma DirsDistinctIff(o: string, prefix: string, home: string, n: nat)
    ensures (forall i: nat, j: nat :: i < j < n ==> NodeDir(o, prefix, home, i) != NodeDir(o, prefix, home, j))
       <==> n <= 1 || StaysBelow(Split(home))
  {
    hide NodeDir, StaysBelow, Split;
    forall i: nat, j: nat | i < j
      ensures NodeDir(o, prefix, home, i) != NodeDir(o, prefix, home, j) <==> StaysBelow(Split(home)) {
      PathsDiffer(o, prefix, home, i, j);
    }
    if n > 1 && !StaysBelow(Split(home)) {
      assert NodeDir(o, prefix, home, 0) == NodeDir(o, prefix, home, 1);
    }
  }

  // ---------------------------------------------------------------- below a directory

  /** The path is `dir`, or a path below it. */
  predicate Under(dir: string, p: Path) {
    p.rooted == Join([dir]).rooted && Join([dir]).parts <= p.parts
  }

  lemma {:induction false} CleanPrefix(rooted: bool, o: Parts, cs: Parts)
    requires StaysBelow(cs)
    ensures Clean(rooted, o) <= Clean(rooted, o + cs)
    ensures |Clean(rooted, o + cs)| == |Clean(rooted, o)| + Depth(cs)
    ensures ".." !in Clean(rooted, o + cs)[|Clean(rooted, o)|..]
  {
    hide *;
    if cs == [] {
      assert o + cs == o;
      DepthOfNothing();
    } else {
      var init, c := cs[..|cs| - 1], cs[|cs| - 1];
      assert cs == init + [c] && o + cs == o + init + [c];
      StaysBelowSnoc(init, c);
      CleanPrefix(rooted, o, init);
      CleanSnoc(rooted, init, c);
      CleanSnoc(rooted, o + init, c);
      DescendUnder(rooted, Clean(rooted, o), Clean(rooted, o + init), c);
    }
  }

  lemma DepthOfNothing()
    ensures Depth([]) == 0
  {
  }

  lemma DescendUnder(rooted: bool, base: Parts, path: Parts, c: string)
    requires base <= path && ".." !in path[|base|..] && |path| - |base| + Level(c) >= 0
    ensures base <= Descend(rooted, path, c) && ".." !in Descend(rooted, path, c)[|base|..]
    ensures |Descend(rooted, path, c)| == |path| + Level(c)
  {
    if c == ".." {
      assert path[|path| - 1] == path[|base|..][|path| - |base| - 1];
    }
  }

  /** The clean-up after a failed set-up reaches a node's files if neither the prefix nor the home leads above the
      directory it is taken from. */
  lemma NodeFilesUnder(o: string, prefix: string, home: string, i: nat)
    requires o != "" && StaysBelow(Split(NodeDirName(prefix, i)) + Split(home))
    ensures Under(o, GenesisFile(NodeDir(o, prefix, home, i))) && Under(o, AppToml(NodeDir(o, prefix, home, i)))
  {
    var name := NodeDirName(prefix, i);
    var elems := [o, name, home];
    hide Split, Clean, StaysBelow, NodeDirName;
    assert elems[1..] == [name, home] && [name, home][1..] == [home] && [home][1..] == [] && [o][1..] == [];
    assert SplitAll([home]) == Split(home) && SplitAll([name, home]) == Split(name) + Split(home);
    assert SplitAll(elems) == Split(o) + (Split(name) + Split(home)) && SplitAll([o]) == Split(o);
    CleanPrefix(Rooted(elems), Split(o), Split(name) + Split(home));
  }

  // ---------------------------------------------------------------- ports

  const RPC_PORT: nat := 26657
  const API_PORT: nat := 1317
  const GRPC_PORT: nat := 9090
  const P2P_PORT: nat := 26656
  const P2P_PORT_SINGLE_HOST: nat := 16656

  datatype Service = API | GRPC | P2P | RPC

  /** The port a service of node `i` listens on. */
  function Port(single: bool, service: Service, i: nat): nat {
    var offset := if single then i else 0;
    match service
    case API => API_PORT + offset
    case GRPC => GRPC_PORT + offset
    case P2P => (if single then P2P_PORT_SINGLE_HOST else P2P_PORT) + offset
    case RPC => RPC_PORT + offset
  }

  ghost predicate PortsDistinct(n: nat) {
    forall s, i: nat, t, j: nat :: i < n && j < n && Port(true, s, i) == Port(true, t, j) ==> s == t && i == j
  }

  /** Nodes on one host do not clash on any port, of any service, exactly up to 7566 of them: the next one's gRPC port
      is the first one's P2P port. */
  lemma SingleHostPorts(n: nat)
    ensures PortsDistinct(n) <==> n <= 7566
  {
    if n > 7566 {
      assert Port(true, GRPC, 7566) == Port(true, P2P, 0);
    }
  }

  // ---------------------------------------------------------------- addresses

  newtype byte = b: int | 0 <= b < 256

  datatype IPv4 = IPv4(a: byte, b: byte, c: byte, d: byte)

  function Plus(ip: IPv4, i: nat): IPv4 {
    ip.(d := ((ip.d as int + i) % 256) as byte)
  }

  /** `ipv4[3]++`, `i` times, on the parsed bytes; `None` is text that is no IPv4 address. */
  method CalculateIP(parsed: Option<IPv4>, i: nat) returns (r: Option<IPv4>)
    ensures r == if parsed.None? then None else Some(Plus(parsed.value, i))
    ensures parsed.Some? ==>
              && r.Some? && r.value.a == parsed.value.a && r.value.b == parsed.value.b && r.value.c == parsed.value.c
              && r.value.d as int == (parsed.value.d as int + i) % 256
  {
    if parsed.None? {
      return None;
    }
    var ip := parsed.value;
    var ipv4 := new byte[4][ip.a, ip.b, ip.c, ip.d];
    for j := 0 to i
      invariant ipv4[0] == ip.a && ipv4[1] == ip.b && ipv4[2] == ip.c
      invariant ipv4[3] as int == (ip.d as int + j) % 256
    {
      ipv4[3] := if ipv4[3] == 255 then 0 else ipv4[3] + 1;
    }
    return Some(IPv4(ipv4[0], ipv4[1], ipv4[2], ipv4[3]));
  }

  /** The addresses of `n` nodes are distinct exactly up to 256 of them: the 257th wraps around to the first. */
  lemma AddressesDistinct(start: IPv4, n: nat)
    ensures (forall i: nat, j: nat :: i < j < n ==> Plus(start, i) != Plus(start, j)) <==> n <= 256
  {
    if n > 256 {
      assert Plus(start, 0) == Plus(start, 256);
    }
    forall i: nat, j: nat | i < j < n && n <= 256 ensures Plus(start, i) != Plus(start, j) {
      assert Plus(start, i).d as int == (start.d as int + i) % 256;
      assert Plus(start, j).d as int == (start.d as int + j) % 256;
    }
  }

  /** A peer is an address and a P2P port. */
  function Endpoint(single: bool, start: IPv4, i: nat): (IPv4, nat) {
    (Plus(start, i), Port(single, P2P, i))
  }

  lemma EndpointsDistinct(single: bool, start: IPv4, n: nat)
    ensures (forall i: nat, j: nat :: i < j < n ==> Endpoint(single, start, i) != Endpoint(single, start, j))
       <==> single || n <= 256
  {
    AddressesDistinct(start, n);
    if !single && n > 256 {
      var i: nat, j: nat :| i < j < n && Plus(start, i) == Plus(start, j);
      assert Endpoint(single, start, i) == Endpoint(single, start, j);
    }
  }
}
