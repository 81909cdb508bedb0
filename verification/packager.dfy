// The dependency closure packager: `package_runtime` and its nested functions.
//
// A depth-first walk over an installed package tree that may be cyclic. `copied`
// is set before the walk goes deeper, so the walk must still be shown to visit
// everything reachable and nothing else.

module Packager {
  import opened Base

  type Path = seq<string>

  datatype Package = Package(name: string, version: string, peerContext: Option<string>,
                             dependencies: set<string>, peers: set<string>, optionals: set<string>,
                             optionalPeers: set<string>, native: bool, licenses: nat)

  /** A store directory: the digest of name, version and peer context (collision-free). */
  datatype Identity = Identity(name: string, version: string, peerContext: Option<string>)

  /** `installed` maps every directory that holds a package.json to its resolved directory. */
  datatype Tree = Tree(packages: map<Path, Package>, installed: map<Path, Path>, rootModules: Path)

  ghost predicate WellFormed(t: Tree) {
    forall p :: p in t.installed ==> t.installed[p] in t.packages
  }

  // ----- Looking a dependency up -----

  /** Where a name is searched: upwards from the importing package, then in the root modules. */
  function Options(t: Tree, name: string, source: Option<Path>): (options: seq<Path>)
    ensures |options| == (if source.Some? then |source.value| + 1 else 0) + 1
    ensures source.Some? ==> forall i :: 0 <= i <= |source.value| ==>
              options[i] == source.value[..|source.value| - i] + ["node_modules", name]
    ensures options[|options| - 1] == t.rootModules + [name]
  {
    (if source.Some? then
       seq(|source.value| + 1,
         i requires 0 <= i <= |source.value| => source.value[..|source.value| - i] + ["node_modules", name])
     else [])
    + [t.rootModules + [name]]
  }

  /** The resolved directory of the first option that is installed. */
  ghost predicate IsResolution(t: Tree, options: seq<Path>, r: Option<Path>) {
    match r
    case None => forall i :: 0 <= i < |options| ==> options[i] !in t.installed
    case Some(target) =>
      exists k :: 0 <= k < |options| && options[k] in t.installed && t.installed[options[k]] == target &&
                  forall i :: 0 <= i < k ==> options[i] !in t.installed
  }

  function FirstInstalled(t: Tree, options: seq<Path>): (r: Option<Path>)
    ensures IsResolution(t, options, r)
  {
    if options == [] then None
    else if options[0] in t.installed then Some(t.installed[options[0]])
    else
      var r := FirstInstalled(t, options[1..]);
      assert forall i :: 0 <= i < |options[1..]| ==> options[1..][i] == options[i + 1];
      r
  }

  function Target(t: Tree, name: string, source: Option<Path>): (r: Option<Path>)
    ensures IsResolution(t, Options(t, name, source), r)
    ensures WellFormed(t) && r.Some? ==> r.value in t.packages
  {
    FirstInstalled(t, Options(t, name, source))
  }

  method Resolve(t: Tree, name: string, source: Option<Path>) returns (r: Option<Path>)
    ensures r == Target(t, name, source)
  {
    var options := [];
    if source.Some? {
      for i := 0 to |source.value| + 1
        invariant |options| == i
        invariant forall j :: 0 <= j < i ==> options[j] == source.value[..|source.value| - j] + ["node_modules", name]
      {
        options := options + [source.value[..|source.value| - i] + ["node_modules", name]];
      }
    }
    options := options + [t.rootModules + [name]];
    assert options == Options(t, name, source);
    for i := 0 to |options|
      invariant FirstInstalled(t, options) == FirstInstalled(t, options[i..])
    {
      if options[i] in t.installed {
        return Some(t.installed[options[i]]);
      }
      assert options[i..][1..] == options[i + 1..];
    }
    r := None;
  }

  // ----- The package graph -----

  const TYPES_PREFIX := "@types/"

  predicate StartsWith(s: string, prefix: string) {
    |prefix| <= |s| && s[..|prefix|] == prefix
  }

  predicate NameChar(c: char) {
    'A' <= c <= 'Z' || 'a' <= c <= 'z' || '0' <= c <= '9' || c == '_' || c == '.' || c == '-'
  }

  predicate PlainName(s: string) {
    s != "" && forall i :: 0 <= i < |s| ==> NameChar(s[i])
  }

  /** An optional scope and a name; nothing that could leave the store directory. */
  predicate SafeName(s: string) {
    PlainName(s) || exists i :: 1 < i < |s| && s[0] == '@' && s[i] == '/' && PlainName(s[1..i]) && PlainName(s[i + 1..])
  }

  /** The dependencies the walk considers. */
  function Deps(p: Package): set<string> {
    set d | d in p.dependencies + p.peers + p.optionals && !StartsWith(d, TYPES_PREFIX)
  }

  predicate MayBeMissing(p: Package, d: string) {
    d in p.optionals || d in p.optionalPeers
  }

  function IdentityOf(p: Package): Identity {
    Identity(p.name, p.version, p.peerContext)
  }

  predicate Licensed(p: Package) {
    p.licenses > 0 || (p.name == "react-remove-scroll-bar" && p.version == "2.3.8")
  }

  /** What the package itself must satisfy, and what each of its dependencies must. */
  ghost predicate Acceptable(t: Tree, s: Path)
    requires s in t.packages
  {
    var p := t.packages[s];
    SafeName(p.name) && !p.native && Licensed(p) && forall d :: d in Deps(p) ==> EdgeOk(t, s, d)
  }

  ghost predicate EdgeOk(t: Tree, s: Path, d: string)
    requires s in t.packages
  {
    match Target(t, d, Some(s))
    case None => MayBeMissing(t.packages[s], d)
    // A link named like the package itself would collide with the copied directory.
    case Some(_) => d != t.packages[s].name
  }

  ghost predicate ClosedAt(t: Tree, s: Path, set': set<Path>)
    requires s in t.packages
  {
    forall d :: d in Deps(t.packages[s]) && Target(t, d, Some(s)).Some? ==> Target(t, d, Some(s)).value in set'
  }

  /** A set of packages that no dependency edge leaves. */
  ghost predicate Closed(t: Tree, set': set<Path>) {
    set' <= t.packages.Keys && forall s :: s in set' ==> ClosedAt(t, s, set')
  }

  /** Every package can be copied, and no two of them share a store directory. */
  ghost predicate AllGood(t: Tree, set': set<Path>)
    requires set' <= t.packages.Keys
  {
    && (forall s :: s in set' ==> Acceptable(t, s))
    && (forall a, b :: a in set' && b in set' && IdentityOf(t.packages[a]) == IdentityOf(t.packages[b]) ==> a == b)
  }

  datatype Entry = Entry(name: string, version: string, location: Identity)

  function EntryOf(p: Package): Entry {
    Entry(p.name, p.version, IdentityOf(p))
  }

  /** `stored` maps a store directory to the package whose files it holds. Copies, store directories, inventory and
      links agree with each other and with the tree. */
  ghost predicate Coherent(t: Tree, copied: map<Path, Identity>, stored: map<Identity, Path>, inventory: seq<Entry>,
                           order: seq<Path>, links: map<(Identity, string), Identity>)
  {
    && Paired(t, copied, stored)
    && Inventoried(t, inventory, order, copied.Keys)
    && Linked(t, copied, stored, links)
  }

  /** Copied packages and store directories are in one-to-one correspondence. */
  ghost predicate Paired(t: Tree, copied: map<Path, Identity>, stored: map<Identity, Path>) {
    && (forall s :: s in copied ==>
      s in t.packages && copied[s] == IdentityOf(t.packages[s]) && copied[s] in stored && stored[copied[s]] == s)
    && (forall i :: i in stored ==> stored[i] in copied && copied[stored[i]] == i)
  }

  ghost predicate Linked(t: Tree, copied: map<Path, Identity>, stored: map<Identity, Path>,
                         links: map<(Identity, string), Identity>) {
    forall k :: k in links ==> Justified(t, copied, stored, k, links[k])
  }

  /** The edge is linked to its target's copy, or may be left out. */
  ghost predicate EdgeWired(t: Tree, copied: map<Path, Identity>, links: map<(Identity, string), Identity>, s: Path,
                            d: string)
    requires s in t.packages
  {
    match Target(t, d, Some(s))
    case None => true
    case Some(target) =>
      target in copied && s in copied && (copied[s], d) in links && links[(copied[s], d)] == copied[target]
  }

  /** Every edge of a finished package is linked, and the package was acceptable. */
  ghost predicate Finished(t: Tree, copied: map<Path, Identity>, links: map<(Identity, string), Identity>, s: Path) {
    s in t.packages && Acceptable(t, s) && forall d :: d in Deps(t.packages[s]) ==> EdgeWired(t, copied, links, s, d)
  }

  ghost predicate Extends<K, V>(earlier: map<K, V>, later: map<K, V>) {
    forall k :: k in earlier ==> k in later && later[k] == earlier[k]
  }

  // ----- Reachability -----

  /** The packages the bare imports resolve to. */
  ghost function RootsOf(t: Tree, bare: set<string>): set<Path> {
    set name | name in bare && Target(t, name, None).Some? :: Target(t, name, None).value
  }

  /** The least set that holds the roots and is closed under dependency edges. */
  ghost function Reachable(t: Tree, roots: set<Path>): set<Path> {
    set s | s in t.packages && forall set' :: Closed(t, set') && roots <= set' ==> s in set'
  }

  lemma ReachableIsLeast(t: Tree, roots: set<Path>)
    requires WellFormed(t) && roots <= t.packages.Keys
    ensures Closed(t, Reachable(t, roots)) && roots <= Reachable(t, roots)
    ensures forall set' :: Closed(t, set') && roots <= set' ==> Reachable(t, roots) <= set'
  {
    var r := Reachable(t, roots);
    forall s | s in r ensures ClosedAt(t, s, r) {
      forall d | d in Deps(t.packages[s]) && Target(t, d, Some(s)).Some? ensures Target(t, d, Some(s)).value in r {
        forall set' | Closed(t, set') && roots <= set' ensures Target(t, d, Some(s)).value in set' {
          assert ClosedAt(t, s, set');
        }
      }
    }
  }

  /** `b` is what some dependency of `a` resolves to. */
  ghost predicate Edge(t: Tree, a: Path, b: Path) {
    a in t.packages && exists d :: d in Deps(t.packages[a]) && Target(t, d, Some(a)) == Some(b)
  }

  /** A walk along dependency edges from a root. */
  ghost predicate Walk(t: Tree, roots: set<Path>, w: seq<Path>) {
    |w| > 0 && w[0] in roots && forall i :: 0 <= i < |w| - 1 ==> Edge(t, w[i], w[i + 1])
  }

  ghost predicate WalkTo(t: Tree, roots: set<Path>, s: Path) {
    exists w :: Walk(t, roots, w) && w[|w| - 1] == s
  }

  lemma {:induction false} WalkStaysInside(t: Tree, roots: set<Path>, w: seq<Path>, set': set<Path>)
    requires Walk(t, roots, w) && Closed(t, set') && roots <= set'
    ensures w[|w| - 1] in set'
  {
    if |w| > 1 {
      var front := w[..|w| - 1];
      WalkStaysInside(t, roots, front, set');
      assert Edge(t, w[|w| - 2], w[|w| - 1]) && ClosedAt(t, w[|w| - 2], set');
    }
  }

  lemma WalkOn(t: Tree, roots: set<Path>, p: Path, next: Path)
    requires WalkTo(t, roots, p) && Edge(t, p, next)
    ensures WalkTo(t, roots, next)
  {
    var w :| Walk(t, roots, w) && w[|w| - 1] == p;
    var w' := w + [next];
    assert w'[|w'| - 1] == next;
    forall i | 0 <= i < |w'| - 1 ensures Edge(t, w'[i], w'[i + 1]) {
      assert i < |w| - 1 ==> Edge(t, w[i], w[i + 1]);
    }
    assert Walk(t, roots, w');
  }

  /** The least closed set is exactly what walks from the roots can reach. */
  lemma ReachableIffWalk(t: Tree, roots: set<Path>, s: Path)
    requires WellFormed(t) && roots <= t.packages.Keys
    ensures s in Reachable(t, roots) <==> WalkTo(t, roots, s)
  {
    ReachableIsLeast(t, roots);
    if WalkTo(t, roots, s) {
      var w :| Walk(t, roots, w) && w[|w| - 1] == s;
      WalkStaysInside(t, roots, w, Reachable(t, roots));
    }
    var walked := set p | p in t.packages && WalkTo(t, roots, p);
    forall p | p in roots ensures p in walked {
      assert Walk(t, roots, [p]);
    }
    forall p | p in walked ensures ClosedAt(t, p, walked) {
      forall d | d in Deps(t.packages[p]) && Target(t, d, Some(p)).Some? ensures Target(t, d, Some(p)).value in walked {
        assert Edge(t, p, Target(t, d, Some(p)).value);
        WalkOn(t, roots, p, Target(t, d, Some(p)).value);
      }
    }
    assert Closed(t, walked);
  }

  /** When `package_runtime` succeeds: every import resolves and everything reachable can be copied. */
  ghost predicate Packageable(t: Tree, bare: set<string>)
    requires WellFormed(t)
  {
    && (forall name :: name in bare ==> Target(t, name, None).Some?)
    && AllGood(t, Reachable(t, RootsOf(t, bare)))
  }

  // ----- The graph and the checks, over the fields of the packages -----

  /** The package names this dependency, in any of its three tables, and it is not a package of types. */
  ghost predicate Wants(p: Package, d: string) {
    (d in p.dependencies || d in p.peers || d in p.optionals) && !(exists rest :: d == "@types/" + rest)
  }

  /** Where `d` would be installed under the first `j` directories of a path. */
  function Place(s: Path, d: string, j: nat): Path
    requires j <= |s|
  {
    s[..j] + ["node_modules", d]
  }

  /** `d` as seen from `s` is found at `b`: installed there, at the nearest enclosing directory that has it, or else in
      the root modules. */
  ghost predicate FoundFrom(t: Tree, s: Path, d: string, b: Path) {
    || (exists k: nat :: k <= |s| && LooksAt(t, s, d, k, b))
    || ((forall j: nat :: j <= |s| ==> Place(s, d, j) !in t.installed)
        && t.rootModules + [d] in t.installed && t.installed[t.rootModules + [d]] == b)
  }

  ghost predicate LooksAt(t: Tree, s: Path, d: string, k: nat, b: Path)
    requires k <= |s|
  {
    && Place(s, d, k) in t.installed && t.installed[Place(s, d, k)] == b
    && forall j: nat :: k < j <= |s| ==> Place(s, d, j) !in t.installed
  }

  lemma WantsIffDep(p: Package, d: string)
    ensures d in Deps(p) <==> Wants(p, d)
  {
    assert |"@types/"| == 7;
    if StartsWith(d, TYPES_PREFIX) {
      assert d == "@types/" + d[7..];
    }
    if rest :| d == "@types/" + rest {
      assert d[..7] == "@types/";
    }
  }

  lemma TargetIsFound(t: Tree, s: Path, d: string, b: Path)
    ensures Target(t, d, Some(s)) == Some(b) <==> FoundFrom(t, s, d, b)
  {
    if Target(t, d, Some(s)) == Some(b) {
      TargetFound(t, s, d, b);
    }
    if FoundFrom(t, s, d, b) {
      FoundTarget(t, s, d, b);
    }
  }

  lemma OptionAt(t: Tree, s: Path, d: string, j: nat)
    requires j <= |s|
    ensures |Options(t, d, Some(s))| == |s| + 2 && Options(t, d, Some(s))[|s| - j] == Place(s, d, j)
    ensures Options(t, d, Some(s))[|s| + 1] == t.rootModules + [d]
  {
  }

  lemma TargetFound(t: Tree, s: Path, d: string, b: Path)
    requires Target(t, d, Some(s)) == Some(b)
    ensures FoundFrom(t, s, d, b)
  {
    var options := Options(t, d, Some(s));
    forall j: nat | j <= |s| ensures options[|s| - j] == Place(s, d, j) {
      OptionAt(t, s, d, j);
    }
    OptionAt(t, s, d, 0);
    hide Options, FirstInstalled, Place;
    var k :| 0 <= k < |options| && options[k] in t.installed && t.installed[options[k]] == b &&
             forall i :: 0 <= i < k ==> options[i] !in t.installed;
    forall j: nat | j <= |s| && |s| - j < k ensures Place(s, d, j) !in t.installed {
      assert options[|s| - j] !in t.installed;
    }
    if k <= |s| {
      assert LooksAt(t, s, d, |s| - k, b);
    }
  }

  lemma FoundTarget(t: Tree, s: Path, d: string, b: Path)
    requires FoundFrom(t, s, d, b)
    ensures Target(t, d, Some(s)) == Some(b)
  {
    var options := Options(t, d, Some(s));
    forall i | 0 <= i <= |s| ensures options[i] == Place(s, d, |s| - i) {
      OptionAt(t, s, d, |s| - i);
    }
    OptionAt(t, s, d, 0);
    hide Options, FirstInstalled, Place;
    if k: nat :| k <= |s| && LooksAt(t, s, d, k, b) {
      assert options[|s| - k] in t.installed;
    } else {
      assert options[|s| + 1] in t.installed;
    }
  }

  /** Edges of the walk: a wanted dependency and where it is found. */
  lemma EdgeMeaning(t: Tree, a: Path, b: Path)
    ensures Edge(t, a, b) <==> a in t.packages && exists d :: Wants(t.packages[a], d) && FoundFrom(t, a, d, b)
  {
    if Edge(t, a, b) {
      var d :| d in Deps(t.packages[a]) && Target(t, d, Some(a)) == Some(b);
      WantsIffDep(t.packages[a], d);
      TargetIsFound(t, a, d, b);
    }
    if a in t.packages && exists d :: Wants(t.packages[a], d) && FoundFrom(t, a, d, b) {
      var d :| Wants(t.packages[a], d) && FoundFrom(t, a, d, b);
      WantsIffDep(t.packages[a], d);
      TargetIsFound(t, a, d, b);
    }
  }

  /** What a package needs to be packaged: a plain name with or without a scope, no native code, a license text, and
      every wanted dependency found under another name than its own, unless it may be missing. */
  ghost predicate Packs(t: Tree, s: Path)
    requires s in t.packages
  {
    var p := t.packages[s];
    && !p.native && (p.licenses >= 1 || (p.name == "react-remove-scroll-bar" && p.version == "2.3.8"))
    && (Written(p.name) || exists scope, rest :: p.name == "@" + scope + "/" + rest && Written(scope) && Written(rest))
    && (forall d, b :: Wants(p, d) && FoundFrom(t, s, d, b) ==> d != p.name)
    && (forall d :: Wants(p, d) && (forall b :: !FoundFrom(t, s, d, b)) ==> d in p.optionals || d in p.optionalPeers)
  }

  ghost predicate Written(s: string) {
    s != "" && forall c :: c in s ==>
      'A' <= c <= 'Z' || 'a' <= c <= 'z' || '0' <= c <= '9' || c == '_' || c == '.' || c == '-'
  }

  lemma WrittenIsPlain(s: string)
    ensures Written(s) <==> PlainName(s)
  {
    assert forall i :: 0 <= i < |s| ==> s[i] in s;
  }

  lemma ScopedIsSafe(s: string, scope: string, rest: string)
    requires s == "@" + scope + "/" + rest && PlainName(scope) && PlainName(rest)
    ensures SafeName(s)
  {
    hide NameChar;
    var i := |scope| + 1;
    assert s[..i] == "@" + scope && s[i..] == "/" + rest;
    assert s[1..i] == scope && s[i + 1..] == rest && s[i] == '/' && s[0] == '@';
  }

  lemma SafeNameMeaning(s: string)
    ensures SafeName(s) <==>
            Written(s) || exists scope, rest :: s == "@" + scope + "/" + rest && Written(scope) && Written(rest)
  {
    hide Written, PlainName;
    WrittenIsPlain(s);
    if i :| 1 < i < |s| && s[0] == '@' && s[i] == '/' && PlainName(s[1..i]) && PlainName(s[i + 1..]) {
      assert s == "@" + s[1..i] + "/" + s[i + 1..];
      WrittenIsPlain(s[1..i]);
      WrittenIsPlain(s[i + 1..]);
    }
    if scope, rest :| s == "@" + scope + "/" + rest && Written(scope) && Written(rest) {
      WrittenIsPlain(scope);
      WrittenIsPlain(rest);
      ScopedIsSafe(s, scope, rest);
    }
  }

  lemma AcceptableMeaning(t: Tree, s: Path)
    requires s in t.packages
    ensures Acceptable(t, s) <==> Packs(t, s)
  {
    hide SafeName, FoundFrom, Deps, Wants, Target, Written;
    var p := t.packages[s];
    SafeNameMeaning(p.name);
    forall d ensures d in Deps(p) <==> Wants(p, d) {
      WantsIffDep(p, d);
    }
    forall d, b ensures Target(t, d, Some(s)) == Some(b) <==> FoundFrom(t, s, d, b) {
      TargetIsFound(t, s, d, b);
    }
    if Packs(t, s) {
      forall d | d in Deps(p) ensures EdgeOk(t, s, d) {
        if Target(t, d, Some(s)).Some? {
          assert FoundFrom(t, s, d, Target(t, d, Some(s)).value);
        }
      }
    }
    if Acceptable(t, s) {
      forall d, b | Wants(p, d) && FoundFrom(t, s, d, b) ensures d != p.name {
        assert EdgeOk(t, s, d);
      }
      forall d | Wants(p, d) && (forall b :: !FoundFrom(t, s, d, b)) ensures d in p.optionals || d in p.optionalPeers {
        assert EdgeOk(t, s, d);
        var b := match Target(t, d, Some(s)) case Some(found) => found case None => s;
        assert Target(t, d, Some(s)) == Some(b) ==> FoundFrom(t, s, d, b);
      }
    }
  }

  /** An import is found in the root modules. */
  lemma RootMeaning(t: Tree, name: string)
    ensures Target(t, name, None) == if t.rootModules + [name] in t.installed
                                     then Some(t.installed[t.rootModules + [name]]) else None
  {
    assert Options(t, name, None) == [t.rootModules + [name]];
  }

  /** The same name, version and peer context. */
  predicate Alike(p: Package, q: Package) {
    p.name == q.name && p.version == q.version && p.peerContext == q.peerContext
  }

  /** When packaging succeeds: every import is in the root modules, everything that walks reach packs, and no two of
      those packages share name, version and peer context. */
  lemma PackageableMeaning(t: Tree, bare: set<string>)
    requires WellFormed(t)
    ensures var reach := Reachable(t, RootsOf(t, bare));
            Packageable(t, bare) <==>
              && (forall name :: name in bare ==> t.rootModules + [name] in t.installed)
              && (forall s :: s in reach ==> Packs(t, s))
              && (forall a, b :: a in reach && b in reach && Alike(t.packages[a], t.packages[b]) ==> a == b)
  {
    hide Acceptable, Packs, Target, Reachable;
    var reach := Reachable(t, RootsOf(t, bare));
    ReachableInTree(t, RootsOf(t, bare));
    forall name ensures Target(t, name, None).Some? <==> t.rootModules + [name] in t.installed {
      RootMeaning(t, name);
    }
    forall s | s in reach ensures Acceptable(t, s) <==> Packs(t, s) {
      AcceptableMeaning(t, s);
    }
    if Packageable(t, bare) {
      forall a, b | a in reach && b in reach && Alike(t.packages[a], t.packages[b]) ensures a == b {
        assert IdentityOf(t.packages[a]) == IdentityOf(t.packages[b]);
      }
    }
  }

  lemma ReachableInTree(t: Tree, roots: set<Path>)
    ensures Reachable(t, roots) <= t.packages.Keys
  {
  }

  /** What is on disk after a success, over the fields of the packages: each copied package has its own store directory,
      packs, and is listed; each wanted dependency that is found is copied and linked, and nothing else is linked; and
      each import is linked to the copy of what the root modules hold. */
  ghost predicate Packaged(t: Tree, copied: map<Path, Identity>, links: map<(Identity, string), Identity>,
                           inventory: seq<Entry>, roots: map<string, Identity>) {
    && (forall s :: s in copied ==> Placed(t, copied, links, inventory, s))
    && (forall a, b :: a in copied && b in copied && copied[a] == copied[b] ==> a == b)
    && |inventory| == |copied|
    && (forall k :: k in links ==> FromWanted(t, copied, k, links[k]))
    && (forall name :: name in roots ==>
          && t.rootModules + [name] in t.installed && t.installed[t.rootModules + [name]] in copied
          && roots[name] == copied[t.installed[t.rootModules + [name]]])
  }

  ghost predicate Placed(t: Tree, copied: map<Path, Identity>, links: map<(Identity, string), Identity>,
                         inventory: seq<Entry>, s: Path) {
    && s in t.packages && s in copied && Packs(t, s)
    && copied[s].name == t.packages[s].name && copied[s].version == t.packages[s].version
    && copied[s].peerContext == t.packages[s].peerContext
    && Entry(t.packages[s].name, t.packages[s].version, copied[s]) in inventory
    && forall d, b :: Wants(t.packages[s], d) && FoundFrom(t, s, d, b) ==>
         b in copied && (copied[s], d) in links && links[(copied[s], d)] == copied[b]
  }

  ghost predicate FromWanted(t: Tree, copied: map<Path, Identity>, k: (Identity, string), value: Identity) {
    exists s, b :: s in copied && b in copied && s in t.packages && copied[s] == k.0 && Wants(t.packages[s], k.1)
      && FoundFrom(t, s, k.1, b) && copied[b] == value
  }

  lemma PlacedBy(t: Tree, copied: map<Path, Identity>, stored: map<Identity, Path>, inventory: seq<Entry>,
                 order: seq<Path>, links: map<(Identity, string), Identity>, s: Path)
    requires Coherent(t, copied, stored, inventory, order, links) && s in copied && Finished(t, copied, links, s)
    ensures Placed(t, copied, links, inventory, s)
  {
    hide Packs, FoundFrom, Wants, Deps, Linked, Acceptable, Target;
    AcceptableMeaning(t, s);
    ListedOnce(t, inventory, order, copied.Keys, s);
    forall d, b | Wants(t.packages[s], d) && FoundFrom(t, s, d, b)
      ensures b in copied && (copied[s], d) in links && links[(copied[s], d)] == copied[b]
    {
      WantsIffDep(t.packages[s], d);
      TargetIsFound(t, s, d, b);
      assert EdgeWired(t, copied, links, s, d);
    }
  }

  lemma ListedOnce(t: Tree, inventory: seq<Entry>, order: seq<Path>, done: set<Path>, s: Path)
    requires Inventoried(t, inventory, order, done) && s in done
    ensures s in t.packages && Entry(t.packages[s].name, t.packages[s].version, IdentityOf(t.packages[s])) in inventory
  {
    assert s in multiset(order);
    var i :| 0 <= i < |order| && order[i] == s;
    assert inventory[i] == EntryOf(t.packages[order[i]]);
  }

  lemma CountedOnce(t: Tree, inventory: seq<Entry>, order: seq<Path>, done: set<Path>)
    requires Inventoried(t, inventory, order, done)
    ensures |inventory| == |done|
  {
    assert |multiset(order)| == |order|;
    assert |multiset(done)| == |done|;
  }

  lemma LinkMeaning(t: Tree, copied: map<Path, Identity>, stored: map<Identity, Path>,
                    links: map<(Identity, string), Identity>, k: (Identity, string))
    requires Paired(t, copied, stored) && Linked(t, copied, stored, links) && k in links
    ensures FromWanted(t, copied, k, links[k])
  {
    hide Wants, FoundFrom, Deps;
    assert Justified(t, copied, stored, k, links[k]);
    var s := stored[k.0];
    WantsIffDep(t.packages[s], k.1);
    TargetIsFound(t, s, k.1, Target(t, k.1, Some(s)).value);
  }

  lemma SuccessMeaning(t: Tree, copied: map<Path, Identity>, stored: map<Identity, Path>, inventory: seq<Entry>,
                       order: seq<Path>, links: map<(Identity, string), Identity>, roots: map<string, Identity>)
    requires Coherent(t, copied, stored, inventory, order, links) && RootsLinked(t, copied, roots)
    requires forall s :: s in copied ==> Finished(t, copied, links, s)
    ensures Packaged(t, copied, links, inventory, roots)
  {
    hide Finished, Placed, FromWanted, Inventoried, Linked, Target;
    forall s | s in copied ensures Placed(t, copied, links, inventory, s) {
      PlacedBy(t, copied, stored, inventory, order, links, s);
    }
    CountedOnce(t, inventory, order, copied.Keys);
    forall k | k in links ensures FromWanted(t, copied, k, links[k]) {
      LinkMeaning(t, copied, stored, links, k);
    }
    forall name | name in roots
      ensures && t.rootModules + [name] in t.installed && t.installed[t.rootModules + [name]] in copied
              && roots[name] == copied[t.installed[t.rootModules + [name]]]
    {
      RootMeaning(t, name);
      assert RootLinked(t, copied, name, roots[name]);
    }
  }

  class Packager {
    const tree: Tree
    var copied: map<Path, Identity>
    var stored: map<Identity, Path>
    var inventory: seq<Entry>
    var links: map<(Identity, string), Identity>
    ghost var order: seq<Path>

    ghost predicate Valid()
      reads this
    {
      WellFormed(tree) && Coherent(tree, copied, stored, inventory, order, links)
    }

    constructor (t: Tree)
      requires WellFormed(t)
      ensures Valid() && tree == t && copied == map[] && links == map[]
    {
      tree, copied, stored, inventory, links, order := t, map[], map[], [], map[], [];
    }

    /** `package_runtime`, after the imports were collected. It succeeds exactly when everything reachable can be
        copied, and then has copied exactly that, linked every edge, and listed each package once. */
    method PackageRuntime(bare: set<string>) returns (ok: bool, roots: map<string, Identity>)
      requires Valid() && copied == map[]
      modifies this
      ensures ok <==> Packageable(tree, bare)
      ensures ok ==> copied.Keys == Reachable(tree, RootsOf(tree, bare))
      ensures ok ==> forall s :: s in copied ==> Finished(tree, copied, links, s)
      ensures ok ==> Valid() && multiset(order) == multiset(copied.Keys)
      ensures ok ==> roots.Keys == bare && RootsLinked(tree, copied, roots)
      ensures ok ==> Packaged(tree, copied, links, inventory, roots)
    {
      hide Packaged;
      ghost var reach := Reachable(tree, RootsOf(tree, bare));
      ReachableIsLeast(tree, RootsOf(tree, bare));
      assert forall name :: name in bare && Target(tree, name, None).Some? ==>
        Target(tree, name, None).value in RootsOf(tree, bare);
      ok, roots := CopyRoots(bare, reach);
      if ok {
        AllReached(tree, copied, stored, links, bare, roots);
        SuccessMeaning(tree, copied, stored, inventory, order, links, roots);
      }
    }

    /** The loop over the bare imports. */
    method CopyRoots(bare: set<string>, ghost reach: set<Path>) returns (ok: bool, roots: map<string, Identity>)
      requires Valid() && copied == map[] && Closed(tree, reach)
      requires forall name :: name in bare && Target(tree, name, None).Some? ==> Target(tree, name, None).value in reach
      modifies this
      ensures ok ==> Valid() && copied.Keys <= reach
      ensures ok ==> forall s :: s in copied ==> Finished(tree, copied, links, s)
      ensures ok ==> roots.Keys == bare && RootsLinked(tree, copied, roots)
      ensures !ok ==> !AllGood(tree, reach) || exists name :: name in bare && Target(tree, name, None).None?
    {
      hide Finished, Closed, Coherent, WellFormed;
      roots := map[];
      var todo := bare;
      while todo != {}
        invariant Valid() && copied.Keys <= reach && todo <= bare
        invariant forall s :: s in copied ==> Finished(tree, copied, links, s)
        invariant roots.Keys == bare - todo && RootsLinked(tree, copied, roots)
        decreases todo
      {
        var name :| name in todo;
        var destination := CopyRoot(name, reach);
        if destination == None {
          return false, roots;
        }
        roots := roots[name := destination.value];
        todo := todo - {name};
      }
      ok := true;
    }

    /** One bare import: resolve it from the root modules and copy it. */
    method CopyRoot(name: string, ghost reach: set<Path>) returns (destination: Option<Identity>)
      requires Valid() && Closed(tree, reach) && copied.Keys <= reach
      requires Target(tree, name, None).Some? ==> Target(tree, name, None).value in reach
      requires forall s :: s in copied ==> Finished(tree, copied, links, s)
      modifies this
      ensures destination.Some? ==> Valid() && copied.Keys <= reach && Extends(old(copied), copied)
      ensures destination.Some? ==> forall s :: s in copied ==> Finished(tree, copied, links, s)
      ensures destination.Some? ==> RootLinked(tree, copied, name, destination.value)
      ensures destination.None? ==> Target(tree, name, None).None? || !AllGood(tree, reach)
    {
      var target := Resolve(tree, name, None);
      if target == None {
        return None;
      }
      ghost var c, l := copied, links;
      destination := CopyPackage(target.value, reach);
      if destination.Some? {
        forall s | s in c ensures Finished(tree, copied, links, s) {
          FinishedGrows(tree, c, l, copied, links, s);
        }
      }
    }

    /** The checks and copies a package gets before its dependencies are followed. */
    method CopyTree(source: Path, ghost reach: set<Path>) returns (ok: bool)
      requires Valid() && source in tree.packages && source !in copied
      requires Closed(tree, reach) && copied.Keys <= reach && source in reach
      modifies this
      ensures ok ==>
                && Valid() && copied == old(copied)[source := IdentityOf(tree.packages[source])]
                && Extends(old(stored), stored) && links == old(links)
      ensures ok ==> copied[source] !in old(stored) && forall d :: (copied[source], d) !in links
      ensures ok ==> var p := tree.packages[source]; SafeName(p.name) && !p.native && Licensed(p)
      ensures !ok ==> !AllGood(tree, reach)
    {
      hide Paired, Inventoried, Linked, AllGood, Closed, EdgeOk;
      var package := tree.packages[source];
      if !SafeName(package.name) {
        NotGood(tree, reach, source);
        return false;
      }
      var destination := IdentityOf(package);
      if destination in stored {
        Collides(tree, copied, stored, reach, source);
        return false;
      }
      if package.native || !Licensed(package) {
        NotGood(tree, reach, source);
        return false;
      }
      CoherentAdd(tree, copied, stored, inventory, order, links, source);
      NotLinkedYet(tree, copied, stored, links, destination);
      copied := copied[source := destination];
      stored := stored[destination := source];
      inventory := inventory + [EntryOf(package)];
      order := order + [source];
      ok := true;
    }

    /** `copy_package`. `reach` is any set closed under dependencies that holds the package and what was copied
        before. On success everything newly copied is finished and the walk stayed inside `reach`; it fails only
        if some package of `reach` cannot be packaged. */
    method CopyPackage(source: Path, ghost reach: set<Path>) returns (destination: Option<Identity>)
      requires Valid() && Closed(tree, reach) && copied.Keys <= reach && source in reach
      modifies this
      decreases tree.packages.Keys - copied.Keys, 1
      ensures destination.Some? ==> Valid() && source in copied && destination == Some(copied[source])
      ensures destination.Some? ==>
              Extends(old(copied), copied) && Extends(old(stored), stored) && Extends(old(links), links)
      ensures destination.Some? ==> forall s :: s in copied && s !in old(copied) ==> Finished(tree, copied, links, s)
      ensures destination.Some? ==> forall k :: k in links && k !in old(links) ==> k.0 !in old(stored)
      ensures destination.Some? ==> copied.Keys <= reach
      ensures destination.None? ==> !AllGood(tree, reach)
    {
      if source in copied {
        return Some(copied[source]);
      }
      var ok := CopyTree(source, reach);
      if !ok {
        return None;
      }
      ok := FollowAll(source, reach, old(copied), old(stored));
      destination := if ok then Some(copied[source]) else None;
    }

    ghost function Now(): Copies
      reads this
    {
      Copies(copied, stored, links)
    }

    /** The loop over the dependencies of a package that was just copied. */
    method FollowAll(source: Path, ghost reach: set<Path>, ghost before: map<Path, Identity>,
                     ghost taken: map<Identity, Path>)
      returns (ok: bool)
      requires Valid() && source !in before && source in tree.packages
      requires Closed(tree, reach) && copied.Keys <= reach && source in reach
      requires copied == before[source := IdentityOf(tree.packages[source])] && Extends(taken, stored)
      requires var p := tree.packages[source]; SafeName(p.name) && !p.native && Licensed(p)
      requires copied[source] !in taken && forall d :: (copied[source], d) !in links
      modifies this
      decreases tree.packages.Keys - copied.Keys, 4
      ensures ok ==>
                && Valid() && Extends(old(copied), copied) && Extends(old(stored), stored)
                && Extends(old(links), links)
      ensures ok ==> forall s :: s in copied && s !in before ==> Finished(tree, copied, links, s)
      ensures ok ==> forall k :: k in links && k !in old(links) ==> k.0 !in taken
      ensures ok ==> copied.Keys <= reach
      ensures !ok ==> !AllGood(tree, reach)
    {
      hide Closed, Coherent, WellFormed, EdgeOk, EdgeWired;
      var package := tree.packages[source];
      var todo := Deps(package);
      ghost var done: set<string> := {};
      ghost var start := Now();
      while todo != {}
        invariant Valid() && Following(tree, start, Now(), taken, source, done, todo)
        invariant done + todo == Deps(package)
        invariant copied.Keys <= reach
        decreases todo
      {
        var d :| d in todo;
        ok := FollowNext(source, d, reach, start, taken, done, todo);
        if !ok {
          return;
        }
        todo, done := todo - {d}, done + {d};
      }
      ok := true;
      FollowedAll(tree, copied, links, start.copied.Keys, source, done);
    }

    /** One turn of that loop. */
    method FollowNext(source: Path, d: string, ghost reach: set<Path>, ghost start: Copies,
                      ghost taken: map<Identity, Path>, ghost done: set<string>, ghost todo: set<string>)
      returns (ok: bool)
      requires Valid() && Closed(tree, reach) && copied.Keys <= reach
      requires Following(tree, start, Now(), taken, source, done, todo) && d in todo && d in Deps(tree.packages[source])
      modifies this
      decreases tree.packages.Keys - start.copied.Keys, 3
      ensures ok ==>
                && Valid() && Following(tree, start, Now(), taken, source, done + {d}, todo - {d})
                && copied.Keys <= reach
      ensures !ok ==> !AllGood(tree, reach)
    {
      ok := FollowEdge(source, d, reach, start.copied.Keys);
      if ok {
        FollowingGrows(tree, start, old(Now()), Now(), taken, source, d, done, todo);
      }
    }

    /** One dependency of a copied package: resolve it, copy it, link it. */
    method FollowEdge(source: Path, d: string, ghost reach: set<Path>, ghost visited: set<Path>) returns (ok: bool)
      requires Valid() && source in copied && d in Deps(tree.packages[source])
      requires Closed(tree, reach) && copied.Keys <= reach
      requires (copied[source], d) !in links
      requires visited <= copied.Keys
      modifies this
      decreases tree.packages.Keys - visited, 2
      ensures ok ==>
                && Valid() && Extends(old(copied), copied) && Extends(old(stored), stored)
                && Extends(old(links), links)
      ensures ok ==> forall s :: s in copied && s !in old(copied) ==> Finished(tree, copied, links, s)
      ensures ok ==> EdgeOk(tree, source, d) && EdgeWired(tree, copied, links, source, d)
      ensures ok ==> forall k :: k in links && k !in old(links) ==> k.0 !in old(stored) || k == (copied[source], d)
      ensures ok ==> copied.Keys <= reach
      ensures !ok ==> !AllGood(tree, reach)
    {
      var target := Resolve(tree, d, Some(source));
      if target == None {
        ok := MayBeMissing(tree.packages[source], d);
        assert !ok ==> !EdgeOk(tree, source, d);
        return;
      }
      assert ClosedAt(tree, source, reach);
      ghost var reached := copied.Keys;
      var destination := CopyPackage(target.value, reach);
      if destination == None {
        return false;
      }
      if d == tree.packages[source].name {
        assert !EdgeOk(tree, source, d);
        return false;
      }
      ok := true;
      Link(source, d, destination.value, reached);
    }

    /** The symlink from one package's store directory to a dependency's copy. */
    method Link(source: Path, d: string, value: Identity, ghost before: set<Path>)
      requires Valid() && source in copied && d in Deps(tree.packages[source])
      requires Target(tree, d, Some(source)).Some? && Target(tree, d, Some(source)).value in copied
      requires value == copied[Target(tree, d, Some(source)).value]
      requires source in before && (copied[source], d) !in links
      requires forall p :: p in copied && p !in before ==> Finished(tree, copied, links, p)
      modifies this`links
      ensures Valid() && links == old(links)[(copied[source], d) := value]
      ensures forall p :: p in copied && p !in before ==> Finished(tree, copied, links, p)
      ensures EdgeWired(tree, copied, links, source, d)
    {
      CoherentLink(tree, copied, stored, inventory, order, links, source, d);
      LinkFinish(tree, copied, links, source, d, before);
      links := links[(copied[source], d) := value];
    }
  }

  lemma NotGood(t: Tree, reach: set<Path>, source: Path)
    requires Closed(t, reach) && source in reach && !Acceptable(t, source)
    ensures !AllGood(t, reach)
  {
  }

  /** Another package that was already copied has the same store directory. */
  lemma Collides(t: Tree, copied: map<Path, Identity>, stored: map<Identity, Path>, reach: set<Path>, source: Path)
    requires Closed(t, reach) && Paired(t, copied, stored) && copied.Keys <= reach && source in reach
    requires source in t.packages && source !in copied && IdentityOf(t.packages[source]) in stored
    ensures !AllGood(t, reach)
  {
    var other := stored[IdentityOf(t.packages[source])];
    assert other in copied && IdentityOf(t.packages[other]) == IdentityOf(t.packages[source]);
  }

  lemma NotLinkedYet(t: Tree, copied: map<Path, Identity>, stored: map<Identity, Path>,
                     links: map<(Identity, string), Identity>, destination: Identity)
    requires Linked(t, copied, stored, links) && destination !in stored
    ensures forall d :: (destination, d) !in links
  {
    assert forall k :: k in links ==> Justified(t, copied, stored, k, links[k]);
  }

  lemma CoherentAdd(t: Tree, copied: map<Path, Identity>, stored: map<Identity, Path>, inventory: seq<Entry>,
                    order: seq<Path>, links: map<(Identity, string), Identity>, source: Path)
    requires Coherent(t, copied, stored, inventory, order, links)
    requires source in t.packages && source !in copied && IdentityOf(t.packages[source]) !in stored
    ensures var p := t.packages[source];
            Coherent(t, copied[source := IdentityOf(p)], stored[IdentityOf(p) := source], inventory + [EntryOf(p)],
              order + [source], links)
  {
    var p := t.packages[source];
    var copied', stored' := copied[source := IdentityOf(p)], stored[IdentityOf(p) := source];
    InventoryAdd(t, inventory, order, copied.Keys, source);
    assert copied'.Keys == copied.Keys + {source};
    LinkedGrows(t, copied, stored, copied', stored', links);
  }

  lemma LinkedGrows(t: Tree, copied: map<Path, Identity>, stored: map<Identity, Path>,
                    copied': map<Path, Identity>, stored': map<Identity, Path>,
                    links: map<(Identity, string), Identity>)
    requires Linked(t, copied, stored, links) && Extends(copied, copied') && Extends(stored, stored')
    ensures Linked(t, copied', stored', links)
  {
    forall k | k in links ensures Justified(t, copied', stored', k, links[k]) {
      assert Justified(t, copied, stored, k, links[k]);
    }
  }

  lemma InventoryAdd(t: Tree, inventory: seq<Entry>, order: seq<Path>, done: set<Path>, source: Path)
    requires Inventoried(t, inventory, order, done) && source in t.packages && source !in done
    ensures Inventoried(t, inventory + [EntryOf(t.packages[source])], order + [source], done + {source})
  {
    assert (order + [source])[|order|] == source;
  }

  /** Adding the link of one edge of a copied package. */
  lemma CoherentLink(t: Tree, copied: map<Path, Identity>, stored: map<Identity, Path>, inventory: seq<Entry>,
                     order: seq<Path>,
                     links: map<(Identity, string), Identity>, s: Path, d: string)
    requires Coherent(t, copied, stored, inventory, order, links)
    requires s in copied && d in Deps(t.packages[s]) && Target(t, d, Some(s)).Some?
             && Target(t, d, Some(s)).value in copied
    ensures Coherent(t, copied, stored, inventory, order, links[(copied[s], d) := copied[Target(t, d, Some(s)).value]])
    ensures EdgeWired(t, copied, links[(copied[s], d) := copied[Target(t, d, Some(s)).value]], s, d)
  {
    var value := copied[Target(t, d, Some(s)).value];
    assert Justified(t, copied, stored, (copied[s], d), value);
  }

  /** More copies and links never undo a finished package. */
  lemma FinishedGrows(t: Tree, copied: map<Path, Identity>, links: map<(Identity, string), Identity>,
                      copied': map<Path, Identity>, links': map<(Identity, string), Identity>, s: Path)
    requires Finished(t, copied, links, s) && s in copied && Extends(copied, copied') && Extends(links, links')
    ensures Finished(t, copied', links', s)
  {
    forall d | d in Deps(t.packages[s]) ensures EdgeWired(t, copied', links', s, d) {
      assert EdgeWired(t, copied, links, s, d);
    }
  }

  /** Part of the way through a package's dependencies: `done` are followed, and everything copied since is finished. */
  ghost predicate Followed(t: Tree, copied: map<Path, Identity>, links: map<(Identity, string), Identity>,
                           start: set<Path>, s: Path, done: set<string>)
    requires s in t.packages
  {
    && (forall p :: p in copied && p !in start ==> Finished(t, copied, links, p))
    && (forall d :: d in done ==> EdgeOk(t, s, d) && EdgeWired(t, copied, links, s, d))
  }

  /** Finished packages that include the roots are all that is reachable, and they are good. */
  lemma AllReached(t: Tree, copied: map<Path, Identity>, stored: map<Identity, Path>,
                   links: map<(Identity, string), Identity>, bare: set<string>, roots: map<string, Identity>)
    requires WellFormed(t) && Paired(t, copied, stored) && copied.Keys <= t.packages.Keys
    requires copied.Keys <= Reachable(t, RootsOf(t, bare))
    requires forall s :: s in copied ==> Finished(t, copied, links, s)
    requires roots.Keys == bare && RootsLinked(t, copied, roots)
    ensures copied.Keys == Reachable(t, RootsOf(t, bare)) && Packageable(t, bare)
  {
    ReachableIsLeast(t, RootsOf(t, bare));
    forall s | s in copied ensures ClosedAt(t, s, copied.Keys) {
      assert Finished(t, copied, links, s);
      forall d | d in Deps(t.packages[s]) && Target(t, d, Some(s)).Some? ensures Target(t, d, Some(s)).value in copied {
        assert EdgeWired(t, copied, links, s, d);
      }
    }
    assert Closed(t, copied.Keys);
    assert forall name :: name in bare ==> RootLinked(t, copied, name, roots[name]);
  }

  /** The top-level link of an import leads to the copy of what it resolves to. */
  ghost predicate RootLinked(t: Tree, copied: map<Path, Identity>, name: string, value: Identity) {
    match Target(t, name, None)
    case None => false
    case Some(target) => target in copied && copied[target] == value
  }

  ghost predicate RootsLinked(t: Tree, copied: map<Path, Identity>, roots: map<string, Identity>) {
    forall name :: name in roots ==> RootLinked(t, copied, name, roots[name])
  }

  datatype Copies = Copies(copied: map<Path, Identity>, stored: map<Identity, Path>,
                           links: map<(Identity, string), Identity>)

  ghost predicate Later(earlier: Copies, later: Copies) {
    Extends(earlier.copied, later.copied) && Extends(earlier.stored, later.stored)
      && Extends(earlier.links, later.links)
  }

  /** What holds while a package's dependencies are followed: nothing earlier changed, `done` are linked, none of
      `todo` is, and links added since belong to packages copied since or to this one. */
  ghost predicate Following(t: Tree, start: Copies, now: Copies, taken: map<Identity, Path>, source: Path,
                            done: set<string>, todo: set<string>)
  {
    && source in t.packages && source in start.copied && start.copied[source] !in taken
    && Later(start, now) && Extends(taken, start.stored)
    && Followed(t, now.copied, now.links, start.copied.Keys, source, done)
    && (forall k :: k in now.links && k !in start.links ==> k.0 !in taken)
    && (forall e :: e in todo ==> (start.copied[source], e) !in now.links)
  }

  lemma FollowingGrows(t: Tree, start: Copies, now: Copies, next: Copies, taken: map<Identity, Path>, source: Path,
                       d: string, done: set<string>, todo: set<string>)
    requires Following(t, start, now, taken, source, done, todo) && Later(now, next)
    requires start.copied[source] in now.stored
    requires forall p :: p in next.copied && p !in now.copied ==> Finished(t, next.copied, next.links, p)
    requires EdgeOk(t, source, d) && EdgeWired(t, next.copied, next.links, source, d)
    requires forall k :: k in next.links && k !in now.links ==> k.0 !in now.stored || k == (now.copied[source], d)
    ensures Following(t, start, next, taken, source, done + {d}, todo - {d})
  {
    FollowedGrows(t, now.copied, now.links, next.copied, next.links, start.copied.Keys, source, d, done);
  }

  lemma FollowedAll(t: Tree, copied: map<Path, Identity>, links: map<(Identity, string), Identity>,
                    start: set<Path>, s: Path, done: set<string>)
    requires s in t.packages && Followed(t, copied, links, start, s, done) && Deps(t.packages[s]) <= done
    requires var p := t.packages[s]; SafeName(p.name) && !p.native && Licensed(p)
    ensures forall p :: p in copied && p !in start - {s} ==> Finished(t, copied, links, p)
  {
  }

  lemma FollowedGrows(t: Tree, c: map<Path, Identity>, l: map<(Identity, string), Identity>,
                      c': map<Path, Identity>, l': map<(Identity, string), Identity>,
                      start: set<Path>, s: Path, d: string, done: set<string>)
    requires Extends(c, c') && Extends(l, l') && s in t.packages
    requires Followed(t, c, l, start, s, done)
    requires forall p :: p in c' && p !in c ==> Finished(t, c', l', p)
    requires EdgeOk(t, s, d) && EdgeWired(t, c', l', s, d)
    ensures Followed(t, c', l', start, s, done + {d})
  {
    forall p | p in c && p !in start ensures Finished(t, c', l', p) {
      FinishedGrows(t, c, l, c', l', p);
    }
    forall e | e in done ensures EdgeWired(t, c', l', s, e) {
      assert EdgeWired(t, c, l, s, e);
    }
  }

  /** Linking one edge of a package leaves the packages copied since intact. */
  lemma LinkFinish(t: Tree, copied: map<Path, Identity>, links: map<(Identity, string), Identity>, s: Path, d: string,
                   before: set<Path>)
    requires s in copied && s in t.packages && s in before && Target(t, d, Some(s)).Some?
             && Target(t, d, Some(s)).value in copied
    requires (copied[s], d) !in links
    requires forall p :: p in copied && p !in before ==> Finished(t, copied, links, p)
    ensures var links' := links[(copied[s], d) := copied[Target(t, d, Some(s)).value]];
            forall p :: p in copied && p !in before ==> Finished(t, copied, links', p)
  {
    var links' := links[(copied[s], d) := copied[Target(t, d, Some(s)).value]];
    forall p | p in copied && p !in before ensures Finished(t, copied, links', p) {
      FinishedGrows(t, copied, links, copied, links', p);
    }
  }

  /** The inventory lists each copied package exactly once, in the order they were copied. */
  ghost predicate Inventoried(t: Tree, inventory: seq<Entry>, order: seq<Path>, done: set<Path>) {
    && |inventory| == |order|
    && multiset(order) == multiset(done)
    && forall i :: 0 <= i < |order| ==> order[i] in t.packages && inventory[i] == EntryOf(t.packages[order[i]])
  }

  /** A link comes from a dependency edge of a copied package and leads to the target's copy. */
  ghost predicate Justified(t: Tree, copied: map<Path, Identity>, stored: map<Identity, Path>, k: (Identity, string),
                            value: Identity) {
    && k.0 in stored && stored[k.0] in t.packages
    && k.1 in Deps(t.packages[stored[k.0]])
    && match Target(t, k.1, Some(stored[k.0]))
       case None => false
       case Some(target) => target in copied && copied[target] == value
  }
}
