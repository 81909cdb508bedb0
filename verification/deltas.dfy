// `apply_chain_delta`: an exact, hash-bound edit of a file inventory.

module Deltas {
  import opened Base
  import opened Texts

  type Inventory = map<string, string>

  datatype Change = Change(path: string, before: Option<string>, after: Option<string>, reason: string)

  datatype Delta = Delta(baseline: string, current: string, changes: seq<Change>)

  const MAX_FILES: nat := 4096
  const MAX_CHANGES: nat := 1024
  const MAX_PATH: nat := 512

  // ----- One change -----

  /** A relative path in normal form that cannot leave the root. */
  predicate SafePath(path: string) {
    && 0 < |path| <= MAX_PATH
    && (path == "." || forall part :: part in Split(path, '/') ==> part !in ["", ".", ".."])
    && '\\' !in path
    && forall i :: 0 <= i < |path| ==> path[i] >= ' '
  }

  function TrimLeft(s: string): string {
    if s != "" && Space(s[0]) then TrimLeft(s[1..]) else s
  }

  function TrimRight(s: string): string {
    if s != "" && Space(s[|s| - 1]) then TrimRight(s[..|s| - 1]) else s
  }

  predicate ValidChange(c: Change) {
    && SafePath(c.path)
    && c.before != c.after
    && (c.before.Some? ==> Hex(c.before.value, 64))
    && (c.after.Some? ==> Hex(c.after.value, 64))
    && 20 <= |TrimRight(TrimLeft(c.reason))| <= 500
  }

  // ----- The edited inventory -----

  function Get(inventory: Inventory, path: string): Option<string> {
    if path in inventory then Some(inventory[path]) else None
  }

  function Set(inventory: Inventory, path: string, value: Option<string>): Inventory {
    if value.Some? then inventory[path := value.value] else inventory - {path}
  }

  function Edit(inventory: Inventory, changes: seq<Change>): Inventory {
    if changes == [] then inventory else
      var last := changes[|changes| - 1];
      Set(Edit(inventory, changes[..|changes| - 1]), last.path, last.after)
  }

  ghost predicate Names(changes: seq<Change>, path: string) {
    exists i :: 0 <= i < |changes| && changes[i].path == path
  }

  /** Each change is valid, names its own path, and starts from the recorded digest. */
  predicate Fits(inventory: Inventory, changes: seq<Change>) {
    && (forall i :: 0 <= i < |changes| ==>
      ValidChange(changes[i]) && Get(inventory, changes[i].path) == changes[i].before)
    && DistinctPaths(changes)
  }

  lemma {:induction false} EditUnnamed(inventory: Inventory, changes: seq<Change>, path: string)
    requires !Names(changes, path)
    ensures Get(Edit(inventory, changes), path) == Get(inventory, path)
  {
    if changes != [] {
      var k := |changes| - 1;
      assert Names(changes[..k], path) ==> Names(changes, path);
      assert changes[k].path != path;
      EditUnnamed(inventory, changes[..k], path);
    }
  }

  lemma {:induction false} EditNamed(inventory: Inventory, changes: seq<Change>, i: nat)
    requires i < |changes| && DistinctPaths(changes)
    ensures Get(Edit(inventory, changes), changes[i].path) == changes[i].after
  {
    var k := |changes| - 1;
    if i < k {
      EditNamed(inventory, changes[..k], i);
      assert changes[i].path != changes[k].path;
    }
  }

  predicate DistinctPaths(changes: seq<Change>) {
    forall i, j :: 0 <= i < j < |changes| ==> changes[i].path != changes[j].path
  }

  /** With distinct paths, a named path gets its change's digest and every other path keeps its own. */
  lemma EditOf(inventory: Inventory, changes: seq<Change>)
    requires DistinctPaths(changes)
    ensures forall i :: 0 <= i < |changes| ==> Get(Edit(inventory, changes), changes[i].path) == changes[i].after
    ensures forall path :: !Names(changes, path) ==> Get(Edit(inventory, changes), path) == Get(inventory, path)
  {
    forall i | 0 <= i < |changes| ensures Get(Edit(inventory, changes), changes[i].path) == changes[i].after {
      EditNamed(inventory, changes, i);
    }
    forall path | !Names(changes, path) ensures Get(Edit(inventory, changes), path) == Get(inventory, path) {
      EditUnnamed(inventory, changes, path);
    }
  }

  /** The whole check: the bounds, the starting hash, the changes, and the resulting hash. */
  function Applied(hash: Inventory -> string, recorded: Inventory, delta: Delta): Option<Inventory> {
    if 1 <= |recorded| <= MAX_FILES && delta.baseline == hash(recorded) && |delta.changes| <= MAX_CHANGES
       && Fits(recorded, delta.changes) && hash(Edit(recorded, delta.changes)) == delta.current
    then Some(Edit(recorded, delta.changes))
    else None
  }

  /** `apply_chain_delta`; None where it raises. */
  method ApplyChainDelta(hash: Inventory -> string, recorded: Inventory, delta: Delta) returns (r: Option<Inventory>)
    ensures r == Applied(hash, recorded, delta)
  {
    hide ValidChange, Fits, Names, Edit;
    NothingYet(recorded, delta.changes);
    if !(1 <= |recorded| <= MAX_FILES) || delta.baseline != hash(recorded) || |delta.changes| > MAX_CHANGES {
      return None;
    }
    var result, seen: set<string> := recorded, {};
    for i := 0 to |delta.changes|
      invariant result == Edit(recorded, delta.changes[..i])
      invariant Fits(recorded, delta.changes[..i])
      invariant forall path :: path in seen <==> Names(delta.changes[..i], path)
    {
      var change := delta.changes[i];
      EditUnseen(recorded, delta.changes, i);
      if !ValidChange(change) || change.path in seen || Get(result, change.path) != change.before {
        NoFit(recorded, delta.changes, i);
        return None;
      }
      FitsNext(recorded, delta.changes, i);
      seen := seen + {change.path};
      result := Set(result, change.path, change.after);
    }
    assert delta.changes[..|delta.changes|] == delta.changes;
    r := if hash(result) == delta.current then Some(result) else None;
  }

  /** A path not named yet still has its recorded digest. */
  lemma EditUnseen(recorded: Inventory, changes: seq<Change>, i: nat)
    requires i < |changes|
    ensures !Names(changes[..i], changes[i].path) ==>
              Get(Edit(recorded, changes[..i]), changes[i].path) == Get(recorded, changes[i].path)
  {
    if !Names(changes[..i], changes[i].path) {
      EditUnnamed(recorded, changes[..i], changes[i].path);
    }
  }

  lemma NothingYet(recorded: Inventory, changes: seq<Change>)
    ensures Fits(recorded, changes[..0]) && Edit(recorded, changes[..0]) == recorded
    ensures forall path :: !Names(changes[..0], path)
  {
  }

  lemma NamesNext(changes: seq<Change>, i: nat)
    requires i < |changes|
    ensures forall path :: Names(changes[..i + 1], path) <==> Names(changes[..i], path) || path == changes[i].path
  {
    var front, all := changes[..i], changes[..i + 1];
    assert all == front + [changes[i]];
    forall path ensures Names(all, path) <==> Names(front, path) || path == changes[i].path {
      assert all[i].path == changes[i].path;
      assert forall j :: 0 <= j < i ==> all[j] == front[j];
    }
  }

  lemma FitsNext(recorded: Inventory, changes: seq<Change>, i: nat)
    requires i < |changes| && Fits(recorded, changes[..i])
    requires ValidChange(changes[i]) && !Names(changes[..i], changes[i].path)
             && Get(recorded, changes[i].path) == changes[i].before
    ensures Fits(recorded, changes[..i + 1])
    ensures Edit(recorded, changes[..i + 1]) == Set(Edit(recorded, changes[..i]), changes[i].path, changes[i].after)
    ensures forall path :: Names(changes[..i + 1], path) <==> Names(changes[..i], path) || path == changes[i].path
  {
    hide ValidChange;
    NamesNext(changes, i);
    assert changes[..i + 1] == changes[..i] + [changes[i]] && changes[..i + 1][..i] == changes[..i];
  }

  /** A change that does not fit where it stands spoils the whole delta. */
  lemma NoFit(recorded: Inventory, changes: seq<Change>, i: nat)
    requires i < |changes|
    requires !ValidChange(changes[i]) || Names(changes[..i], changes[i].path)
             || Get(recorded, changes[i].path) != changes[i].before
    ensures !Fits(recorded, changes)
  {
    assert forall j :: 0 <= j < i ==> changes[..i][j] == changes[j];
  }

  // ----- Laws of a delta -----

  lemma SameInventory(a: Inventory, b: Inventory)
    requires forall path :: Get(a, path) == Get(b, path)
    ensures a == b
  {
    forall path ensures path in a <==> path in b {
      assert Get(a, path) == Get(b, path);
    }
    forall path | path in a ensures a[path] == b[path] {
      assert Get(a, path) == Get(b, path);
    }
  }

  /** `other` lists the same changes in another order. */
  ghost predicate Reordering(changes: seq<Change>, other: seq<Change>) {
    multiset(changes) == multiset(other)
  }

  ghost function PathSet(changes: seq<Change>): set<string> {
    set c | c in changes :: c.path
  }

  lemma {:induction false} DistinctBySize(changes: seq<Change>)
    ensures |PathSet(changes)| <= |changes|
    ensures DistinctPaths(changes) <==> |PathSet(changes)| == |changes|
  {
    if changes != [] {
      var k := |changes| - 1;
      DistinctBySize(changes[..k]);
      OneMore(changes[..k], changes[k]);
      assert changes == changes[..k] + [changes[k]];
    }
  }

  lemma OneMore(front: seq<Change>, last: Change)
    ensures PathSet(front + [last]) == PathSet(front) + {last.path}
    ensures DistinctPaths(front + [last]) <==> DistinctPaths(front) && last.path !in PathSet(front)
  {
    var all := front + [last];
    assert all[..|front|] == front;
    assert DistinctPaths(all) ==> DistinctPaths(front);
    if c :| c in front && c.path == last.path {
      var i :| 0 <= i < |front| && front[i] == c;
      assert all[i].path == all[|front|].path;
    }
  }

  lemma ReorderingKeepsFit(inventory: Inventory, changes: seq<Change>, other: seq<Change>)
    requires Reordering(changes, other) && Fits(inventory, changes)
    ensures Fits(inventory, other)
  {
    assert |changes| == |multiset(changes)| == |multiset(other)| == |other|;
    assert forall c :: c in changes <==> c in multiset(other);
    assert PathSet(changes) == PathSet(other);
    DistinctBySize(changes);
    DistinctBySize(other);
    forall i | 0 <= i < |other| ensures ValidChange(other[i]) && Get(inventory, other[i].path) == other[i].before {
      assert other[i] in multiset(changes);
      var j :| 0 <= j < |changes| && changes[j] == other[i];
    }
  }

  lemma ReorderingKeepsEdit(inventory: Inventory, changes: seq<Change>, other: seq<Change>)
    requires Reordering(changes, other) && DistinctPaths(changes) && DistinctPaths(other)
    ensures Edit(inventory, changes) == Edit(inventory, other)
  {
    EditOf(inventory, changes);
    EditOf(inventory, other);
    forall path ensures Get(Edit(inventory, changes), path) == Get(Edit(inventory, other), path) {
      if Names(changes, path) {
        var i :| 0 <= i < |changes| && changes[i].path == path;
        assert changes[i] in multiset(other);
        var j :| 0 <= j < |other| && other[j] == changes[i];
      } else {
        forall j | 0 <= j < |other| ensures other[j].path != path {
          assert other[j] in multiset(changes);
        }
      }
    }
    SameInventory(Edit(inventory, changes), Edit(inventory, other));
  }

  /** Applying a delta, successfully or not, does not depend on the order of its changes. */
  lemma OrderDoesNotMatter(hash: Inventory -> string, recorded: Inventory, delta: Delta, other: seq<Change>)
    requires Reordering(delta.changes, other)
    ensures Applied(hash, recorded, delta) == Applied(hash, recorded, delta.(changes := other))
  {
    assert |delta.changes| == |multiset(delta.changes)| == |multiset(other)| == |other|;
    if Fits(recorded, delta.changes) {
      ReorderingKeepsFit(recorded, delta.changes, other);
      ReorderingKeepsEdit(recorded, delta.changes, other);
    } else if Fits(recorded, other) {
      ReorderingKeepsFit(recorded, other, delta.changes);
    }
  }

  /** The delta read backwards. */
  function Reversed(delta: Delta): Delta {
    Delta(delta.current, delta.baseline,
          seq(|delta.changes|, i requires 0 <= i < |delta.changes| =>
            var c := delta.changes[i]; Change(c.path, c.after, c.before, c.reason)))
  }

  lemma ReversedEdit(inventory: Inventory, delta: Delta)
    requires Fits(inventory, delta.changes)
    ensures Fits(Edit(inventory, delta.changes), Reversed(delta).changes)
    ensures Edit(Edit(inventory, delta.changes), Reversed(delta).changes) == inventory
  {
    var there, back := Edit(inventory, delta.changes), Reversed(delta).changes;
    EditOf(inventory, delta.changes);
    assert DistinctPaths(back);
    EditOf(there, back);
    forall path ensures Get(Edit(there, back), path) == Get(inventory, path) {
      if Names(delta.changes, path) {
        var i :| 0 <= i < |delta.changes| && delta.changes[i].path == path;
        assert back[i].path == path;
      } else {
        assert !Names(back, path);
      }
    }
    SameInventory(Edit(there, back), inventory);
  }

  /** The reversed delta undoes an applied one exactly when the result is within the inventory bounds. */
  lemma ReversedUndoes(hash: Inventory -> string, recorded: Inventory, delta: Delta, result: Inventory)
    requires Applied(hash, recorded, delta) == Some(result)
    ensures Applied(hash, result, Reversed(delta)) == Some(recorded) <==> 1 <= |result| <= MAX_FILES
    ensures Applied(hash, result, Reversed(delta)).Some? <==> 1 <= |result| <= MAX_FILES
  {
    ReversedEdit(recorded, delta);
  }

  // ----- What a single change must be -----

  /** One path component: not empty, no slash, and not one that means another directory. */
  ghost predicate Component(name: string) {
    name != "" && '/' !in name && name != "." && name != ".."
  }

  ghost predicate GoesDownBy(path: string, names: seq<string>) {
    names != [] && path == Join(names, '/') && forall name :: name in names ==> Component(name)
  }

  /** A path names the root itself, or goes down by its components; no backslash and no control character is in it. */
  ghost predicate GoesDown(path: string) {
    && 1 <= |path| <= 512
    && (path == "." || exists names :: GoesDownBy(path, names))
    && forall c :: c in path ==> c != '\\' && c as int >= 32
  }

  lemma PartsMeaning(path: string)
    ensures (forall part :: part in Split(path, '/') ==> part !in ["", ".", ".."])
            <==> exists names :: GoesDownBy(path, names)
  {
    hide Split, Join;
    JoinSplit(path, '/');
    if forall part :: part in Split(path, '/') ==> part !in ["", ".", ".."] {
      assert GoesDownBy(path, Split(path, '/'));
    }
    if names :| GoesDownBy(path, names) {
      SplitJoin(names, '/');
    }
  }

  lemma SafePathMeaning(path: string)
    ensures SafePath(path) <==> GoesDown(path)
  {
    hide Split, Join, GoesDownBy;
    PartsMeaning(path);
    assert forall i :: 0 <= i < |path| ==> path[i] in path;
  }

  /** Stripping leaves the part between the white space at both ends. */
  ghost predicate Stripped(text: string, core: string) {
    && (exists a, b :: text == a + core + b && Blank(a) && Blank(b))
    && (core != "" ==> !Space(core[0]) && !Space(core[|core| - 1]))
  }

  ghost predicate Blank(s: string) {
    forall i :: 0 <= i < |s| ==> Space(s[i])
  }

  lemma {:induction false} TrimLeftMeaning(s: string) returns (a: string)
    ensures s == a + TrimLeft(s) && Blank(a) && (TrimLeft(s) != "" ==> !Space(TrimLeft(s)[0]))
  {
    if s != "" && Space(s[0]) {
      var rest := TrimLeftMeaning(s[1..]);
      a := [s[0]] + rest;
    } else {
      a := "";
    }
  }

  lemma {:induction false} TrimRightMeaning(s: string) returns (b: string)
    ensures s == TrimRight(s) + b && Blank(b) && (TrimRight(s) != "" ==> !Space(TrimRight(s)[|TrimRight(s)| - 1]))
  {
    if s != "" && Space(s[|s| - 1]) {
      var rest := TrimRightMeaning(s[..|s| - 1]);
      b := rest + [s[|s| - 1]];
    } else {
      b := "";
    }
  }

  lemma StripMeaning(s: string)
    ensures Stripped(s, TrimRight(TrimLeft(s)))
  {
    var a := TrimLeftMeaning(s);
    var b := TrimRightMeaning(TrimLeft(s));
    var core := TrimRight(TrimLeft(s));
    assert s == a + core + b;
    if core != "" {
      assert core[0] == TrimLeft(s)[0];
    }
  }

  ghost predicate Digest(s: string) {
    |s| == 64 && forall i :: 0 <= i < |s| ==> '0' <= s[i] <= '9' || 'a' <= s[i] <= 'f'
  }

  /** A reviewed change: a path below the root, a real change between absence and digests, and a reason of 20 to 500
      characters between the white space at its ends. */
  ghost predicate Reviewed(c: Change) {
    && GoesDown(c.path) && c.before != c.after
    && (c.before.Some? ==> Digest(c.before.value)) && (c.after.Some? ==> Digest(c.after.value))
    && 20 <= |TrimRight(TrimLeft(c.reason))| <= 500
  }

  lemma ValidChangeMeaning(c: Change)
    ensures ValidChange(c) <==> Reviewed(c)
  {
    hide SafePath, GoesDown, TrimLeft, TrimRight;
    SafePathMeaning(c.path);
  }

  /** Applying a delta, over its fields: the bounds and the two digests hold, no path is named twice, every change is
      reviewed and finds what it expects, and the result differs from the recorded inventory by exactly the changes. */
  lemma AppliedMeaning(hash: Inventory -> string, recorded: Inventory, delta: Delta, result: Inventory)
    ensures Applied(hash, recorded, delta) == Some(result) <==>
              && 1 <= |recorded| <= 4096 && |delta.changes| <= 1024
              && delta.baseline == hash(recorded) && delta.current == hash(result)
              && (forall i, j :: 0 <= i < j < |delta.changes| ==> delta.changes[i].path != delta.changes[j].path)
              && (forall i :: 0 <= i < |delta.changes| ==>
                    Reviewed(delta.changes[i]) && Holds(recorded, delta.changes[i].path, delta.changes[i].before))
              && Differs(recorded, delta.changes, result)
  {
    hide Reviewed, ValidChange, Differs, Edit, Get, Holds;
    forall i | 0 <= i < |delta.changes|
      ensures ValidChange(delta.changes[i]) <==> Reviewed(delta.changes[i])
      ensures Get(recorded, delta.changes[i].path) == delta.changes[i].before <==>
              Holds(recorded, delta.changes[i].path, delta.changes[i].before)
    {
      ValidChangeMeaning(delta.changes[i]);
      HoldsMeaning(recorded, delta.changes[i].path, delta.changes[i].before);
    }
    if DistinctPaths(delta.changes) {
      DiffersIffEdited(recorded, delta.changes, result);
    }
  }

  /** What each change says now holds, and everything else is as recorded. */
  ghost predicate Differs(recorded: Inventory, changes: seq<Change>, result: Inventory) {
    && (forall i :: 0 <= i < |changes| ==> Holds(result, changes[i].path, changes[i].after))
    && (forall path :: (forall i :: 0 <= i < |changes| ==> changes[i].path != path) ==>
          (path in result <==> path in recorded) && (path in result ==> result[path] == recorded[path]))
  }

  lemma HoldsMeaning(inventory: Inventory, path: string, value: Option<string>)
    ensures Holds(inventory, path, value) <==> Get(inventory, path) == value
  {
  }

  lemma DiffersIffEdited(recorded: Inventory, changes: seq<Change>, result: Inventory)
    requires DistinctPaths(changes)
    ensures Differs(recorded, changes, result) <==> result == Edit(recorded, changes)
  {
    hide Edit;
    EditOf(recorded, changes);
    if Differs(recorded, changes, result) {
      forall path ensures Get(result, path) == Get(Edit(recorded, changes), path) {
        if Names(changes, path) {
          var i :| 0 <= i < |changes| && changes[i].path == path;
          assert Holds(result, changes[i].path, changes[i].after);
        }
      }
      SameInventory(result, Edit(recorded, changes));
    }
    if result == Edit(recorded, changes) {
      forall i | 0 <= i < |changes| ensures Holds(result, changes[i].path, changes[i].after) {
        assert Get(result, changes[i].path) == changes[i].after;
      }
      forall path | forall i :: 0 <= i < |changes| ==> changes[i].path != path
        ensures (path in result <==> path in recorded) && (path in result ==> result[path] == recorded[path])
      {
        assert !Names(changes, path) && Get(result, path) == Get(recorded, path);
      }
    }
  }

  /** The inventory has this digest at the path, or nothing. */
  ghost predicate Holds(inventory: Inventory, path: string, value: Option<string>) {
    if value.Some? then path in inventory && inventory[path] == value.value else path !in inventory
  }

  /** Removing the only recorded file applies, and then cannot be undone. */
  lemma EmptyingCannotBeUndone(hash: Inventory -> string, c: Change)
    requires ValidChange(c) && c.before.Some? && c.after == None
    ensures var recorded := map[c.path := c.before.value];
            var delta := Delta(hash(recorded), hash(map[]), [c]);
            Applied(hash, recorded, delta) == Some(map[]) && Applied(hash, map[], Reversed(delta)) == None
  {
    var recorded := map[c.path := c.before.value];
    assert [c][..0] == [];
    assert Edit(recorded, [c]) == map[];
    assert |recorded| == 1;
  }

  /** A concrete change of that kind. */
  lemma ARemoval()
    ensures ValidChange(Change("m", Some(seq(64, _ => 'a')), None, "generated file is gone"))
  {
    hide SafePath, TrimLeft, TrimRight;
    ShortPath();
    Trimmed("generated file is gone");
  }

  lemma ShortPath()
    ensures SafePath("m")
  {
    SplitPlain("m", '/');
  }

  lemma Trimmed(s: string)
    requires s != "" && !Space(s[0]) && !Space(s[|s| - 1])
    ensures TrimLeft(s) == s && TrimRight(s) == s
  {
  }

  /** Every removal is of a path that was recorded. */
  lemma RemovesOnlyRecorded(hash: Inventory -> string, recorded: Inventory, delta: Delta, i: nat)
    requires Applied(hash, recorded, delta).Some? && i < |delta.changes| && delta.changes[i].after == None
    ensures delta.changes[i].path in recorded && delta.changes[i].path !in Applied(hash, recorded, delta).value
  {
    EditOf(recorded, delta.changes);
    assert ValidChange(delta.changes[i]) && Get(recorded, delta.changes[i].path) == delta.changes[i].before;
    assert Get(Edit(recorded, delta.changes), delta.changes[i].path) == None;
  }

  /** How a delta acts on an inventory, for a given digest function. */
  function Action(hash: Inventory -> string): (Inventory, Delta) -> Option<Inventory> {
    (x, d) => Applied(hash, x, d)
  }

  /** The action changes the paths a delta names, every one of them, and no others. */
  ghost predicate Exact(apply: (Inventory, Delta) -> Option<Inventory>) {
    && (forall x, d, path :: apply(x, d).Some? && !Names(d.changes, path) ==>
      Get(apply(x, d).value, path) == Get(x, path))
    && (forall x, d, path :: apply(x, d).Some? && Names(d.changes, path) ==>
      Get(apply(x, d).value, path) != Get(x, path))
  }

  lemma ActionIsExact(hash: Inventory -> string)
    ensures Exact(Action(hash))
  {
    var apply := Action(hash);
    forall x, d, path | apply(x, d).Some? && !Names(d.changes, path)
      ensures Get(apply(x, d).value, path) == Get(x, path) {
      EditUnnamed(x, d.changes, path);
    }
    forall x, d, path | apply(x, d).Some? && Names(d.changes, path)
      ensures Get(apply(x, d).value, path) != Get(x, path) {
      var i :| 0 <= i < |d.changes| && d.changes[i].path == path;
      EditNamed(x, d.changes, i);
      assert ValidChange(d.changes[i]) && Get(x, d.changes[i].path) == d.changes[i].before;
    }
  }
}
