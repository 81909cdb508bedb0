// `merge_preserving_foreign`: a JSON merge that keeps what the desired object
// does not address, with list entries matched by their name field.

module Merging {
  import opened Base
  import opened NamedLists

  datatype Json =
    | Null
    | Bool(flag: bool)
    | Number(number: int)
    | Text(text: string)
    | List(items: seq<Json>)
    | Dict(fields: map<string, Json>)

  predicate Named(j: Json) {
    j.Dict? && "name" in j.fields && j.fields["name"].Text?
  }

  function NameOf(j: Json): string
    requires Named(j)
  {
    j.fields["name"].text
  }

  predicate AllNamed(items: seq<Json>) {
    forall i :: 0 <= i < |items| ==> Named(items[i])
  }

  function NamesOf(items: seq<Json>): (names: seq<string>)
    requires AllNamed(items)
    ensures |names| == |items| && forall i :: 0 <= i < |items| ==> names[i] == NameOf(items[i])
  {
    seq(|items|, i requires 0 <= i < |items| => NameOf(items[i]))
  }

  /** Both values are lists of named entries, and the desired one is not empty. */
  predicate ByName(c: Json, d: Json) {
    c.List? && d.List? && d.items != [] && AllNamed(d.items) && AllNamed(c.items)
  }

  /** The merged object; None where the source raises an IndexError. */
  function Merge(c: Json, d: Json): Option<Json>
    decreases d, 1
  {
    if c.Dict? && d.Dict? then
      if forall n :: n in d.fields && n in c.fields ==> Merge(c.fields[n], d.fields[n]).Some? then
        Some(Dict(map n | n in c.fields.Keys + d.fields.Keys ::
          if n !in d.fields then c.fields[n]
          else if n !in c.fields then d.fields[n]
          else Merge(c.fields[n], d.fields[n]).value))
      else None
    else if ByName(c, d) then
      var s := After(c.items, NamesOf(c.items), d.items, NamesOf(d.items), Subs(c, d), |d.items|);
      if s.Some? then Some(List(s.value.merged)) else None
    else Some(d)
  }

  /** Each desired entry merged into the current entry of its name. */
  function Subs(c: Json, d: Json): (subs: seq<Option<Json>>)
    requires ByName(c, d)
    ensures |subs| == |d.items|
    decreases d, 0
  {
    var known := NamesOf(c.items);
    seq(|d.items|, k requires 0 <= k < |d.items| =>
      if NameOf(d.items[k]) in known then Merge(c.items[Last(known, NameOf(d.items[k]))], d.items[k]) else None)
  }

  /** The function as the source writes it, over local copies. */
  method MergePreservingForeign(c: Json, d: Json) returns (r: Option<Json>)
    ensures r == Merge(c, d)
    decreases d, 1
  {
    if c.Dict? && d.Dict? {
      r := MergeFields(c, d);
    } else if ByName(c, d) {
      r := MergeEntries(c, d);
    } else {
      r := Some(d);
    }
  }

  method MergeFields(c: Json, d: Json) returns (r: Option<Json>)
    requires c.Dict? && d.Dict?
    ensures r == Merge(c, d)
    decreases d, 0
  {
    var merged, todo := c.fields, d.fields.Keys;
    while todo != {}
      invariant todo <= d.fields.Keys && merged.Keys == c.fields.Keys + (d.fields.Keys - todo)
      invariant forall n :: n in merged ==> n in c.fields || n in d.fields
      invariant forall n :: n in c.fields && (n !in d.fields || n in todo) ==> merged[n] == c.fields[n]
      invariant forall n :: n in d.fields && n !in todo ==>
                  if n in c.fields then Merge(c.fields[n], d.fields[n]) == Some(merged[n]) else merged[n] == d.fields[n]
      decreases todo
    {
      var n :| n in todo;
      todo := todo - {n};
      if n in c.fields {
        var sub := MergePreservingForeign(c.fields[n], d.fields[n]);
        if sub == None {
          return None;
        }
        merged := merged[n := sub.value];
      } else {
        merged := merged[n := d.fields[n]];
      }
    }
    r := Some(Dict(merged));
    assert merged == Merge(c, d).value.fields;
  }

  /** The state of the loop in `MergeEntries` after `k` turns. */
  ghost predicate LoopState(c: Json, d: Json, k: nat, s: State<Json>)
    requires ByName(c, d) && k <= |d.items|
  {
    After(c.items, NamesOf(c.items), d.items, NamesOf(d.items), Subs(c, d), k) == Some(s)
  }

  /** What one turn reads, and that an exception in it is an exception of the whole. */
  lemma LoopTurn(c: Json, d: Json, k: nat, s: State<Json>)
    requires ByName(c, d) && k < |d.items| && LoopState(c, d, k, s)
    ensures var n := NameOf(d.items[k]);
            var next := Step(|c.items|, n, d.items[k], Subs(c, d)[k], s);
            && (next.None? ==> Merge(c, d) == None)
            && (next.Some? ==> LoopState(c, d, k + 1, next.value))
            && (n in s.positions && s.positions[n] < |c.items| ==>
                  s.positions[n] < |s.merged| && Subs(c, d)[k] == Merge(c.items[s.positions[n]], d.items[k]))
  {
    var known, names, subs := NamesOf(c.items), NamesOf(d.items), Subs(c, d);
    AfterMeaning(c.items, known, d.items, names, subs, k);
    AfterMeaning(c.items, known, d.items, names, subs, |names|);
    StepKeeps(c.items, known, d.items, names, subs, k, s);
  }

  method MergeEntries(c: Json, d: Json) returns (r: Option<Json>)
    requires ByName(c, d)
    ensures r == Merge(c, d)
    decreases d, 0
  {
    var names := NamesOf(d.items);
    var merged: seq<Json> := c.items;
    var positions: map<string, nat> := Positions(NamesOf(c.items));
    for k := 0 to |names|
      invariant LoopState(c, d, k, State(merged, positions))
    {
      LoopTurn(c, d, k, State(merged, positions));
      var item := d.items[k];
      if names[k] !in positions {
        merged, positions := merged + [item], positions[names[k] := |merged|];
      } else {
        var index := positions[names[k]];
        if index >= |c.items| {
          return None;
        }
        var sub := MergePreservingForeign(c.items[index], item);
        if sub == None {
          return None;
        }
        merged := merged[index := sub.value];
      }
    }
    r := Some(List(merged));
  }

  // ----- When the merge raises -----

  /** The condition a caller can check before merging: some desired list repeats a name that the list it is
      merged into lacks. */
  predicate Trips(c: Json, d: Json)
    decreases d
  {
    if c.Dict? && d.Dict? then exists n :: n in d.fields && n in c.fields && Trips(c.fields[n], d.fields[n])
    else if ByName(c, d) then
      var known, names := NamesOf(c.items), NamesOf(d.items);
      exists k :: 0 <= k < |d.items| &&
        if names[k] in known then Trips(c.items[Last(known, names[k])], d.items[k]) else names[k] in names[..k]
    else false
  }

  /** The merge raises exactly when the condition says so. */
  lemma {:induction false} MergeRaisesIff(c: Json, d: Json)
    ensures Merge(c, d).None? <==> Trips(c, d)
    decreases d
  {
    if c.Dict? && d.Dict? {
      forall n | n in d.fields && n in c.fields
        ensures Merge(c.fields[n], d.fields[n]).None? <==> Trips(c.fields[n], d.fields[n]) {
        MergeRaisesIff(c.fields[n], d.fields[n]);
      }
    } else if ByName(c, d) {
      var known, names, subs := NamesOf(c.items), NamesOf(d.items), Subs(c, d);
      AfterMeaning(c.items, known, d.items, names, subs, |d.items|);
      forall k | 0 <= k < |d.items|
        ensures TripsAt(known, names, subs, k) <==>
                if names[k] in known then Trips(c.items[Last(known, names[k])], d.items[k]) else names[k] in names[..k]
      {
        if names[k] in known {
          MergeRaisesIff(c.items[Last(known, names[k])], d.items[k]);
        }
      }
    }
  }

  /** Every list of named entries inside a value has distinct names. */
  ghost predicate Distinct(j: Json)
    decreases j
  {
    match j
    case List(items) =>
      && (forall i :: 0 <= i < |items| ==> Distinct(items[i]))
      && (AllNamed(items) ==> forall i, k :: 0 <= i < k < |items| ==> NameOf(items[i]) != NameOf(items[k]))
    case Dict(fields) => forall n :: n in fields ==> Distinct(fields[n])
    case _ => true
  }

  lemma {:induction false} DistinctNeverTrips(c: Json, d: Json)
    requires Distinct(d)
    ensures !Trips(c, d)
    decreases d
  {
    if c.Dict? && d.Dict? {
      forall n | n in d.fields && n in c.fields ensures !Trips(c.fields[n], d.fields[n]) {
        DistinctNeverTrips(c.fields[n], d.fields[n]);
      }
    } else if ByName(c, d) {
      var known, names := NamesOf(c.items), NamesOf(d.items);
      forall k | 0 <= k < |d.items|
        ensures !(if names[k] in known then Trips(c.items[Last(known, names[k])], d.items[k])
                else names[k] in names[..k])
      {
        if names[k] in known {
          DistinctNeverTrips(c.items[Last(known, names[k])], d.items[k]);
        }
      }
    }
  }

  /** A repeated name that the current list lacks does raise, even though each list alone is well formed. */
  lemma RepeatedNameRaises()
    ensures var entry := Dict(map["name" := Text("proxy")]);
            Merge(List([]), List([entry, entry])).None?
  {
    var entry := Dict(map["name" := Text("proxy")]);
    var d := List([entry, entry]);
    assert NamesOf(d.items)[1] in NamesOf(d.items)[..1] by { assert NamesOf(d.items)[..1][0] == "proxy"; }
    assert Trips(List([]), d);
    MergeRaisesIff(List([]), d);
  }

  // ----- Merging twice is merging once -----

  /** A merge of two named entries with the same name keeps that name. */
  lemma NameKept(c: Json, d: Json)
    requires Named(c) && Named(d) && NameOf(c) == NameOf(d) && Merge(c, d).Some?
    ensures Named(Merge(c, d).value) && NameOf(Merge(c, d).value) == NameOf(d)
  {
    assert Merge(c.fields["name"], d.fields["name"]) == Some(d.fields["name"]);
  }

  /** A current entry keeps its name. */
  lemma EntryNamed(c: Json, d: Json, i: nat, entry: Json)
    requires ByName(c, d) && i < |c.items|
    requires EntryIs(c.items, NamesOf(c.items), NamesOf(d.items), Subs(c, d), |d.items|, i, entry)
    ensures Named(entry) && NameOf(entry) == NameOf(c.items[i])
  {
    var known, names := NamesOf(c.items), NamesOf(d.items);
    assert names[..|d.items|] == names;
    if known[i] in names && Last(known, known[i]) == i {
      NameKept(c.items[i], d.items[Last(names, known[i])]);
    }
  }

  /** What merging two lists of named entries does: the current entries at their places, then the fresh ones. */
  lemma MergedList(c: Json, d: Json, merged: seq<Json>)
    requires ByName(c, d) && Merge(c, d) == Some(List(merged))
    ensures var known, names, n := NamesOf(c.items), NamesOf(d.items), |d.items|;
            && |merged| >= |c.items| && merged[|c.items|..] == Fresh(d.items, names, known, n)
            && forall i :: 0 <= i < |c.items| ==> EntryIs(c.items, known, names, Subs(c, d), n, i, merged[i])
  {
    AfterMeaning(c.items, NamesOf(c.items), d.items, NamesOf(d.items), Subs(c, d), |d.items|);
    hide After, EntryIs, TripsAt;
  }

  /** The merged list is still a list of named entries: the current names, then the fresh ones. */
  lemma MergedNames(c: Json, d: Json, merged: seq<Json>)
    requires ByName(c, d) && Merge(c, d) == Some(List(merged))
    ensures AllNamed(merged) && |merged| >= |c.items|
    ensures NamesOf(merged) == NamesOf(c.items) + Fresh(NamesOf(d.items), NamesOf(d.items), NamesOf(c.items), |d.items|)
    ensures merged[|c.items|..] == Fresh(d.items, NamesOf(d.items), NamesOf(c.items), |d.items|)
  {
    hide Merge, Subs, EntryIs, Fresh, Named, NameOf, Last;
    MergedList(c, d, merged);
    FreshNames(d.items, NamesOf(c.items));
    forall i | 0 <= i < |c.items| ensures Named(merged[i]) && NameOf(merged[i]) == NamesOf(c.items)[i] {
      EntryNamed(c, d, i, merged[i]);
    }
    var added := Fresh(d.items, NamesOf(d.items), NamesOf(c.items), |d.items|);
    forall i | |c.items| <= i < |merged|
      ensures Named(merged[i]) && NameOf(merged[i]) == NamesOf(added)[i - |c.items|]
    {
      assert merged[i] == added[i - |c.items|];
    }
  }

  lemma FreshNames(items: seq<Json>, known: seq<string>)
    requires AllNamed(items)
    ensures var names, n := NamesOf(items), |items|;
            && AllNamed(Fresh(items, names, known, n))
            && NamesOf(Fresh(items, names, known, n)) == Fresh(names, names, known, n)
  {
    hide Fresh;
    FreshMeaning(items, NamesOf(items), known, |items|);
  }

  /** Where a current name ends up: at its own place, merged with the last desired entry of that name if there is one.
      */
  lemma FindKnown(c: Json, d: Json, merged: seq<Json>, n: string)
    requires ByName(c, d) && Merge(c, d) == Some(List(merged)) && n in NamesOf(c.items)
    ensures AllNamed(merged) && n in NamesOf(merged)
    ensures var known, names := NamesOf(c.items), NamesOf(d.items);
            var i := Last(known, n);
            && Last(NamesOf(merged), n) == i < |merged|
            && (if n in names then Merge(c.items[i], d.items[Last(names, n)]) == Some(merged[i])
              else merged[i] == c.items[i])
  {
    var known, names, subs, k := NamesOf(c.items), NamesOf(d.items), Subs(c, d), |d.items|;
    MergedNames(c, d, merged);
    MergedList(c, d, merged);
    FreshMeaning(names, names, known, k);
    LastKept(known, Fresh(names, names, known, k), n);
    assert names[..k] == names;
    assert EntryIs(c.items, known, names, subs, k, Last(known, n), merged[Last(known, n)]);
  }

  /** Where a desired entry with a new name ends up. */
  lemma FindFresh(c: Json, d: Json, merged: seq<Json>, k: nat)
    requires ByName(c, d) && Merge(c, d) == Some(List(merged))
    requires forall i, j :: 0 <= i < j < |d.items| ==> NamesOf(d.items)[i] != NamesOf(d.items)[j]
    requires k < |d.items| && NameOf(d.items[k]) !in NamesOf(c.items)
    ensures AllNamed(merged) && NameOf(d.items[k]) in NamesOf(merged)
    ensures merged[Last(NamesOf(merged), NameOf(d.items[k]))] == d.items[k]
  {
    hide Merge, Fresh, Last, NameOf;
    var known, names := NamesOf(c.items), NamesOf(d.items);
    MergedNames(c, d, merged);
    FindAdded(d.items, names, known, k);
    var i := Last(NamesOf(merged), names[k]);
    assert merged[i] == merged[|c.items|..][i - |c.items|];
  }

  /** Merging a value into itself gives it back. */
  lemma {:induction false} MergeSelf(d: Json)
    requires Distinct(d)
    ensures Merge(d, d) == Some(d)
    decreases d
  {
    if d.Dict? {
      forall n | n in d.fields ensures Merge(d.fields[n], d.fields[n]) == Some(d.fields[n]) {
        MergeSelf(d.fields[n]);
      }
      assert Merge(d, d).value.fields == d.fields;
    } else if ByName(d, d) {
      var names, subs := NamesOf(d.items), Subs(d, d);
      forall k | 0 <= k < |d.items| ensures subs[k] == Some(d.items[Last(names, names[k])]) {
        assert Last(names, names[k]) == k;
        MergeSelf(d.items[k]);
      }
      PassChangesNothing(d.items, names, d.items, names, subs, |d.items|);
    }
  }

  /** Applying the same desired object again changes nothing. */
  lemma {:induction false} MergeTwice(c: Json, d: Json, m: Json)
    requires Distinct(d) && Merge(c, d) == Some(m)
    ensures Merge(m, d) == Some(m)
    decreases d
  {
    if c.Dict? && d.Dict? {
      forall n | n in d.fields ensures Merge(m.fields[n], d.fields[n]) == Some(m.fields[n]) {
        if n in c.fields {
          MergeTwice(c.fields[n], d.fields[n], m.fields[n]);
        } else {
          MergeSelf(d.fields[n]);
        }
      }
      assert Merge(m, d).value.fields == m.fields;
    } else if ByName(c, d) {
      MergeTwiceByName(c, d, m);
    } else {
      MergeSelf(d);
    }
  }

  /** In a merged list every desired entry finds its name, at an entry that merging it again leaves alone. */
  lemma {:induction false} EntrySettled(c: Json, d: Json, m: Json, k: nat)
    requires ByName(c, d) && Distinct(d) && Merge(c, d) == Some(m) && k < |d.items|
    ensures m.List? && AllNamed(m.items) && NameOf(d.items[k]) in NamesOf(m.items)
    ensures var entry := m.items[Last(NamesOf(m.items), NameOf(d.items[k]))]; Merge(entry, d.items[k]) == Some(entry)
    decreases d, 0
  {
    var known, names := NamesOf(c.items), NamesOf(d.items);
    if names[k] in known {
      FindKnown(c, d, m.items, names[k]);
      assert Last(names, names[k]) == k;
      var i := Last(known, names[k]);
      MergeTwice(c.items[i], d.items[k], m.items[i]);
    } else {
      FindFresh(c, d, m.items, k);
      MergeSelf(d.items[k]);
    }
  }

  lemma {:induction false} MergeTwiceByName(c: Json, d: Json, m: Json)
    requires ByName(c, d) && Distinct(d) && Merge(c, d) == Some(m)
    ensures Merge(m, d) == Some(m)
    decreases d, 1
  {
    MergedNames(c, d, m.items);
    var names, subs := NamesOf(d.items), Subs(m, d);
    forall k | 0 <= k < |names|
      ensures names[k] in NamesOf(m.items) && subs[k] == Some(m.items[Last(NamesOf(m.items), names[k])]) {
      EntrySettled(c, d, m, k);
    }
    PassChangesNothing(m.items, NamesOf(m.items), d.items, names, subs, |names|);
  }

  // ----- What the merged object contains -----

  /** One step into a value: a field, or the list entry with a name. */
  datatype PathStep = Key(key: string) | Item(name: string)

  function Lookup(j: Json, path: seq<PathStep>): Option<Json>
    decreases path
  {
    if path == [] then Some(j) else
      match path[0]
      case Key(n) => if j.Dict? && n in j.fields then Lookup(j.fields[n], path[1..]) else None
      case Item(n) =>
        if j.List? && j.items != [] && AllNamed(j.items) && n in NamesOf(j.items)
        then Lookup(j.items[Last(NamesOf(j.items), n)], path[1..])
        else None
  }

  /** A value the merge takes over whole. */
  predicate Leaf(j: Json) {
    !j.Dict? && !(j.List? && j.items != [] && AllNamed(j.items))
  }

  /** Every leaf of the desired object is in the result. */
  lemma {:induction false} LeafWins(c: Json, d: Json, m: Json, path: seq<PathStep>)
    requires Distinct(d) && Merge(c, d) == Some(m)
    requires Lookup(d, path).Some? && Leaf(Lookup(d, path).value)
    ensures Lookup(m, path) == Lookup(d, path)
    decreases path
  {
    if path != [] {
      var rest := path[1..];
      if c.Dict? && d.Dict? {
        var n := path[0].key;
        if n in c.fields {
          LeafWins(c.fields[n], d.fields[n], m.fields[n], rest);
        }
      } else if ByName(c, d) {
        var n := path[0].name;
        var k := Last(NamesOf(d.items), n);
        if n in NamesOf(c.items) {
          FindKnown(c, d, m.items, n);
          var i := Last(NamesOf(c.items), n);
          LeafWins(c.items[i], d.items[k], m.items[i], rest);
        } else {
          FindFresh(c, d, m.items, k);
        }
      }
    }
  }

  /** The desired object says nothing about this part of the current one. */
  predicate Unaddressed(c: Json, d: Json, path: seq<PathStep>)
    decreases path
  {
    path != [] &&
    match path[0]
    case Key(n) => c.Dict? && d.Dict? && n in c.fields
      && (n in d.fields ==> Unaddressed(c.fields[n], d.fields[n], path[1..]))
    case Item(n) =>
      && ByName(c, d) && n in NamesOf(c.items)
      && (n in NamesOf(d.items) ==>
            Unaddressed(c.items[Last(NamesOf(c.items), n)], d.items[Last(NamesOf(d.items), n)], path[1..]))
  }

  /** Whatever the desired object does not address survives unchanged. */
  lemma {:induction false} ForeignSurvives(c: Json, d: Json, m: Json, path: seq<PathStep>)
    requires Merge(c, d) == Some(m) && Unaddressed(c, d, path)
    ensures Lookup(m, path) == Lookup(c, path)
    decreases path
  {
    match path[0]
    case Key(n) =>
      if n in d.fields {
        ForeignSurvives(c.fields[n], d.fields[n], m.fields[n], path[1..]);
      }
    case Item(n) =>
      FindKnown(c, d, m.items, n);
      if n in NamesOf(d.items) {
        var i := Last(NamesOf(c.items), n);
        ForeignSurvives(c.items[i], d.items[Last(NamesOf(d.items), n)], m.items[i], path[1..]);
      }
  }
}
