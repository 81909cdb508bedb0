// Matching two lists of named entries, as the merge of database controllers does it.
// The entries themselves are arbitrary; only their names matter here.

module NamedLists {
  import opened Base

  /** The last index that carries a name. */
  function Last(names: seq<string>, n: string): (i: nat)
    requires n in names
    ensures i < |names| && names[i] == n
    ensures forall j :: i < j < |names| ==> names[j] != n
  {
    if names[|names| - 1] == n then |names| - 1 else Last(names[..|names| - 1], n)
  }

  /** The dictionary from name to index; a repeated name keeps its last index. */
  function Positions(names: seq<string>): map<string, nat> {
    map n | n in names :: Last(names, n)
  }

  datatype State<T> = State(merged: seq<T>, positions: map<string, nat>)

  /** One turn of the merge loop: append an entry with a new name, or replace the entry with its name.
      `sub` is the entry merged into the current one; None stands for an exception. */
  function Step<T>(length: nat, name: string, item: T, sub: Option<T>, s: State<T>): Option<State<T>> {
    if name !in s.positions then
      Some(State(s.merged + [item], s.positions[name := |s.merged|]))
    // The source indexes the current list, which may be shorter than the merged one.
    else if s.positions[name] >= length || s.positions[name] >= |s.merged| || sub.None? then None
    else Some(State(s.merged[s.positions[name] := sub.value], s.positions))
  }

  /** The loop state after the first `k` desired entries. */
  function After<T>(current: seq<T>, known: seq<string>, desired: seq<T>, names: seq<string>, subs: seq<Option<T>>,
                    k: nat): Option<State<T>>
    requires k <= |desired| == |names| == |subs|
  {
    if k == 0 then Some(State(current, Positions(known))) else
      var before := After(current, known, desired, names, subs, k - 1);
      if before.None? then None else Step(|current|, names[k - 1], desired[k - 1], subs[k - 1], before.value)
  }

  /** Entry `k` cannot be placed: it repeats a name the current list lacks, or its own merge raises. */
  ghost predicate TripsAt<T>(known: seq<string>, names: seq<string>, subs: seq<Option<T>>, k: nat)
    requires k < |names| == |subs|
  {
    if names[k] in known then subs[k].None? else names[k] in names[..k]
  }

  /** The desired entries whose name the current list lacks, in order. */
  function Fresh<T>(desired: seq<T>, names: seq<string>, known: seq<string>, k: nat): seq<T>
    requires k <= |desired| == |names|
  {
    if k == 0 then [] else
      Fresh(desired, names, known, k - 1) + if names[k - 1] in known then [] else [desired[k - 1]]
  }

  /** What the current entry at `i` becomes after `k` desired entries: the last one of its name decides. */
  ghost predicate EntryIs<T>(current: seq<T>, known: seq<string>, names: seq<string>, subs: seq<Option<T>>, k: nat,
                             i: nat, entry: T)
    requires i < |current| == |known| && k <= |names| == |subs|
  {
    if known[i] in names[..k] && Last(known, known[i]) == i then subs[Last(names[..k], known[i])] == Some(entry)
    else entry == current[i]
  }

  ghost predicate StateOk<T>(current: seq<T>, known: seq<string>, desired: seq<T>, names: seq<string>,
                             subs: seq<Option<T>>, k: nat, s: State<T>)
    requires |current| == |known| && k <= |desired| == |names| == |subs|
  {
    && |s.merged| >= |current|
    && s.merged[|current|..] == Fresh(desired, names, known, k)
    && (forall i :: 0 <= i < |current| ==> EntryIs(current, known, names, subs, k, i, s.merged[i]))
    && (forall n :: n in s.positions <==> n in known || n in names[..k])
    && (forall n :: n in s.positions ==>
      if n in known then s.positions[n] == Last(known, n) else |current| <= s.positions[n])
  }

  lemma StepKeeps<T>(current: seq<T>, known: seq<string>, desired: seq<T>, names: seq<string>, subs: seq<Option<T>>,
                     k: nat, s: State<T>)
    requires |current| == |known| && k < |desired| == |names| == |subs|
    requires StateOk(current, known, desired, names, subs, k, s)
    ensures var next := Step(|current|, names[k], desired[k], subs[k], s);
            if TripsAt(known, names, subs, k) then next.None?
            else next.Some? && StateOk(current, known, desired, names, subs, k + 1, next.value)
  {
    hide Last;
    if !TripsAt(known, names, subs, k) {
      var next := Step(|current|, names[k], desired[k], subs[k], s).value;
      assert names[..k + 1] == names[..k] + [names[k]];
      forall i | 0 <= i < |current| ensures EntryIs(current, known, names, subs, k + 1, i, next.merged[i]) {
        EntryStep(current, known, names, subs, k, i, s.merged[i], next.merged[i]);
      }
    }
  }

  /** One turn touches the last current entry of the desired entry's name, and no other. */
  lemma EntryStep<T>(current: seq<T>, known: seq<string>, names: seq<string>, subs: seq<Option<T>>, k: nat, i: nat,
                     entry: T, next: T)
    requires i < |current| == |known| && k < |names| == |subs|
    requires EntryIs(current, known, names, subs, k, i, entry)
    requires if known[i] == names[k] && Last(known, known[i]) == i then subs[k] == Some(next) else next == entry
    ensures EntryIs(current, known, names, subs, k + 1, i, next)
  {
    LastExtends(names, k, known[i]);
  }

  lemma LastExtends(names: seq<string>, k: nat, n: string)
    requires k < |names|
    ensures n in names[..k + 1] <==> n in names[..k] || n == names[k]
    ensures n in names[..k + 1] ==> Last(names[..k + 1], n) == if n == names[k] then k else Last(names[..k], n)
  {
    assert names[..k + 1] == names[..k] + [names[k]];
    assert names[..k + 1][..k] == names[..k];
  }

  lemma StartOk<T>(current: seq<T>, known: seq<string>, desired: seq<T>, names: seq<string>, subs: seq<Option<T>>)
    requires |current| == |known| && |desired| == |names| == |subs|
    ensures StateOk(current, known, desired, names, subs, 0, State(current, Positions(known)))
  {
  }

  /** The loop keeps its meaning until it meets an entry it cannot place, and then raises. */
  lemma {:induction false} AfterMeaning<T>(current: seq<T>, known: seq<string>, desired: seq<T>, names: seq<string>,
                                           subs: seq<Option<T>>, k: nat)
    requires |current| == |known| && k <= |desired| == |names| == |subs|
    ensures var s := After(current, known, desired, names, subs, k);
            && (s.Some? <==> forall j :: 0 <= j < k ==> !TripsAt(known, names, subs, j))
            && (s.Some? ==> StateOk(current, known, desired, names, subs, k, s.value))
  {
    hide StateOk, TripsAt, Step;
    assert k == 0 ==> StateOk(current, known, desired, names, subs, 0, State(current, Positions(known))) by {
      StartOk(current, known, desired, names, subs);
    }
    if k > 0 {
      AfterMeaning(current, known, desired, names, subs, k - 1);
      var before := After(current, known, desired, names, subs, k - 1);
      if before.Some? {
        StepKeeps(current, known, desired, names, subs, k - 1, before.value);
      }
    }
  }

  lemma {:induction false} FreshMeaning<T>(desired: seq<T>, names: seq<string>, known: seq<string>, k: nat)
    requires k <= |desired| == |names|
    ensures var items, labels := Fresh(desired, names, known, k), Fresh(names, names, known, k);
            && |items| == |labels|
            && (forall i :: 0 <= i < |items| ==>
              exists j :: 0 <= j < k && names[j] !in known && labels[i] == names[j] && items[i] == desired[j])
            && (forall j :: 0 <= j < k && names[j] !in known ==> names[j] in labels)
  {
    if k > 0 {
      FreshMeaning(desired, names, known, k - 1);
    }
  }

  lemma {:induction false} NothingFresh<T>(desired: seq<T>, names: seq<string>, known: seq<string>, k: nat)
    requires k <= |desired| == |names| && forall j :: 0 <= j < k ==> names[j] in known
    ensures Fresh(desired, names, known, k) == []
  {
    if k > 0 {
      NothingFresh(desired, names, known, k - 1);
    }
  }

  /** Entries that all find their name, and that merging leaves as they are, change nothing. */
  lemma {:induction false} PassChangesNothing<T>(current: seq<T>, known: seq<string>, desired: seq<T>,
                                                 names: seq<string>, subs: seq<Option<T>>, k: nat)
    requires |current| == |known| && k <= |desired| == |names| == |subs|
    requires forall j :: 0 <= j < k ==> names[j] in known && subs[j] == Some(current[Last(known, names[j])])
    ensures After(current, known, desired, names, subs, k) == Some(State(current, Positions(known)))
  {
    if k > 0 {
      PassChangesNothing(current, known, desired, names, subs, k - 1);
      var i := Last(known, names[k - 1]);
      assert current[i := current[i]] == current;
    }
  }

  /** Appending names that do not contain `n` leaves its last index alone. */
  lemma LastKept(known: seq<string>, added: seq<string>, n: string)
    requires n in known && n !in added
    ensures Last(known + added, n) == Last(known, n)
  {
    assert (known + added)[Last(known, n)] == n;
  }

  /** With distinct names, an added name is found at its own entry. */
  lemma FindAdded<T>(desired: seq<T>, names: seq<string>, known: seq<string>, k: nat)
    requires k < |desired| == |names| && names[k] !in known
    requires forall i, j :: 0 <= i < j < |names| ==> names[i] != names[j]
    ensures var items, labels := Fresh(desired, names, known, |names|), Fresh(names, names, known, |names|);
            && |items| == |labels| && names[k] in known + labels
            && var i := Last(known + labels, names[k]);
               i >= |known| && items[i - |known|] == desired[k]
  {
    FreshMeaning(desired, names, known, |names|);
    var labels := Fresh(names, names, known, |names|);
    var i := Last(known + labels, names[k]);
    assert (known + labels)[i] == names[k] && names[k] !in known;
  }
}
