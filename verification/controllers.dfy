// `make_plan`, `apply_plan` and `owned_replace_object`: applying a reviewed bundle to a
// cluster that other clients write to at the same time.

module Controllers {
  import opened Base
  import opened Merging

  datatype Kind =
    | Namespace | CustomResourceDefinition | ServiceAccount | ClusterRole | Role
    | ClusterRoleBinding | RoleBinding | Secret | ConfigMap | Service | Deployment
    | OtherKind(name: string)

  datatype Key = Key(api: string, kind: Kind, namespace: string, name: string)

  /** A stored object: identity, revision, the two ownership labels, the hakopod.io annotations, and the rest. */
  datatype Object = Object(uid: nat, version: nat, owner: Option<string>, managed: bool,
                           notes: map<string, string>, content: Json)

  /** A bundle object. `template` says that a Secret carries the known credential template. */
  datatype Desired = Desired(key: Key, notes: map<string, string>, content: Json, template: bool)

  datatype Fingerprint = Fingerprint(uid: nat, version: nat)

  // ----- The order of application -----

  const LAST_PRIORITY: nat := 7

  function Priority(kind: Kind): (p: nat)
    ensures p <= LAST_PRIORITY
  {
    match kind
    case Namespace => 0
    case CustomResourceDefinition => 1
    case ServiceAccount => 2
    case ClusterRole => 3
    case Role => 3
    case ClusterRoleBinding => 4
    case RoleBinding => 4
    case Secret => 5
    case ConfigMap => 5
    case Service => 6
    case Deployment => 7
    case OtherKind(_) => 6
  }

  function Bucket(objects: seq<Desired>, p: nat): (bucket: seq<Desired>)
    ensures forall i :: 0 <= i < |bucket| ==> Priority(bucket[i].key.kind) == p
  {
    if objects == [] then [] else
      (if Priority(objects[0].key.kind) == p then [objects[0]] else []) + Bucket(objects[1..], p)
  }

  /** The bundle objects with priority `p` or more, lowest first; equal priorities keep their order. */
  function FromPriority(objects: seq<Desired>, p: nat): seq<Desired>
    decreases LAST_PRIORITY + 1 - p
  {
    if p > LAST_PRIORITY then [] else Bucket(objects, p) + FromPriority(objects, p + 1)
  }

  function Sorted(objects: seq<Desired>): seq<Desired> {
    FromPriority(objects, 0)
  }

  lemma {:induction false} BucketMembers(objects: seq<Desired>, p: nat, o: Desired)
    ensures multiset(Bucket(objects, p))[o] == if Priority(o.key.kind) == p then multiset(objects)[o] else 0
  {
    if objects != [] {
      BucketMembers(objects[1..], p, o);
      assert objects == [objects[0]] + objects[1..];
    }
  }

  lemma {:induction false} FromPriorityMembers(objects: seq<Desired>, p: nat, o: Desired)
    ensures multiset(FromPriority(objects, p))[o] == if Priority(o.key.kind) >= p then multiset(objects)[o] else 0
    decreases LAST_PRIORITY + 1 - p
  {
    hide Priority, Bucket;
    if p <= LAST_PRIORITY {
      BucketMembers(objects, p, o);
      FromPriorityMembers(objects, p + 1, o);
    }
  }

  lemma {:induction false} FromPriorityOrdered(objects: seq<Desired>, p: nat, i: nat, j: nat)
    requires i < j < |FromPriority(objects, p)|
    ensures p <= Priority(FromPriority(objects, p)[i].key.kind) <= Priority(FromPriority(objects, p)[j].key.kind)
    decreases LAST_PRIORITY + 1 - p
  {
    hide Priority;
    var bucket, rest := Bucket(objects, p), FromPriority(objects, p + 1);
    var all := FromPriority(objects, p);
    if i >= |bucket| {
      FromPriorityOrdered(objects, p + 1, i - |bucket|, j - |bucket|);
    } else {
      if j >= |bucket| {
        FromPriorityBound(objects, p + 1, j - |bucket|);
      }
    }
  }

  lemma {:induction false} FromPriorityBound(objects: seq<Desired>, p: nat, i: nat)
    requires i < |FromPriority(objects, p)|
    ensures Priority(FromPriority(objects, p)[i].key.kind) >= p
    decreases LAST_PRIORITY + 1 - p
  {
    hide Priority;
    if i >= |Bucket(objects, p)| {
      FromPriorityBound(objects, p + 1, i - |Bucket(objects, p)|);
    }
  }

  /** The same objects, lower priorities first. */
  ghost predicate Arranged(objects: seq<Desired>, sorted: seq<Desired>) {
    && multiset(sorted) == multiset(objects)
    && forall i, j :: 0 <= i < j < |sorted| ==> Priority(sorted[i].key.kind) <= Priority(sorted[j].key.kind)
  }

  /** Kinds that must be there before others: namespaces, then resource definitions, service accounts, roles, bindings,
      then secrets and configuration, then services and anything else, and deployments last. */
  ghost predicate Earlier(k: Kind, l: Kind) {
    || (k.Namespace? && !l.Namespace?)
    || (k.CustomResourceDefinition? && !l.Namespace? && !l.CustomResourceDefinition?)
    || (k.ServiceAccount? && (l.ClusterRole? || l.Role? || Late(l)))
    || ((k.ClusterRole? || k.Role?) && Late(l))
    || ((k.ClusterRoleBinding? || k.RoleBinding?) && Late(l) && !l.ClusterRoleBinding? && !l.RoleBinding?)
    || ((k.Secret? || k.ConfigMap?) && (l.Service? || l.OtherKind? || l.Deployment?))
    || ((k.Service? || k.OtherKind?) && l.Deployment?)
  }

  ghost predicate Late(l: Kind) {
    l.ClusterRoleBinding? || l.RoleBinding? || l.Secret? || l.ConfigMap? || l.Service? || l.OtherKind? || l.Deployment?
  }

  lemma PriorityMeaning(k: Kind, l: Kind)
    ensures Priority(k) < Priority(l) <==> Earlier(k, l)
  {
  }

  /** In the order of application no object stands behind one whose kind needs it first. */
  lemma KindsInOrder(objects: seq<Desired>, i: nat, j: nat)
    requires i < j < |Sorted(objects)|
    ensures !Earlier(Sorted(objects)[j].key.kind, Sorted(objects)[i].key.kind)
  {
    FromPriorityOrdered(objects, 0, i, j);
    PriorityMeaning(Sorted(objects)[j].key.kind, Sorted(objects)[i].key.kind);
  }

  /** The objects of some kinds, in list order. */
  function Only(objects: seq<Desired>, kinds: set<Kind>): seq<Desired> {
    if objects == [] then [] else
      (if objects[0].key.kind in kinds then [objects[0]] else []) + Only(objects[1..], kinds)
  }

  lemma {:induction false} OnlyJoined(a: seq<Desired>, b: seq<Desired>, kinds: set<Kind>)
    ensures Only(a + b, kinds) == Only(a, kinds) + Only(b, kinds)
  {
    if a == [] {
      assert a + b == b;
    } else {
      OnlyJoined(a[1..], b, kinds);
      assert (a + b)[1..] == a[1..] + b && (a + b)[0] == a[0];
      var head := if a[0].key.kind in kinds then [a[0]] else [];
      assert Only(a + b, kinds) == head + (Only(a[1..], kinds) + Only(b, kinds));
      assert Only(a, kinds) == head + Only(a[1..], kinds);
    }
  }

  lemma {:induction false} OnlyInBucket(objects: seq<Desired>, kinds: set<Kind>, p: nat, q: nat)
    requires forall k :: k in kinds ==> Priority(k) == q
    ensures Only(Bucket(objects, p), kinds) == if p == q then Only(objects, kinds) else []
  {
    hide Priority;
    if objects != [] {
      OnlyInBucket(objects[1..], kinds, p, q);
      OnlyJoined(if Priority(objects[0].key.kind) == p then [objects[0]] else [], Bucket(objects[1..], p), kinds);
    }
  }

  lemma {:induction false} OnlyFrom(objects: seq<Desired>, kinds: set<Kind>, p: nat, q: nat)
    requires q <= LAST_PRIORITY && forall k :: k in kinds ==> Priority(k) == q
    ensures Only(FromPriority(objects, p), kinds) == if p <= q then Only(objects, kinds) else []
    decreases LAST_PRIORITY + 1 - p
  {
    hide Priority;
    if p <= LAST_PRIORITY {
      OnlyInBucket(objects, kinds, p, q);
      OnlyFrom(objects, kinds, p + 1, q);
      OnlyJoined(Bucket(objects, p), FromPriority(objects, p + 1), kinds);
    }
  }

  /** Objects of kinds that none of them needs before another keep the order of the bundle. */
  lemma SortedIsStable(objects: seq<Desired>, kinds: set<Kind>)
    requires forall k, l :: k in kinds && l in kinds ==> !Earlier(k, l)
    ensures Only(Sorted(objects), kinds) == Only(objects, kinds)
  {
    hide Priority, Earlier;
    forall k, l | k in kinds && l in kinds ensures Priority(k) == Priority(l) {
      PriorityMeaning(k, l);
      PriorityMeaning(l, k);
    }
    var q := if k :| k in kinds then Priority(k) else 0;
    OnlyFrom(objects, kinds, 0, q);
  }

  lemma SortedMeaning(objects: seq<Desired>)
    ensures Arranged(objects, Sorted(objects))
  {
    forall o: Desired ensures multiset(Sorted(objects))[o] == multiset(objects)[o] {
      FromPriorityMembers(objects, 0, o);
    }
    forall i, j | 0 <= i < j < |Sorted(objects)|
      ensures Priority(Sorted(objects)[i].key.kind) <= Priority(Sorted(objects)[j].key.kind)
    {
      FromPriorityOrdered(objects, 0, i, j);
    }
  }

  // ----- Ownership -----

  /** `fingerprint`: None for an absent object; an unowned one raises. */
  datatype Reading = Read(seen: Option<Fingerprint>) | Unowned

  function PrintOf(o: Option<Object>, installation: string): Reading {
    match o
    case None => Read(None)
    case Some(x) => if x.owner == Some(installation) then Read(Some(Fingerprint(x.uid, x.version))) else Unowned
  }

  /** `owned_replace_object`: the merged replacement, or None where the source raises. */
  function Replacement(latest: Option<Object>, desired: Desired, installation: string,
                       reviewed: Option<Fingerprint>): Option<Json> {
    if PrintOf(latest, installation) != Read(reviewed) || latest.None? then None
    else if !latest.value.managed then None
    else if exists n :: n in desired.notes && (n !in latest.value.notes || latest.value.notes[n] != desired.notes[n])
      then None
    else Merge(latest.value.content, desired.content)
  }

  /** When the fallback may replace: the object is there, at the reviewed identity and revision, with both ownership
      labels and with every annotation of the bundle's object. */
  lemma ReplacementMeaning(o: Object, d: Desired, installation: string, reviewed: Option<Fingerprint>, content: Json)
    ensures Replacement(None, d, installation, reviewed).None?
    ensures Replacement(Some(o), d, installation, reviewed) == Some(content) <==>
              && reviewed.Some? && o.uid == reviewed.value.uid && o.version == reviewed.value.version
              && o.owner == Some(installation) && o.managed
              && (forall n :: n in d.notes ==> n in o.notes && o.notes[n] == d.notes[n])
              && Merge(o.content, d.content) == Some(content)
  {
    hide Merge;
  }

  /** One successful write: what was there, what was sent and whether it is stored as it is, what is there now, and
      which CRDs had been confirmed by then. */
  datatype Change = Change(key: Key, before: Option<Object>, sent: Json, exact: bool, after: Object,
    confirmed: set<Key>)

  /** One reading of a key, and whether it came back. */
  datatype Look = Look(key: Key, found: Option<Object>, ok: bool)

  /** What was sent is the bundle's object, or its merge with the object it replaces. A generated credential and a
      server-side apply leave it to the server what is stored; everything else is stored as sent. */
  ghost predicate Intended(c: Change, d: Desired) {
    && c.key == d.key && (c.exact ==> c.after.content == c.sent)
    && (if c.exact && c.before.Some? then Merge(c.before.value.content, d.content) == Some(c.sent)
      else c.sent == d.content)
    && (c.before.None? && d.key.kind != Secret ==> c.exact)
  }

  /** The change was made to an absent object, or to exactly the reviewed and owned one; Secrets are only created. */
  ghost predicate Legitimate(c: Change, reviewed: map<Key, Option<Fingerprint>>, installation: string) {
    && c.key in reviewed
    && c.after.owner == Some(installation) && c.after.managed
    && match c.before
       case None => reviewed[c.key] == None
       case Some(o) =>
         c.key.kind != Secret && o.owner == Some(installation) && reviewed[c.key] == Some(Fingerprint(o.uid, o.version))
  }

  function Held(objects: map<Key, Object>, key: Key): Option<Object> {
    if key in objects then Some(objects[key]) else None
  }

  function FingerprintOf(o: Option<Object>): Option<Fingerprint> {
    match o
    case None => None
    case Some(x) => Some(Fingerprint(x.uid, x.version))
  }

  ghost predicate SameBut(before: map<Key, Object>, after: map<Key, Object>, key: Key) {
    forall k :: k != key ==> Held(before, k) == Held(after, k)
  }

  /** The object is as it was reviewed: absent, or owned and at the reviewed identity and revision; and an absent Secret
      has the known template. */
  ghost predicate Ready(objects: map<Key, Object>, d: Desired, reviewed: Option<Fingerprint>, installation: string) {
    && FingerprintOf(Held(objects, d.key)) == reviewed
    && (d.key in objects ==> objects[d.key].owner == Some(installation))
    && (d.key.kind == Secret && d.key !in objects ==> d.template)
  }

  /** What other clients may do: anything, but every change gets a revision above all earlier ones. */
  ghost predicate Interference(objects: map<Key, Object>, revision: nat, objects': map<Key, Object>, revision': nat) {
    revision <= revision' && forall k :: k in objects' ==>
      Untouched(objects, k, objects'[k]) || revision < objects'[k].version <= revision'
  }

  predicate Untouched(objects: map<Key, Object>, k: Key, o: Object) {
    k in objects && objects[k] == o
  }

  ghost predicate Appended(before: seq<Change>, after: seq<Change>) {
    |after| == |before| + 1 && after[..|before|] == before
  }

  /** A write by this installation to `key`, accepted at the expected identity. */
  ghost predicate Wrote(c: Change, key: Key, expected: Option<Fingerprint>, exact: bool, content: Json,
                        installation: string, confirmed: set<Key>) {
    && c.key == key && c.confirmed == confirmed
    && c.after.owner == Some(installation) && c.after.managed
    && c.sent == content && c.exact == exact && (exact ==> c.after.content == content)
    && expected == match c.before
                   case None => None
                   case Some(o) => Some(Fingerprint(o.uid, o.version))
  }

  class Cluster {
    var objects: map<Key, Object>
    var revision: nat
    ghost var log: seq<Change>
    ghost var confirmed: set<Key>
    ghost var looks: seq<Look>
    /** Since this run began somebody else has changed an object, or a command has failed by itself. */
    ghost var disturbed: bool

    ghost predicate Valid()
      reads this
    {
      forall k :: k in objects ==> objects[k].version <= revision
    }

    /** If the object still has this revision, it is still this object. */
    ghost predicate Remembers(k: Key, o: Object)
      reads this
    {
      o.version <= revision && (k in objects && objects[k].version == o.version ==> objects[k] == o)
    }

    /** The object no longer has this revision, and never will again. */
    ghost predicate Left(k: Key, version: nat)
      reads this
    {
      version <= revision && (k in objects ==> objects[k].version != version)
    }

    method Interfere()
      requires Valid()
      modifies this`objects, this`revision, this`disturbed
      ensures Valid() && Interference(old(objects), old(revision), objects, revision)
      ensures forall k, o :: old(Remembers(k, o)) ==> Remembers(k, o)
      ensures forall k, v :: old(Left(k, v)) ==> Left(k, v)
      ensures !disturbed ==> !old(disturbed) && objects == old(objects)
    {
      var wish: map<Key, Object> := *;
      var steps :| steps >= 0;
      var objects' := map k | k in wish
        && (Untouched(objects, k, wish[k]) || revision < wish[k].version <= revision + steps) :: wish[k];
      disturbed := disturbed || objects' != objects;
      objects, revision := objects', revision + steps;
    }

    /** `current`. */
    method Get(key: Key) returns (o: Option<Object>, ok: bool)
      requires Valid()
      modifies this`objects, this`revision, this`looks, this`disturbed
      ensures looks == old(looks) + [Look(key, o, ok)]
      ensures Valid() && forall k, x :: old(Remembers(k, x)) ==> Remembers(k, x)
      ensures ok && o.Some? ==> Remembers(key, o.value)
      ensures forall v :: old(Left(key, v)) && o.Some? ==> o.value.version != v
      ensures !disturbed ==> !old(disturbed) && objects == old(objects) && ok && o == Held(objects, key)
    {
      Interfere();
      ok := *;
      disturbed := disturbed || !ok;
      o := if key in objects then Some(objects[key]) else None;
      looks := looks + [Look(key, o, ok)];
    }

    /** A write that the server accepts only if the object is absent (`expected` is None) or still at the expected
        identity and revision. It may be refused for other reasons, and its success may go unreported. A server-side
        apply (not `exact`) lets the server compute what is stored. */
    method Write(key: Key, expected: Option<Fingerprint>, exact: bool, content: Json, notes: map<string, string>,
                 installation: string) returns (ok: bool)
      requires Valid()
      modifies this`objects, this`revision, this`log, this`disturbed
      ensures Valid() && forall k, x :: k != key && old(Remembers(k, x)) ==> Remembers(k, x)
      ensures old(revision) <= revision && (log != old(log) ==> forall v: nat :: v <= old(revision) ==> Left(key, v))
      ensures ok ==> log != old(log)
      ensures log == old(log) ==> forall x :: old(Remembers(key, x)) ==> Remembers(key, x)
      ensures log == old(log) || Appended(old(log), log)
      ensures log != old(log) ==> Wrote(log[|log| - 1], key, expected, exact, content, installation, confirmed)
      ensures log != old(log) && log[|log| - 1].before.Some? ==>
                forall x :: old(Remembers(key, x)) && x.version == log[|log| - 1].before.value.version ==>
                  x == log[|log| - 1].before.value
      ensures !disturbed ==> !old(disturbed) && SameBut(old(objects), objects, key)
      ensures !disturbed && expected == FingerprintOf(Held(old(objects), key)) ==> ok
    {
      hide Interference, Wrote;
      Interfere();
      ok := Store(key, expected, exact, content, notes, installation);
    }

    /** The server's part of a write. */
    method Store(key: Key, expected: Option<Fingerprint>, exact: bool, content: Json, notes: map<string, string>,
                 installation: string) returns (ok: bool)
      requires Valid()
      modifies this`objects, this`revision, this`log, this`disturbed
      ensures Valid() && forall k, x :: k != key && old(Remembers(k, x)) ==> Remembers(k, x)
      ensures old(revision) <= revision && (log != old(log) ==> forall v: nat :: v <= old(revision) ==> Left(key, v))
      ensures ok ==> log != old(log)
      ensures log == old(log) ==> forall x :: old(Remembers(key, x)) ==> Remembers(key, x)
      ensures log == old(log) || Appended(old(log), log)
      ensures log != old(log) ==> Wrote(log[|log| - 1], key, expected, exact, content, installation, confirmed)
      ensures log != old(log) && log[|log| - 1].before.Some? ==>
                forall x :: old(Remembers(key, x)) && x.version == log[|log| - 1].before.value.version ==>
                  x == log[|log| - 1].before.value
      ensures !disturbed ==> !old(disturbed) && SameBut(old(objects), objects, key)
      ensures !disturbed && expected == FingerprintOf(Held(old(objects), key)) ==> ok
    {
      var willing: bool := *;
      var before := if key in objects then Some(objects[key]) else None;
      var matches := match before
        case None => expected == None
        case Some(o) => expected == Some(Fingerprint(o.uid, o.version));
      if !willing || !matches {
        disturbed := disturbed || !willing;
        return false;
      }
      var uid :| uid >= 0;
      var stored: Json := *;
      var after :=
        Object(if before.Some? then before.value.uid else uid, revision + 1, Some(installation), true, notes,
          if exact then content else stored);
      objects, revision := objects[key := after], revision + 1;
      log := log + [Change(key, before, content, exact, after, confirmed)];
      ok := *;
      disturbed := disturbed || !ok;
    }

    /** The fallback for a refused server-side apply: replace the object if it is still the reviewed one. */
    method ReplaceOwned(d: Desired, installation: string, reviewed: Fingerprint) returns (ok: bool)
      requires Valid() && reviewed.version <= revision
      modifies this`objects, this`revision, this`log, this`looks, this`disturbed
      ensures Valid() && (ok ==> log != old(log))
      ensures old(Left(d.key, reviewed.version)) ==> log == old(log)
      ensures log == old(log) || Appended(old(log), log)
      ensures log != old(log) ==> ReplacedFrom(log[|log| - 1], d, installation, reviewed, confirmed)
      ensures !disturbed ==> !old(disturbed) && SameBut(old(objects), objects, d.key)
      ensures !disturbed && Replacement(Held(old(objects), d.key), d, installation, Some(reviewed)).Some? ==> ok
      ensures |looks| == |old(looks)| + 1 && old(looks) <= looks && looks[|old(looks)|].key == d.key
    {
      var latest;
      latest, ok := Get(d.key);
      if !ok {
        return;
      }
      var content := Replacement(latest, d, installation, Some(reviewed));
      if content == None {
        return false;
      }
      ok := Write(d.key, Some(reviewed), true, content.value, latest.value.notes, installation);
    }

    /** `kubectl wait` until the CRD is established: only then is it confirmed. */
    method WaitEstablished(key: Key) returns (ok: bool)
      requires Valid()
      modifies this`confirmed, this`disturbed
      ensures confirmed == old(confirmed) + if ok then {key} else {}
      ensures !disturbed ==> !old(disturbed) && ok
    {
      ok := *;
      disturbed := disturbed || !ok;
      if ok {
        confirmed := confirmed + {key};
      }
    }

    /** One object of the bundle, as the loop of `apply_plan` treats it. */
    method ApplyOne(d: Desired, installation: string, reviewed: map<Key, Option<Fingerprint>>) returns (turn: Turn)
      requires Valid() && d.key in reviewed
      modifies this
      ensures Valid() && old(confirmed) <= confirmed
      ensures turn == Skipped ==> log == old(log) && d.key.kind == Secret && reviewed[d.key].Some?
      ensures turn == Applied ==> log != old(log) && (d.key.kind == CustomResourceDefinition ==> d.key in confirmed)
      ensures log == old(log) || Appended(old(log), log)
      ensures log != old(log) ==> var c := log[|log| - 1];
                c.key == d.key && c.confirmed == old(confirmed) && Legitimate(c, reviewed, installation)
                  && Intended(c, d)
      ensures !disturbed ==> !old(disturbed) && SameBut(old(objects), objects, d.key)
      ensures turn == Stopped ==> disturbed || !Ready(old(objects), d, reviewed[d.key], installation)
      // A refused apply of an object that was as reviewed is followed by a second look, for the fallback.
      ensures |looks| > |old(looks)| && looks[|old(looks)|].key == d.key
      ensures turn == Stopped && Fits(looks[|old(looks)|], d, reviewed[d.key], installation) && log == old(log) ==>
                |looks| > |old(looks)| + 1 && looks[|old(looks)| + 1].key == d.key
      ensures || confirmed == old(confirmed)
              || (d.key.kind == CustomResourceDefinition && confirmed == old(confirmed) + {d.key})
    {
      var found, ok := Get(d.key);
      if !ok || PrintOf(found, installation) != Read(reviewed[d.key]) {
        return Stopped;
      }
      if d.key.kind == Secret {
        if found.Some? {
          return Skipped;
        }
        if !d.template {
          return Stopped;
        }
      }
      if found.None? {
        // A generated credential is not the bundle's content.
        ok := Write(d.key, None, d.key.kind != Secret, d.content, d.notes, installation);
      } else {
        var seen := Fingerprint(found.value.uid, found.value.version);
        ok := Write(d.key, Some(seen), false, d.content, d.notes, installation);
        if !ok {
          ok := ReplaceOwned(d, installation, seen);
        }
      }
      if !ok {
        return Stopped;
      }
      if d.key.kind == CustomResourceDefinition {
        ok := WaitEstablished(d.key);
        if !ok {
          return Stopped;
        }
      }
      turn := Applied;
    }
  }

  /** The look came back with an owned object at the reviewed identity and revision, which is no Secret. */
  ghost predicate Fits(look: Look, d: Desired, reviewed: Option<Fingerprint>, installation: string) {
    && look.ok && look.found.Some? && look.found.value.owner == Some(installation) && d.key.kind != Secret
    && reviewed == Some(Fingerprint(look.found.value.uid, look.found.value.version))
  }

  datatype Turn = Applied | Skipped | Stopped

  /** The replaced object was owned and is the merge of what was there with the desired object. */
  ghost predicate ReplacedFrom(c: Change, d: Desired, installation: string, reviewed: Fingerprint,
                               confirmed: set<Key>) {
    && c.key == d.key && c.confirmed == confirmed && c.after.owner == Some(installation) && c.after.managed
    && c.before.Some?
    && Fingerprint(c.before.value.uid, c.before.value.version) == reviewed
    && c.before.value.owner == Some(installation)
    && Merge(c.before.value.content, d.content) == Some(c.after.content) && Intended(c, d)
  }

  // ----- Plans -----

  datatype Resource = Resource(key: Key, existing: Option<Fingerprint>)

  /** Everything a plan binds besides the objects themselves. */
  datatype Context = Context(installation: string, clusterUid: string, bundleSha: string, engines: seq<string>)

  datatype Plan = Plan(schemaVersion: int, createdAt: int, context: Context, resources: seq<Resource>)

  const PLAN_LIFETIME: int := 1800

  function ReviewedMap(resources: seq<Resource>): (m: map<Key, Option<Fingerprint>>)
    ensures forall i :: 0 <= i < |resources| ==> resources[i].key in m
  {
    if resources == [] then map[] else
      var last := resources[|resources| - 1];
      ReviewedMap(resources[..|resources| - 1])[last.key := last.existing]
  }

  /** The resources of a plan list the bundle's objects in the bundle's order. */
  ghost predicate Lists(resources: seq<Resource>, objects: seq<Desired>) {
    |resources| == |objects| && forall i :: 0 <= i < |objects| ==> resources[i].key == objects[i].key
  }

  /** The keys of the first `k` objects, without the skipped ones. */
  function WrittenKeys(objects: seq<Desired>, k: nat, skipped: set<nat>): seq<Key>
    requires k <= |objects|
  {
    if k == 0 then [] else
      WrittenKeys(objects, k - 1, skipped) + if k - 1 in skipped then [] else [objects[k - 1].key]
  }

  function KeysOf(log: seq<Change>): (keys: seq<Key>)
    ensures |keys| == |log| && forall i :: 0 <= i < |log| ==> keys[i] == log[i].key
  {
    seq(|log|, i requires 0 <= i < |log| => log[i].key)
  }

  /** All CRDs of the bundle had been confirmed before this change, if it is to a Deployment. */
  ghost predicate AfterCrds(c: Change, objects: seq<Desired>) {
    c.key.kind == Deployment ==>
      forall o :: o in objects && o.key.kind == CustomResourceDefinition ==> o.key in c.confirmed
  }

  /** What may be said of one change made by a run. */
  ghost predicate Sanctioned(c: Change, objects: seq<Desired>, reviewed: map<Key, Option<Fingerprint>>,
                             installation: string) {
    Legitimate(c, reviewed, installation) && AfterCrds(c, objects) && exists d :: d in objects && Intended(c, d)
  }

  /** Each resource holds what the reading of its object showed, and no object was somebody else's. */
  ghost predicate ReadFrom(looks: seq<Look>, resources: seq<Resource>, objects: seq<Desired>, installation: string) {
    && Lists(resources, objects) && |looks| == |objects|
    && forall i :: 0 <= i < |objects| ==>
         looks[i].ok && looks[i].key == objects[i].key
           && PrintOf(looks[i].found, installation) == Read(resources[i].existing)
  }

  /** The last reading failed or showed somebody else's object. */
  ghost predicate Refusal(looks: seq<Look>, installation: string) {
    looks != [] && var last := looks[|looks| - 1]; !last.ok || PrintOf(last.found, installation) == Unowned
  }

  lemma ReadOneMore(looks: seq<Look>, resources: seq<Resource>, objects: seq<Desired>, installation: string, look: Look,
                    reading: Reading)
    requires |resources| < |objects| && ReadFrom(looks, resources, objects[..|resources|], installation)
    requires look.ok && look.key == objects[|resources|].key && PrintOf(look.found, installation) == reading
             && reading.Read?
    ensures ReadFrom(looks + [look], resources + [Resource(look.key, reading.seen)], objects[..|resources| + 1],
            installation)
  {
  }

  /** `make_plan`: one reading per object, in order. There is no plan exactly if a reading failed or showed an unowned
      object; no further object is read then. */
  method MakePlan(cluster: Cluster, objects: seq<Desired>, installation: string)
    returns (resources: Option<seq<Resource>>)
    requires cluster.Valid()
    modifies cluster`objects, cluster`revision, cluster`looks, cluster`disturbed
    ensures cluster.Valid() && old(cluster.looks) <= cluster.looks
    ensures match resources
            case Some(list) => ReadFrom(cluster.looks[|old(cluster.looks)|..], list, objects, installation)
            case None => Refusal(cluster.looks[|old(cluster.looks)|..], installation)
    ensures |cluster.looks| - |old(cluster.looks)| <= |objects|
    ensures forall i :: |old(cluster.looks)| <= i < |cluster.looks| ==>
              cluster.looks[i].key == objects[i - |old(cluster.looks)|].key
    ensures !cluster.disturbed ==>
              !old(cluster.disturbed) && cluster.objects == old(cluster.objects)
              && forall i :: |old(cluster.looks)| <= i < |cluster.looks| ==>
                   cluster.looks[i].ok && cluster.looks[i].found == Held(cluster.objects, cluster.looks[i].key)
  {
    var list: seq<Resource> := [];
    ghost var start := |cluster.looks|;
    for i := 0 to |objects|
      invariant cluster.Valid() && |list| == i && old(cluster.looks) <= cluster.looks
      invariant ReadFrom(cluster.looks[start..], list, objects[..i], installation)
      invariant |cluster.looks| == start + i
      invariant forall j :: start <= j < |cluster.looks| ==> cluster.looks[j].key == objects[j - start].key
      invariant !cluster.disturbed ==>
                  !old(cluster.disturbed) && cluster.objects == old(cluster.objects)
                  && forall j :: start <= j < |cluster.looks| ==>
                       cluster.looks[j].ok && cluster.looks[j].found == Held(cluster.objects, cluster.looks[j].key)
    {
      ghost var before := cluster.looks;
      var found, ok := cluster.Get(objects[i].key);
      var reading := PrintOf(found, installation);
      assert cluster.looks[start..] == before[start..] + [Look(objects[i].key, found, ok)];
      if !ok || reading == Unowned {
        return None;
      }
      ReadOneMore(before[start..], list, objects, installation, Look(objects[i].key, found, ok), reading);
      list := list + [Resource(objects[i].key, reading.seen)];
    }
    assert objects[..|objects|] == objects;
    resources := Some(list);
  }

  /** The Secret existed when the plan was reviewed. */
  predicate AlreadyThere(d: Desired, reviewed: map<Key, Option<Fingerprint>>) {
    d.key.kind == Secret && d.key in reviewed && reviewed[d.key].Some?
  }

  /** After `i` objects: the changes since `start` are sanctioned and are those of the objects handled so far. */
  ghost predicate Progress(log: seq<Change>, start: nat, objects: seq<Desired>, sorted: seq<Desired>, i: nat,
                           skipped: set<nat>,
                           reviewed: map<Key, Option<Fingerprint>>, installation: string)
    requires start <= |log|
  {
    && i <= |sorted|
    && (forall j :: j in skipped ==> j < i && AlreadyThere(sorted[j], reviewed))
    && KeysOf(log[start..]) == WrittenKeys(sorted, i, skipped)
    && (forall j :: start <= j < |log| ==> Sanctioned(log[j], objects, reviewed, installation))
  }

  ghost predicate CrdsConfirmed(sorted: seq<Desired>, i: nat, confirmed: set<Key>)
    requires i <= |sorted|
  {
    forall j :: 0 <= j < i && sorted[j].key.kind == CustomResourceDefinition ==> sorted[j].key in confirmed
  }

  lemma ProgressBySkip(log: seq<Change>, start: nat, objects: seq<Desired>, sorted: seq<Desired>, i: nat,
                       skipped: set<nat>,
                       reviewed: map<Key, Option<Fingerprint>>, installation: string)
    requires start <= |log| && Progress(log, start, objects, sorted, i, skipped, reviewed, installation)
    requires i < |sorted| && AlreadyThere(sorted[i], reviewed)
    ensures Progress(log, start, objects, sorted, i + 1, skipped + {i}, reviewed, installation)
  {
    SkippedLater(sorted, i, skipped, i);
  }

  lemma {:induction false} SkippedLater(objects: seq<Desired>, k: nat, skipped: set<nat>, i: nat)
    requires k <= i && k <= |objects|
    ensures WrittenKeys(objects, k, skipped + {i}) == WrittenKeys(objects, k, skipped)
  {
    if k > 0 {
      SkippedLater(objects, k - 1, skipped, i);
    }
  }

  /** A Deployment comes after every CRD of the bundle. */
  lemma CrdsComeFirst(objects: seq<Desired>, sorted: seq<Desired>, i: nat, confirmed: set<Key>)
    requires Arranged(objects, sorted) && i < |sorted| && CrdsConfirmed(sorted, i, confirmed)
    requires sorted[i].key.kind == Deployment
    ensures forall o :: o in objects && o.key.kind == CustomResourceDefinition ==> o.key in confirmed
  {
    forall o | o in objects && o.key.kind == CustomResourceDefinition ensures o.key in confirmed {
      assert o in multiset(sorted);
      var j :| 0 <= j < |sorted| && sorted[j] == o;
      assert Priority(o.key.kind) < Priority(sorted[i].key.kind);
    }
  }

  lemma ProgressByChange(before: seq<Change>, log: seq<Change>, start: nat, objects: seq<Desired>, sorted: seq<Desired>,
                         i: nat,
                         skipped: set<nat>, reviewed: map<Key, Option<Fingerprint>>, installation: string)
    requires start <= |before| && Progress(before, start, objects, sorted, i, skipped, reviewed, installation)
    requires Appended(before, log) && Arranged(objects, sorted) && i < |sorted|
    requires log[|before|].key == sorted[i].key && Legitimate(log[|before|], reviewed, installation)
    requires CrdsConfirmed(sorted, i, log[|before|].confirmed) && Intended(log[|before|], sorted[i])
    ensures Progress(log, start, objects, sorted, i + 1, skipped, reviewed, installation)
  {
    assert log[start..] == before[start..] + [log[|before|]];
    assert KeysOf(log[start..]) == KeysOf(before[start..]) + [sorted[i].key];
    if sorted[i].key.kind == Deployment {
      CrdsComeFirst(objects, sorted, i, log[|before|].confirmed);
    }
    assert sorted[i] in multiset(sorted) && sorted[i] in objects;
    forall j | start <= j < |log| ensures Sanctioned(log[j], objects, reviewed, installation) {
      assert j < |before| ==> log[j] == before[j];
    }
  }

  ghost predicate DistinctKeys(objects: seq<Desired>) {
    forall i, j :: 0 <= i < j < |objects| ==> objects[i].key != objects[j].key
  }

  /** Everything from `n` on is as it was reviewed. */
  ghost predicate AllReady(store: map<Key, Object>, sorted: seq<Desired>, n: nat,
                           reviewed: map<Key, Option<Fingerprint>>, installation: string) {
    forall i :: n <= i < |sorted| ==>
      sorted[i].key in reviewed && Ready(store, sorted[i], reviewed[sorted[i].key], installation)
  }

  lemma ReadyAt(store: map<Key, Object>, sorted: seq<Desired>, i: nat, reviewed: map<Key, Option<Fingerprint>>,
                installation: string)
    requires i < |sorted| && sorted[i].key in reviewed
    ensures AllReady(store, sorted, i, reviewed, installation) ==>
              Ready(store, sorted[i], reviewed[sorted[i].key], installation)
  {
  }

  lemma StillReady(before: map<Key, Object>, after: map<Key, Object>, sorted: seq<Desired>, i: nat,
                   reviewed: map<Key, Option<Fingerprint>>, installation: string)
    requires i < |sorted|
    ensures SameBut(before, after, sorted[i].key) && DistinctKeys(sorted)
            && AllReady(before, sorted, i, reviewed, installation) ==>
              AllReady(after, sorted, i + 1, reviewed, installation)
  {
    if SameBut(before, after, sorted[i].key) && DistinctKeys(sorted)
       && AllReady(before, sorted, i, reviewed, installation) {
      forall j | i < j < |sorted| ensures Ready(after, sorted[j], reviewed[sorted[j].key], installation) {
        assert Ready(before, sorted[j], reviewed[sorted[j].key], installation);
        assert Held(before, sorted[j].key) == Held(after, sorted[j].key);
      }
    }
  }

  /** The loop over the sorted bundle. `handled` counts the objects written or skipped, `skipped` holds the indices
      of the existing Secrets. */
  method ApplyObjects(cluster: Cluster, objects: seq<Desired>, sorted: seq<Desired>, installation: string,
                      reviewed: map<Key, Option<Fingerprint>>)
    returns (ok: bool, ghost handled: nat, ghost skipped: set<nat>)
    requires cluster.Valid() && Arranged(objects, sorted)
    requires forall i :: 0 <= i < |sorted| ==> sorted[i].key in reviewed
    modifies cluster
    ensures cluster.Valid() && old(cluster.log) <= cluster.log
    ensures ok ==> handled == |sorted|
    ensures Progress(cluster.log, |old(cluster.log)|, objects, sorted, handled, skipped, reviewed, installation)
    ensures !cluster.disturbed ==> !old(cluster.disturbed)
    ensures !ok ==> cluster.disturbed || !AllReady(old(cluster.objects), sorted, 0, reviewed, installation)
                    || !DistinctKeys(sorted)
  {
    hide Sanctioned, Legitimate, AfterCrds, Intended, SameBut, Ready, DistinctKeys, AllReady;
    handled, skipped := 0, {};
    ghost var store := cluster.objects;
    for i := 0 to |sorted|
      invariant cluster.Valid() && old(cluster.log) <= cluster.log && handled == i
      invariant Progress(cluster.log, |old(cluster.log)|, objects, sorted, i, skipped, reviewed, installation)
      invariant CrdsConfirmed(sorted, i, cluster.confirmed)
      invariant !cluster.disturbed ==> !old(cluster.disturbed)
      invariant cluster.disturbed || !AllReady(store, sorted, 0, reviewed, installation) || !DistinctKeys(sorted)
                || AllReady(cluster.objects, sorted, i, reviewed, installation)
    {
      ghost var before, was := cluster.log, cluster.objects;
      ReadyAt(was, sorted, i, reviewed, installation);
      var turn := cluster.ApplyOne(sorted[i], installation, reviewed);
      StillReady(was, cluster.objects, sorted, i, reviewed, installation);
      if cluster.log != before {
        ProgressByChange(before, cluster.log, |old(cluster.log)|, objects, sorted, i, skipped, reviewed, installation);
        handled := i + 1;
      } else if turn == Skipped {
        ProgressBySkip(before, |old(cluster.log)|, objects, sorted, i, skipped, reviewed, installation);
        skipped, handled := skipped + {i}, i + 1;
      }
      if turn == Stopped {
        return false, handled, skipped;
      }
    }
    ok := true;
  }

  /** `apply_plan`. However it ends, its changes are sanctioned and are those of a prefix of the sorted bundle. */
  method ApplyPlan(cluster: Cluster, objects: seq<Desired>, plan: Plan, current: Context, now: int)
    returns (ok: bool, ghost handled: nat, ghost skipped: set<nat>)
    requires cluster.Valid()
    modifies cluster
    ensures cluster.Valid() && old(cluster.log) <= cluster.log
    ensures ok ==> handled == |Sorted(objects)|
    ensures Progress(cluster.log, |old(cluster.log)|, objects, Sorted(objects), handled, skipped,
                     ReviewedMap(plan.resources), plan.context.installation)
    ensures cluster.log != old(cluster.log) ==>
              plan.schemaVersion == 1 && 0 <= now - plan.createdAt <= 1800 && Lists(plan.resources, objects)
              && plan.context == current
    ensures !ok ==> cluster.disturbed || !Applicable(old(cluster.objects), objects, plan, current, now)
  {
    cluster.disturbed := false;
    hide Sanctioned, SameBut, Ready, DistinctKeys, AllReady;
    ghost var store := cluster.objects;
    ok, handled, skipped := false, 0, {};
    if plan.schemaVersion != 1 || !(0 <= now - plan.createdAt <= PLAN_LIFETIME) {
      return;
    }
    ghost var seen := |cluster.looks|;
    var remade := MakePlan(cluster, objects, plan.context.installation);
    RemadeIsPlan(store, cluster.objects, cluster.looks[seen..], objects, plan, current, now, remade, cluster.disturbed);
    if remade.None? || current != plan.context || remade.value != plan.resources {
      return;
    }
    var sorted := Sorted(objects);
    SortedMeaning(objects);
    ApplicableIsReady(store, objects, plan, current, now);
    AllReviewed(objects, sorted, plan.resources);
    ok, handled, skipped :=
      ApplyObjects(cluster, objects, sorted, plan.context.installation, ReviewedMap(plan.resources));
    if ok {
      // The rollouts of the Deployments are only watched.
      ok := *;
      cluster.disturbed := cluster.disturbed || !ok;
    }
  }

  lemma {:induction false} ReviewedFrom(resources: seq<Resource>, key: Key) returns (j: nat)
    requires key in ReviewedMap(resources)
    ensures j < |resources| && resources[j].key == key && resources[j].existing == ReviewedMap(resources)[key]
  {
    j := |resources| - 1;
    if resources[j].key != key {
      j := ReviewedFrom(resources[..j], key);
    }
  }

  lemma ApplicableIsReady(store: map<Key, Object>, objects: seq<Desired>, plan: Plan, current: Context, now: int)
    requires Arranged(objects, Sorted(objects))
    ensures Applicable(store, objects, plan, current, now) ==>
              AllReady(store, Sorted(objects), 0, ReviewedMap(plan.resources), plan.context.installation)
              && DistinctKeys(Sorted(objects))
  {
    if Applicable(store, objects, plan, current, now) {
      var sorted, reviewed := Sorted(objects), ReviewedMap(plan.resources);
      AllReviewed(objects, sorted, plan.resources);
      forall i | 0 <= i < |sorted|
        ensures Ready(store, sorted[i], reviewed[sorted[i].key], plan.context.installation)
      {
        assert sorted[i] in multiset(objects);
        var a :| 0 <= a < |objects| && objects[a] == sorted[i];
        var j := ReviewedFrom(plan.resources, sorted[i].key);
        assert Ready(store, objects[a], plan.resources[a].existing, plan.context.installation);
        assert Ready(store, objects[j], plan.resources[j].existing, plan.context.installation);
      }
    }
  }

  lemma RemadeIsPlan(store: map<Key, Object>, after: map<Key, Object>, looks: seq<Look>, objects: seq<Desired>,
                     plan: Plan, current: Context, now: int, remade: Option<seq<Resource>>, disturbed: bool)
    requires |looks| <= |objects| && forall i :: 0 <= i < |looks| ==> looks[i].key == objects[i].key
    requires !disturbed ==> after == store && forall i :: 0 <= i < |looks| ==>
               looks[i].ok && looks[i].found == Held(after, looks[i].key)
    requires match remade
             case Some(list) => ReadFrom(looks, list, objects, plan.context.installation)
             case None => Refusal(looks, plan.context.installation)
    ensures !disturbed && Applicable(store, objects, plan, current, now) ==> remade == Some(plan.resources)
  {
    if !disturbed && Applicable(store, objects, plan, current, now) {
      forall i | 0 <= i < |looks|
        ensures PrintOf(looks[i].found, plan.context.installation) == Read(plan.resources[i].existing)
      {
        assert Ready(store, objects[i], plan.resources[i].existing, plan.context.installation);
      }
      assert looks != [] ==> looks[|looks| - 1].ok;
      if remade.Some? {
        forall i | 0 <= i < |objects| ensures remade.value[i] == plan.resources[i] {
          assert looks[i].ok && remade.value[i].key == objects[i].key == plan.resources[i].key;
          assert Read(remade.value[i].existing) == Read(plan.resources[i].existing);
        }
        assert remade.value == plan.resources;
      }
    }
  }

  /** The plan fits: its version, its age, what it was made for, and every object as it was reviewed, none of them
      twice. */
  ghost predicate Applicable(store: map<Key, Object>, objects: seq<Desired>, plan: Plan, current: Context, now: int) {
    && plan.schemaVersion == 1 && 0 <= now - plan.createdAt <= 1800 && plan.context == current
    && Lists(plan.resources, objects) && DistinctKeys(Sorted(objects))
    && forall i :: 0 <= i < |objects| ==>
         Ready(store, objects[i], plan.resources[i].existing, plan.context.installation)
  }

  lemma AllReviewed(objects: seq<Desired>, sorted: seq<Desired>, resources: seq<Resource>)
    requires Arranged(objects, sorted) && Lists(resources, objects)
    ensures forall i :: 0 <= i < |sorted| ==> sorted[i].key in ReviewedMap(resources)
  {
    forall i | 0 <= i < |sorted| ensures sorted[i].key in ReviewedMap(resources) {
      assert sorted[i] in multiset(objects);
      var j :| 0 <= j < |objects| && objects[j] == sorted[i];
      assert resources[j].key == objects[j].key;
    }
  }
}
