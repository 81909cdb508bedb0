// `validate_chain`: a release's source inventory is accepted only as the end of the whole
// chain of published, hash-anchored reviews.

module Chains {
  import opened Base
  import opened Deltas

  datatype Scope = Runtime | HttpHarness

  /** The release a review extends, and the anchored digest of that release's own review. */
  datatype Predecessor = Predecessor(tag: string, commit: string, reviewSha: string)

  datatype Bootstrap = Bootstrap(tag: string, commit: string, release: string, anchored: bool, trustPaths: set<string>)

  /** A review file. `wellFormed` stands for the checks on single fields: schema version, runtime name, commit and
      regression evidence. */
  datatype Review = Review(release: string, wellFormed: bool, qualified: string, manifestSha: string,
                           predecessor: Predecessor, bootstrap: Bootstrap, deltas: map<Scope, Delta>)

  /** One reviewed release: its base, the anchored digest of its predecessor's review, and that review's file. */
  datatype Link = Link(release: string, tag: string, commit: string, anchor: string, file: string)

  /** What one runtime's validation works with. `apply` is the action of one delta (`Deltas.Action`); the results
      that need to know more about it ask for it to be exact. */
  datatype Chain = Chain(links: seq<Link>, files: map<string, Review>, trust: set<string>, roots: set<string>,
                         scopes: set<Scope>, isProtected: string -> bool,
                         apply: (Inventory, Delta) -> Option<Inventory>, reviewHash: Review -> string)

  // ----- The specification -----

  function IndexOf(links: seq<Link>, release: string): (r: Option<nat>)
    ensures r.Some? ==> r.value < |links| && links[r.value].release == release
    ensures r.None? ==> forall i :: 0 <= i < |links| ==> links[i].release != release
  {
    if links == [] then None
    else if links[|links| - 1].release == release then Some(|links| - 1)
    else IndexOf(links[..|links| - 1], release)
  }

  /** The published review of link `i`, if it is there and has the anchored digest. */
  function Published(c: Chain, i: nat): Option<Review>
    requires i < |c.links|
  {
    var link := c.links[i];
    if link.file in c.files && c.reviewHash(c.files[link.file]) == link.anchor then Some(c.files[link.file]) else None
  }

  /** The delta that the published review of link `i` contributes. */
  function PublishedDelta(c: Chain, scope: Scope, i: nat): Option<Delta>
    requires i < |c.links|
  {
    var review := Published(c, i);
    if review.Some? && scope in review.value.deltas then Some(review.value.deltas[scope]) else None
  }

  function PublishedDeltas(c: Chain, scope: Scope): (deltas: seq<Option<Delta>>)
    ensures |deltas| == |c.links|
  {
    seq(|c.links|, i requires 0 <= i < |c.links| => PublishedDelta(c, scope, i))
  }

  /** The recorded inventory after the first `k` deltas; None as soon as one is missing or does not apply. */
  ghost function Replayed(apply: (Inventory, Delta) -> Option<Inventory>, deltas: seq<Option<Delta>>,
                          recorded: Inventory, k: nat): Option<Inventory>
    requires k <= |deltas|
  {
    if k == 0 then Some(recorded) else
      var before := Replayed(apply, deltas, recorded, k - 1);
      if before.None? || deltas[k - 1].None? then None else apply(before.value, deltas[k - 1].value)
  }

  /** `chain_header`: the record names its link, its predecessor and its bootstrap exactly. */
  predicate HeaderOk(c: Chain, record: Review, i: nat)
    requires i < |c.links|
  {
    var link := c.links[i];
    && record.wellFormed
    && record.predecessor == Predecessor(link.tag, link.commit, link.anchor)
    && Published(c, i).Some?
    && record.qualified == Published(c, i).value.qualified
    && record.bootstrap == Bootstrap(link.tag, link.commit, link.release, true, c.trust)
    && record.deltas.Keys == c.scopes
  }

  function PathsOf(changes: seq<Change>): set<string> {
    set x | x in changes :: x.path
  }

  /** The inventory just before the record's own delta: every published review up to its link, replayed. */
  ghost function Previous(c: Chain, record: Review, recorded: Inventory, scope: Scope): Option<Inventory> {
    match IndexOf(c.links, record.release)
    case None => None
    case Some(i) => Replayed(c.apply, PublishedDeltas(c, scope), recorded, i + 1)
  }

  /** No change outside the trusted paths touches a protected path or a trust root, and in the runtime scope the
      trusted paths are exactly the ones changed. */
  predicate TrustOk(c: Chain, changes: seq<Change>, scope: Scope) {
    && (forall x :: x in changes && x.path !in c.trust ==> !c.isProtected(x.path) && x.path !in c.roots)
    && (scope == Runtime ==> c.trust <= PathsOf(changes))
  }

  ghost predicate Accepted(c: Chain, record: Review, recorded: Inventory, current: Inventory, artifact: Option<string>,
                           scope: Scope) {
    var i, previous := IndexOf(c.links, record.release), Previous(c, record, recorded, scope);
    && i.Some? && HeaderOk(c, record, i.value)
    && (artifact.Some? ==> record.manifestSha == artifact.value)
    && previous.Some? && scope in record.deltas
    && c.apply(previous.value, record.deltas[scope]) == Some(current)
    && TrustOk(c, record.deltas[scope].changes, scope)
  }

  // ----- The method -----

  method ValidateChain(c: Chain, record: Review, recorded: Inventory, current: Inventory, artifact: Option<string>,
                       scope: Scope)
    returns (ok: bool)
    ensures ok <==> Accepted(c, record, recorded, current, artifact, scope)
  {
    var index := IndexOf(c.links, record.release);
    if index == None || !HeaderOk(c, record, index.value) {
      return false;
    }
    if artifact.Some? && record.manifestSha != artifact.value {
      return false;
    }
    var deltas := PublishedDeltas(c, scope);
    var previous := Replay(c.apply, deltas, recorded, index.value + 1);
    if previous == None || scope !in record.deltas {
      return false;
    }
    var delta := record.deltas[scope];
    if c.apply(previous.value, delta) != Some(current) {
      return false;
    }
    ok := CheckTrust(c, delta.changes, scope);
  }

  /** The replay of the published reviews, oldest first. */
  method Replay(apply: (Inventory, Delta) -> Option<Inventory>, deltas: seq<Option<Delta>>, recorded: Inventory, k: nat)
    returns (r: Option<Inventory>)
    requires k <= |deltas|
    ensures r == Replayed(apply, deltas, recorded, k)
  {
    var inventory := recorded;
    for i := 0 to k
      invariant Replayed(apply, deltas, recorded, i) == Some(inventory)
    {
      var next := if deltas[i] == None then None else apply(inventory, deltas[i].value);
      if next == None {
        ReplayStops(apply, deltas, recorded, i + 1, k);
        return None;
      }
      inventory := next.value;
    }
    r := Some(inventory);
  }

  lemma {:induction false} ReplayStops(apply: (Inventory, Delta) -> Option<Inventory>, deltas: seq<Option<Delta>>,
                                       recorded: Inventory, i: nat, k: nat)
    requires i <= k <= |deltas| && Replayed(apply, deltas, recorded, i).None?
    ensures Replayed(apply, deltas, recorded, k).None?
  {
    if i < k {
      ReplayStops(apply, deltas, recorded, i, k - 1);
    }
  }

  method CheckTrust(c: Chain, changes: seq<Change>, scope: Scope) returns (ok: bool)
    ensures ok <==> TrustOk(c, changes, scope)
  {
    var changedTrust: set<string> := {};
    for i := 0 to |changes|
      invariant changedTrust == PathsOf(changes[..i]) * c.trust
      invariant forall j :: 0 <= j < i && changes[j].path !in c.trust ==>
              !c.isProtected(changes[j].path) && changes[j].path !in c.roots
    {
      var name := changes[i].path;
      assert changes[..i + 1] == changes[..i] + [changes[i]];
      if name in c.trust {
        changedTrust := changedTrust + {name};
      } else if c.isProtected(name) || name in c.roots {
        assert changes[i] in changes;
        return false;
      }
    }
    assert changes[..|changes|] == changes;
    ok := scope == Runtime ==> changedTrust == c.trust;
  }

  // ----- What acceptance means -----

  /** Telescoping: once an accepted review is the anchored predecessor of the next release, validating the next
      release from the same recorded inventory rebuilds exactly the inventory that was accepted. */
  lemma Telescopes(c: Chain, record: Review, next: Review, recorded: Inventory, current: Inventory,
                   artifact: Option<string>, scope: Scope)
    requires Accepted(c, record, recorded, current, artifact, scope)
    requires var i, j := IndexOf(c.links, record.release), IndexOf(c.links, next.release);
             i.Some? && j == Some(i.value + 1) && Published(c, j.value) == Some(record)
    ensures Previous(c, next, recorded, scope) == Some(current)
  {
    var i := IndexOf(c.links, record.release).value;
    ReplayOne(c.apply, PublishedDeltas(c, scope), recorded, i + 1, record.deltas[scope]);
  }

  lemma ReplayOne(apply: (Inventory, Delta) -> Option<Inventory>, deltas: seq<Option<Delta>>, recorded: Inventory,
                  k: nat, d: Delta)
    requires k < |deltas| && deltas[k] == Some(d) && Replayed(apply, deltas, recorded, k).Some?
    ensures Replayed(apply, deltas, recorded, k + 1) == apply(Replayed(apply, deltas, recorded, k).value, d)
  {
  }

  /** A whole history: `records[k]` sits at link `first + k` and is the published predecessor of the next one. */
  ghost predicate History(c: Chain, records: seq<Review>, first: nat) {
    && first + |records| <= |c.links|
    && (forall k :: 0 <= k < |records| ==> IndexOf(c.links, records[k].release) == Some(first + k))
    && (forall k :: 0 <= k < |records| - 1 ==> Published(c, first + k + 1) == Some(records[k]))
  }

  /** Every record of a history was accepted, from one and the same recorded inventory. */
  ghost predicate AcceptedHistory(c: Chain, records: seq<Review>, first: nat, recorded: Inventory,
                                  currents: seq<Inventory>, scope: Scope) {
    && History(c, records, first) && |currents| == |records|
    && forall k :: 0 <= k < |records| ==> Accepted(c, records[k], recorded, currents[k], None, scope)
  }

  /** The deltas of the records after the first, played on `start`. */
  ghost function Played(c: Chain, records: seq<Review>, start: Inventory, scope: Scope, k: nat): Option<Inventory>
    requires k < |records|
  {
    if k == 0 then Some(start) else
      var before := Played(c, records, start, scope, k - 1);
      if before.None? || scope !in records[k].deltas then None else c.apply(before.value, records[k].deltas[scope])
  }

  lemma HistoryStep(c: Chain, records: seq<Review>, first: nat, recorded: Inventory, currents: seq<Inventory>,
                    scope: Scope, k: nat)
    requires AcceptedHistory(c, records, first, recorded, currents, scope) && 0 < k < |records|
    ensures Accepted(c, records[k], recorded, currents[k], None, scope)
    ensures Previous(c, records[k], recorded, scope) == Some(currents[k - 1]) && scope in records[k].deltas
    ensures c.apply(currents[k - 1], records[k].deltas[scope]) == Some(currents[k])
  {
    hide HeaderOk, TrustOk, Replayed;
    assert Published(c, first + (k - 1) + 1) == Some(records[k - 1]);
    Telescopes(c, records[k - 1], records[k], recorded, currents[k - 1], None, scope);
  }

  /** Over a whole history the accepted inventories chain without a gap: although each was validated from the recorded
      inventory alone, playing the records' own deltas on the first accepted inventory gives every later one. */
  lemma {:induction false} HistoryChains(c: Chain, records: seq<Review>, first: nat, recorded: Inventory,
                                         currents: seq<Inventory>, scope: Scope, k: nat)
    requires AcceptedHistory(c, records, first, recorded, currents, scope) && k < |records|
    ensures Played(c, records, currents[0], scope, k) == Some(currents[k])
  {
    hide Accepted;
    if k > 0 {
      HistoryChains(c, records, first, recorded, currents, scope, k - 1);
      HistoryStep(c, records, first, recorded, currents, scope, k);
    }
  }

  /** A protected path or trust root outside the trusted paths keeps its predecessor's digest. */
  lemma ProtectedKept(c: Chain, record: Review, recorded: Inventory, current: Inventory, artifact: Option<string>,
                      scope: Scope, path: string)
    requires Accepted(c, record, recorded, current, artifact, scope)
    requires Exact(c.apply) && (c.isProtected(path) || path in c.roots) && path !in c.trust
    ensures Get(current, path) == Get(Previous(c, record, recorded, scope).value, path)
  {
    var changes := record.deltas[scope].changes;
    assert !Names(changes, path) by {
      forall i | 0 <= i < |changes| ensures changes[i].path != path {
        assert changes[i] in changes;
      }
    }
  }

  /** However long the history, such a path keeps the digest it had when the first record was accepted. */
  lemma {:induction false} HistoryProtects(c: Chain, records: seq<Review>, first: nat, recorded: Inventory,
                                           currents: seq<Inventory>, scope: Scope, k: nat, path: string)
    requires AcceptedHistory(c, records, first, recorded, currents, scope) && k < |records|
    requires Exact(c.apply) && (c.isProtected(path) || path in c.roots) && path !in c.trust
    ensures Get(currents[k], path) == Get(currents[0], path)
  {
    hide Accepted, Previous;
    if k > 0 {
      HistoryProtects(c, records, first, recorded, currents, scope, k - 1, path);
      HistoryStep(c, records, first, recorded, currents, scope, k);
      ProtectedKept(c, records[k], recorded, currents[k], None, scope, path);
    }
  }

  /** In the runtime scope every trusted path really changes. */
  lemma TrustedChanges(c: Chain, record: Review, recorded: Inventory, current: Inventory, artifact: Option<string>,
                       path: string)
    requires Accepted(c, record, recorded, current, artifact, Runtime) && Exact(c.apply) && path in c.trust
    ensures Get(current, path) != Get(Previous(c, record, recorded, Runtime).value, path)
  {
    var d := record.deltas[Runtime];
    assert path in PathsOf(d.changes);
    var i :| 0 <= i < |d.changes| && d.changes[i].path == path;
    assert Names(d.changes, path);
  }

  lemma {:induction false} ReplayKeepsUnnamed(apply: (Inventory, Delta) -> Option<Inventory>,
                                              deltas: seq<Option<Delta>>,
                                              recorded: Inventory, k: nat, path: string)
    requires Exact(apply) && k <= |deltas| && Replayed(apply, deltas, recorded, k).Some?
    requires forall i :: 0 <= i < k && deltas[i].Some? ==> !Names(deltas[i].value.changes, path)
    ensures Get(Replayed(apply, deltas, recorded, k).value, path) == Get(recorded, path)
  {
    if k > 0 {
      ReplayKeepsUnnamed(apply, deltas, recorded, k - 1, path);
    }
  }

  /** A path that no replayed delta and not the record names keeps its originally recorded digest. */
  lemma UnnamedKept(c: Chain, record: Review, recorded: Inventory, current: Inventory, artifact: Option<string>,
                    scope: Scope, path: string)
    requires Accepted(c, record, recorded, current, artifact, scope) && Exact(c.apply)
             && !Names(record.deltas[scope].changes, path)
    requires forall i :: 0 <= i <= IndexOf(c.links, record.release).value && PublishedDeltas(c, scope)[i].Some? ==>
               !Names(PublishedDeltas(c, scope)[i].value.changes, path)
    ensures Get(current, path) == Get(recorded, path)
  {
    ReplayKeepsUnnamed(c.apply, PublishedDeltas(c, scope), recorded, IndexOf(c.links, record.release).value + 1, path);
  }

  // ----- What the anchors bind -----

  /** Every published review up to the record's link is there and has the digest that its link anchors. */
  ghost predicate Anchored(c: Chain, release: string) {
    forall i, j :: 0 <= j <= i < |c.links| && c.links[i].release == release && OnlyAt(c.links, i) ==>
      c.links[j].file in c.files && c.reviewHash(c.files[c.links[j].file]) == c.links[j].anchor
  }

  /** The releases of the links are different; in the source they are the keys of a dictionary. */
  ghost predicate OnlyAt(links: seq<Link>, i: nat)
    requires i < |links|
  {
    forall k :: 0 <= k < |links| && k != i ==> links[k].release != links[i].release
  }

  lemma AcceptedIsAnchored(c: Chain, record: Review, recorded: Inventory, current: Inventory,
                           artifact: Option<string>, scope: Scope)
    requires Accepted(c, record, recorded, current, artifact, scope)
    ensures exists i :: 0 <= i < |c.links| && c.links[i].release == record.release
    ensures Anchored(c, record.release)
  {
    forall i, j | 0 <= j <= i < |c.links| && c.links[i].release == record.release && OnlyAt(c.links, i)
      ensures c.links[j].file in c.files && c.reviewHash(c.files[c.links[j].file]) == c.links[j].anchor
    {
      hide Honest, Trusting, Accepted;
      AcceptedMeaning(c, record, recorded, current, artifact, scope, i);
      var path :| Leads(c, record, recorded, current, scope, i, path);
      assert Extends(c, scope, j, path[j], path[j + 1]);
    }
  }

  /** So with a collision-free digest the anchors fix every review that is replayed: an acceptance over other files
      than these, for the same links, replays the very same reviews. */
  lemma AnchorsFixTheFiles(c: Chain, files: map<string, Review>, record: Review, record': Review, recorded: Inventory,
                           recorded': Inventory, current: Inventory, current': Inventory, artifact: Option<string>,
                           artifact': Option<string>, scope: Scope, scope': Scope, i: nat, j: nat)
    requires forall a, b :: c.reviewHash(a) == c.reviewHash(b) ==> a == b
    requires Accepted(c, record, recorded, current, artifact, scope)
    requires Accepted(c.(files := files), record', recorded', current', artifact', scope')
    requires record.release == record'.release && j <= i < |c.links| && c.links[i].release == record.release
    requires OnlyAt(c.links, i)
    ensures c.links[j].file in c.files && c.links[j].file in files && files[c.links[j].file] == c.files[c.links[j].file]
  {
    AcceptedIsAnchored(c, record, recorded, current, artifact, scope);
    AcceptedIsAnchored(c.(files := files), record', recorded', current', artifact', scope');
  }

  /** An edited review, anywhere up to the record's link, is refused whatever the rest says. */
  lemma TamperingIsRefused(c: Chain, record: Review, recorded: Inventory, current: Inventory,
                           artifact: Option<string>, scope: Scope, i: nat, j: nat)
    requires j <= i < |c.links| && c.links[i].release == record.release && OnlyAt(c.links, i)
    requires c.links[j].file !in c.files || c.reviewHash(c.files[c.links[j].file]) != c.links[j].anchor
    ensures !Accepted(c, record, recorded, current, artifact, scope)
  {
    if Accepted(c, record, recorded, current, artifact, scope) {
      AcceptedIsAnchored(c, record, recorded, current, artifact, scope);
    }
  }

  /** What an accepted record says of itself, field by field: it extends the base of its own link and its predecessor's
      anchored review, keeps the native evidence of that review, and claims exactly the trusted paths and the scopes. */
  ghost predicate Honest(c: Chain, record: Review, i: nat)
    requires i < |c.links|
  {
    && record.wellFormed
    && record.predecessor.tag == c.links[i].tag && record.predecessor.commit == c.links[i].commit
    && record.predecessor.reviewSha == c.links[i].anchor
    && record.bootstrap.tag == c.links[i].tag && record.bootstrap.commit == c.links[i].commit
    && record.bootstrap.release == record.release && record.bootstrap.anchored
    && record.bootstrap.trustPaths == c.trust && record.deltas.Keys == c.scopes
    && c.links[i].file in c.files && record.qualified == c.files[c.links[i].file].qualified
  }

  /** The inventories from the recorded one to the current one: one for each anchored review up to the record's link,
      and one for the record's own delta. */
  ghost predicate Leads(c: Chain, record: Review, recorded: Inventory, current: Inventory, scope: Scope, i: nat,
                        path: seq<Inventory>)
    requires i < |c.links| && scope in record.deltas
  {
    && |path| == i + 3 && path[0] == recorded && path[i + 2] == current
    && (forall j :: 0 <= j <= i ==> Extends(c, scope, j, path[j], path[j + 1]))
    && c.apply(path[i + 1], record.deltas[scope]) == Some(path[i + 2])
  }

  ghost predicate Extends(c: Chain, scope: Scope, j: nat, before: Inventory, after: Inventory)
    requires j < |c.links|
  {
    var file := c.links[j].file;
    && file in c.files && c.reviewHash(c.files[file]) == c.links[j].anchor && scope in c.files[file].deltas
    && c.apply(before, c.files[file].deltas[scope]) == Some(after)
  }

  ghost predicate Trusting(c: Chain, changes: seq<Change>, scope: Scope) {
    && (forall k :: 0 <= k < |changes| && (c.isProtected(changes[k].path) || changes[k].path in c.roots) ==>
          changes[k].path in c.trust)
    && (scope == Runtime ==>
          forall path :: path in c.trust ==> exists k :: 0 <= k < |changes| && changes[k].path == path)
  }

  lemma TrustMeaning(c: Chain, changes: seq<Change>, scope: Scope)
    ensures TrustOk(c, changes, scope) <==> Trusting(c, changes, scope)
  {
    assert forall k :: 0 <= k < |changes| ==> changes[k] in changes && changes[k].path in PathsOf(changes);
    if TrustOk(c, changes, scope) && scope == Runtime {
      forall path | path in c.trust ensures exists k :: 0 <= k < |changes| && changes[k].path == path {
        assert path in PathsOf(changes);
      }
    }
  }

  /** Acceptance over the links and files themselves: the record is honest about its link, the anchored reviews and then
      its own delta lead from the recorded inventory to the current one, and its changes are trusted. */
  lemma AcceptedMeaning(c: Chain, record: Review, recorded: Inventory, current: Inventory, artifact: Option<string>,
                        scope: Scope, i: nat)
    requires i < |c.links| && c.links[i].release == record.release && OnlyAt(c.links, i)
    ensures Accepted(c, record, recorded, current, artifact, scope) <==>
              && Honest(c, record, i) && (artifact.Some? ==> record.manifestSha == artifact.value)
              && scope in record.deltas && (exists path :: Leads(c, record, recorded, current, scope, i, path))
              && Trusting(c, record.deltas[scope].changes, scope)
  {
    hide Accepted, Honest, Leads, Trusting;
    if Accepted(c, record, recorded, current, artifact, scope) {
      var path := AcceptedLeads(c, record, recorded, current, artifact, scope, i);
    }
    if Honest(c, record, i) && (artifact.Some? ==> record.manifestSha == artifact.value) && scope in record.deltas {
      if path :| Leads(c, record, recorded, current, scope, i, path) {
        if Trusting(c, record.deltas[scope].changes, scope) {
          LeadsAccepted(c, record, recorded, current, artifact, scope, i, path);
        }
      }
    }
  }

  lemma AcceptedLeads(c: Chain, record: Review, recorded: Inventory, current: Inventory, artifact: Option<string>,
                      scope: Scope, i: nat) returns (path: seq<Inventory>)
    requires i < |c.links| && c.links[i].release == record.release && OnlyAt(c.links, i)
    requires Accepted(c, record, recorded, current, artifact, scope)
    ensures Honest(c, record, i) && (artifact.Some? ==> record.manifestSha == artifact.value)
    ensures scope in record.deltas && Leads(c, record, recorded, current, scope, i, path)
    ensures Trusting(c, record.deltas[scope].changes, scope)
  {
    assert IndexOf(c.links, record.release).value == i;
    hide Replayed, IndexOf, TrustOk, Trusting, HeaderOk, Honest;
    HeaderMeaning(c, record, i);
    TrustMeaning(c, record.deltas[scope].changes, scope);
    path := ReplayPath(c, scope, recorded, i + 1);
    path := path + [current];
  }

  lemma LeadsAccepted(c: Chain, record: Review, recorded: Inventory, current: Inventory, artifact: Option<string>,
                      scope: Scope, i: nat, path: seq<Inventory>)
    requires i < |c.links| && c.links[i].release == record.release && OnlyAt(c.links, i)
    requires Honest(c, record, i) && (artifact.Some? ==> record.manifestSha == artifact.value)
    requires scope in record.deltas && Leads(c, record, recorded, current, scope, i, path)
    requires Trusting(c, record.deltas[scope].changes, scope)
    ensures Accepted(c, record, recorded, current, artifact, scope)
  {
    assert IndexOf(c.links, record.release).value == i;
    hide Replayed, IndexOf, TrustOk, Trusting, HeaderOk, Honest;
    assert Extends(c, scope, i, path[i], path[i + 1]);
    HeaderMeaning(c, record, i);
    TrustMeaning(c, record.deltas[scope].changes, scope);
    LeadsReplay(c, scope, path, i + 1);
  }

  lemma HeaderMeaning(c: Chain, record: Review, i: nat)
    requires i < |c.links| && c.links[i].release == record.release
    ensures HeaderOk(c, record, i) ==> Honest(c, record, i)
    ensures c.links[i].file in c.files && c.reviewHash(c.files[c.links[i].file]) == c.links[i].anchor ==>
              (Honest(c, record, i) ==> HeaderOk(c, record, i))
  {
  }

  lemma {:induction false} ReplayPath(c: Chain, scope: Scope, recorded: Inventory, k: nat)
    returns (path: seq<Inventory>)
    requires k <= |c.links| && Replayed(c.apply, PublishedDeltas(c, scope), recorded, k).Some?
    ensures |path| == k + 1 && path[0] == recorded
    ensures Some(path[k]) == Replayed(c.apply, PublishedDeltas(c, scope), recorded, k)
    ensures forall j :: 0 <= j < k ==> Extends(c, scope, j, path[j], path[j + 1])
  {
    if k == 0 {
      path := [recorded];
    } else {
      path := ReplayPath(c, scope, recorded, k - 1);
      path := path + [Replayed(c.apply, PublishedDeltas(c, scope), recorded, k).value];
      assert PublishedDeltas(c, scope)[k - 1] == PublishedDelta(c, scope, k - 1);
    }
  }

  lemma {:induction false} LeadsReplay(c: Chain, scope: Scope, path: seq<Inventory>, k: nat)
    requires k <= |c.links| && k < |path|
    requires forall j :: 0 <= j < k ==> Extends(c, scope, j, path[j], path[j + 1])
    ensures Replayed(c.apply, PublishedDeltas(c, scope), path[0], k) == Some(path[k])
  {
    if k > 0 {
      LeadsReplay(c, scope, path, k - 1);
      assert Extends(c, scope, k - 1, path[k - 1], path[k]);
      assert PublishedDeltas(c, scope)[k - 1] == PublishedDelta(c, scope, k - 1);
    }
  }

  // ----- With the deltas as they are -----

  /** One acceptance, when deltas act on inventories as `apply_chain_delta` does. */
  lemma AcceptanceOfDeltas(hash: Inventory -> string, c: Chain, record: Review, recorded: Inventory, current: Inventory,
                           artifact: Option<string>, scope: Scope, path: string)
    requires c.apply == Action(hash) && Accepted(c, record, recorded, current, artifact, scope)
    ensures var before := Previous(c, record, recorded, scope).value;
            && Applied(hash, before, record.deltas[scope]) == Some(current)
            && ((c.isProtected(path) || path in c.roots) && path !in c.trust ==>
                  Get(current, path) == Get(before, path))
            && (scope == Runtime && path in c.trust ==> Get(current, path) != Get(before, path))
  {
    ActionIsExact(hash);
    if (c.isProtected(path) || path in c.roots) && path !in c.trust {
      ProtectedKept(c, record, recorded, current, artifact, scope, path);
    }
    if scope == Runtime && path in c.trust {
      TrustedChanges(c, record, recorded, current, artifact, path);
    }
  }

  /** A whole history of such acceptances. */
  lemma HistoryOfDeltas(hash: Inventory -> string, c: Chain, records: seq<Review>, first: nat, recorded: Inventory,
                        currents: seq<Inventory>, scope: Scope, k: nat, path: string)
    requires c.apply == Action(hash) && AcceptedHistory(c, records, first, recorded, currents, scope) && k < |records|
    ensures Played(c, records, currents[0], scope, k) == Some(currents[k])
    ensures (c.isProtected(path) || path in c.roots) && path !in c.trust ==>
              Get(currents[k], path) == Get(currents[0], path)
  {
    ActionIsExact(hash);
    HistoryChains(c, records, first, recorded, currents, scope, k);
    if (c.isProtected(path) || path in c.roots) && path !in c.trust {
      HistoryProtects(c, records, first, recorded, currents, scope, k, path);
    }
  }
}
