// `CheckDatabaseNodeReservations`: deep copies, caches and de-duplication, over maps that
// Go iterates in any order, against a plain description of what each reservation becomes.

module Reservations {
  import opened Base

  datatype Workload = Workload(kind: string, id: string, detail: int)

  /** Ownership of one namespace; the nested tables are copied but never changed, so they are values here. */
  datatype NamespaceOwnership = NamespaceOwnership(uid: string, controllers: map<string, string>,
                                                   nodes: map<string, int>)

  datatype PoolOwnership = PoolOwnership(workloads: seq<Workload>, namespaces: map<string, NamespaceOwnership>)

  /** The store as deterministic reads; None and false are errors. `pooled` says that a capacity pool is configured,
      and `cut` splits a scope into project and environment: it is `Cut` below. */
  datatype Store = Store(pooled: bool,
                         cut: string -> Option<(string, string)>,
                         checkScope: (string, string) -> bool,
                         scopeWorkloads: (string, string) -> Option<seq<Workload>>,
                         scopePool: (string, string) -> Option<string>,
                         platformScopes: string -> Option<seq<string>>,
                         checkPlatform: (string, string) -> bool,
                         ownership: string -> Option<PoolOwnership>)

  const MAX_SCOPES: nat := 64

  // ----- Scopes -----

  /** The position of the first slash at or after `i`, or the length. */
  function SlashFrom(s: string, i: nat): (k: nat)
    requires i <= |s|
    ensures i <= k <= |s|
    decreases |s| - i
  {
    if i == |s| || s[i] == '/' then i else SlashFrom(s, i + 1)
  }

  /** `strings.Cut` at the first slash. */
  function Cut(s: string): Option<(string, string)> {
    var i := SlashFrom(s, 0);
    if i < |s| then Some((s[..i], s[i + 1..])) else None
  }

  lemma {:induction false} SlashFromMeaning(s: string, i: nat)
    requires i <= |s|
    ensures forall j :: i <= j < SlashFrom(s, i) ==> s[j] != '/'
    ensures SlashFrom(s, i) < |s| ==> s[SlashFrom(s, i)] == '/'
    decreases |s| - i
  {
    if i < |s| && s[i] != '/' {
      SlashFromMeaning(s, i + 1);
    }
  }

  /** The parts around the first slash give the text back. */
  lemma CutMeaning(s: string)
    ensures Cut(s).None? <==> '/' !in s
    ensures Cut(s).Some? ==> s == Cut(s).value.0 + "/" + Cut(s).value.1 && '/' !in Cut(s).value.0
  {
    SlashFromMeaning(s, 0);
  }

  lemma {:induction false} SlashAt(s: string, i: nat, k: nat)
    requires i <= k <= |s| && (forall j :: i <= j < k ==> s[j] != '/') && (k < |s| ==> s[k] == '/')
    ensures SlashFrom(s, i) == k
    decreases k - i
  {
    if i < k {
      SlashAt(s, i + 1, k);
    }
  }

  /** Cutting finds the parts of any text put together from them. */
  lemma CutJoined(head: string, tail: string)
    requires '/' !in head
    ensures Cut(head + "/" + tail) == Some((head, tail))
  {
    var s := head + "/" + tail;
    SlashAt(s, 0, |head|);
    assert s[..|head|] == head && s[|head| + 1..] == tail;
  }

  /** What a usable scope looks like: a project and an environment around its first slash, neither of them empty. */
  ghost predicate Names(scope: string, project: string, environment: string) {
    scope == project + "/" + environment && '/' !in project && project != "" && environment != ""
  }

  lemma ScopeMeaning(store: Store, scope: string)
    requires store.cut(scope) == Cut(scope)
    ensures ScopeOk(store, scope) <==>
            exists project, environment :: Names(scope, project, environment) && store.checkScope(project, environment)
  {
    CutMeaning(scope);
    if ScopeOk(store, scope) {
      assert Names(scope, Cut(scope).value.0, Cut(scope).value.1);
    }
    if project, environment :| Names(scope, project, environment) && store.checkScope(project, environment) {
      CutJoined(project, environment);
    }
  }

  predicate ScopeOk(store: Store, scope: string) {
    match store.cut(scope)
    case None => false
    case Some((project, environment)) => project != "" && environment != "" && store.checkScope(project, environment)
  }

  predicate PlatformOk(store: Store, scope: string) {
    match store.cut(scope)
    case None => false
    case Some((project, environment)) => store.checkPlatform(project, environment)
  }

  /** Everything that is read about a pool can be read. */
  predicate PoolOk(store: Store, pool: string) {
    && store.ownership(pool).Some?
    && store.platformScopes(pool).Some?
    && forall s :: s in store.platformScopes(pool).value ==> PlatformOk(store, s)
  }

  function PoolOf(store: Store, scope: string): Option<string> {
    match store.cut(scope)
    case None => None
    case Some((project, environment)) => store.scopePool(project, environment)
  }

  function WorkloadsOf(store: Store, scope: string): Option<seq<Workload>> {
    match store.cut(scope)
    case None => None
    case Some((project, environment)) => store.scopeWorkloads(project, environment)
  }

  /** One scope of a reservation raises no error, apart from the bound on distinct scopes. */
  predicate Usable(store: Store, scope: string) {
    && ScopeOk(store, scope)
    && if store.pooled then PoolOf(store, scope).Some? && PoolOk(store, PoolOf(store, scope).value)
       else WorkloadsOf(store, scope).Some?
  }

  // ----- The plain description -----

  /** A reservation as a value. */
  datatype Plain = Plain(workloads: seq<Workload>, namespaces: map<string, NamespaceOwnership>,
                         managed: map<string, NamespaceOwnership>, scopes: seq<string>)

  function KeyOf(w: Workload): string {
    w.kind + "\0" + w.id
  }

  function Keys(ws: seq<Workload>): set<string> {
    set w | w in ws :: KeyOf(w)
  }

  /** `base` with each addition whose key is not there yet. */
  function AppendMissing(base: seq<Workload>, additions: seq<Workload>): seq<Workload> {
    if additions == [] then base else
      var k := |additions| - 1;
      var before := AppendMissing(base, additions[..k]);
      if KeyOf(additions[k]) in Keys(before) then before else before + [additions[k]]
  }

  /** The pools of the scopes, each once, in the order in which they first occur. */
  function Pools(store: Store, scopes: seq<string>): seq<string> {
    if scopes == [] then [] else
      var k := |scopes| - 1;
      var before := Pools(store, scopes[..k]);
      match PoolOf(store, scopes[k])
      case None => before
      case Some(pool) => if pool in before then before else before + [pool]
  }

  function PoolWorkloads(store: Store, pools: seq<string>): seq<Workload> {
    if pools == [] then [] else
      var k := |pools| - 1;
      PoolWorkloads(store, pools[..k]) + match store.ownership(pools[k]) case None => [] case Some(o) => o.workloads
  }

  /** Namespace tables merged in pool order; a later pool wins. */
  function PoolNamespaces(store: Store, base: map<string, NamespaceOwnership>,
                          pools: seq<string>): map<string, NamespaceOwnership> {
    if pools == [] then base else
      var k := |pools| - 1;
      PoolNamespaces(store, base, pools[..k]) +
        match store.ownership(pools[k]) case None => map[] case Some(o) => o.namespaces
  }

  function DatabasesOnly(ws: seq<Workload>): seq<Workload> {
    if ws == [] then [] else
      DatabasesOnly(ws[..|ws| - 1]) + if ws[|ws| - 1].kind == "database" then [ws[|ws| - 1]] else []
  }

  function ScopeWorkloads(store: Store, scopes: seq<string>): seq<Workload> {
    if scopes == [] then [] else
      var k := |scopes| - 1;
      ScopeWorkloads(store, scopes[..k]) +
        match WorkloadsOf(store, scopes[k]) case None => [] case Some(ws) => DatabasesOnly(ws)
  }

  /** What a reservation becomes, without caches: the store's workloads it lacks are appended, and the namespaces
      of its pools are added. */
  function Prepared(store: Store, p: Plain): Plain {
    if store.pooled then
      var pools := Pools(store, p.scopes);
      p.(workloads := AppendMissing(p.workloads, PoolWorkloads(store, pools)),
         namespaces := PoolNamespaces(store, p.namespaces, pools))
    else p.(workloads := AppendMissing(p.workloads, ScopeWorkloads(store, p.scopes)))
  }

  /** When the whole preparation succeeds, given the scopes that any reservation names. */
  ghost predicate Preparable(store: Store, scopes: set<string>) {
    (forall s :: s in scopes ==> Usable(store, s)) && |scopes| <= MAX_SCOPES
  }

  // ----- Laws of the description -----

  lemma {:induction false} AppendMissingMeaning(base: seq<Workload>, additions: seq<Workload>)
    ensures AddsMissing(base, additions, AppendMissing(base, additions))
  {
    hide AddsMissing;
    if additions == [] {
      NothingMissing(base);
    } else {
      var k := |additions| - 1;
      AppendMissingMeaning(base, additions[..k]);
      assert additions == additions[..k] + [additions[k]];
      OneMissing(base, AppendMissing(base, additions[..k]), additions[..k], additions[k]);
    }
  }

  /** `r` is the base followed by additions, has exactly the keys of both, and no addition repeats a key before it. */
  ghost predicate AddsMissing(base: seq<Workload>, additions: seq<Workload>, r: seq<Workload>) {
    && base <= r
    && Keys(r) == Keys(base) + Keys(additions)
    && (forall i, j :: |base| <= i < |r| && 0 <= j < i ==> KeyOf(r[j]) != KeyOf(r[i]))
    && (forall i :: |base| <= i < |r| ==> r[i] in additions)
  }

  lemma NothingMissing(base: seq<Workload>)
    ensures AddsMissing(base, [], base)
  {
  }

  lemma OneMissing(base: seq<Workload>, r: seq<Workload>, additions: seq<Workload>, w: Workload)
    requires AddsMissing(base, additions, r)
    ensures AddsMissing(base, additions + [w], if KeyOf(w) in Keys(r) then r else r + [w])
  {
    KeysOfOneMore(r, w);
    KeysOfOneMore(additions, w);
    hide Keys, KeyOf;
  }

  lemma KeysOfOneMore(s: seq<Workload>, w: Workload)
    ensures Keys(s + [w]) == Keys(s) + {KeyOf(w)}
    ensures KeyOf(w) !in Keys(s) ==> forall j :: 0 <= j < |s| ==> KeyOf(s[j]) != KeyOf(w)
  {
    hide KeyOf;
    assert forall j :: 0 <= j < |s| ==> KeyOf(s[j]) in Keys(s);
  }

  lemma {:induction false} AppendMissingTwice(base: seq<Workload>, a: seq<Workload>, b: seq<Workload>)
    ensures AppendMissing(base, a + b) == AppendMissing(AppendMissing(base, a), b)
  {
    hide Keys, KeyOf;
    if b == [] {
      assert a + b == a;
    } else {
      var k := |b| - 1;
      AppendMissingTwice(base, a, b[..k]);
      assert (a + b)[..|a + b| - 1] == a + b[..k];
    }
  }

  /** Preparing changes neither the scopes nor the managed namespaces, keeps the caller's workloads in front,
      adds no duplicate key, and yields exactly the keys of the caller and of the store. */
  lemma PreparedMeaning(store: Store, p: Plain)
    ensures var q := Prepared(store, p);
            && q.scopes == p.scopes && q.managed == p.managed
            && p.workloads <= q.workloads
            && Keys(q.workloads) == Keys(p.workloads) +
                 Keys(if store.pooled then PoolWorkloads(store, Pools(store, p.scopes))
                   else ScopeWorkloads(store, p.scopes))
            && (forall i, j :: |p.workloads| <= i < |q.workloads| && 0 <= j < i ==>
              KeyOf(q.workloads[j]) != KeyOf(q.workloads[i]))
  {
    AppendMissingMeaning(p.workloads, if store.pooled then PoolWorkloads(store, Pools(store, p.scopes))
      else ScopeWorkloads(store, p.scopes));
  }

  // ----- The description over the fields of the workloads -----

  /** One workload, whatever its details: the kind and the id are the same. */
  predicate Same(a: Workload, b: Workload) {
    a.kind == b.kind && a.id == b.id
  }

  /** No kind holds the character that separates it from the id in a key. */
  ghost predicate PlainKinds(ws: seq<Workload>) {
    forall w :: w in ws ==> '\0' !in w.kind
  }

  lemma KeyMeaning(a: Workload, b: Workload)
    requires '\0' !in a.kind && '\0' !in b.kind
    ensures KeyOf(a) == KeyOf(b) <==> Same(a, b)
  {
    if KeyOf(a) == KeyOf(b) {
      var i := |a.kind|;
      assert KeyOf(a)[i] == '\0' && KeyOf(b)[|b.kind|] == '\0';
      assert forall k :: 0 <= k < |a.kind| ==> KeyOf(a)[k] == a.kind[k];
      assert forall k :: 0 <= k < |b.kind| ==> KeyOf(b)[k] == b.kind[k];
      assert a.kind == KeyOf(a)[..i] && b.kind == KeyOf(b)[..i];
      assert a.id == KeyOf(a)[i + 1..] && b.id == KeyOf(b)[i + 1..];
    }
  }

  /** `w` is what the store holds for the scopes: a workload of one of their pools, or, without pools, a database of one
      of the scopes. */
  ghost predicate StoreHolds(store: Store, scopes: seq<string>, w: Workload) {
    if store.pooled then
      exists s, o :: Visits(store, scopes, s, o) && w in o.workloads
    else
      exists s :: s in scopes && OwnedBy(store, s, w)
  }

  /** A database of this scope. */
  ghost predicate OwnedBy(store: Store, s: string, w: Workload) {
    w.kind == "database" && WorkloadsOf(store, s).Some? && w in WorkloadsOf(store, s).value
  }

  lemma {:induction false} PoolWorkloadsHold(store: Store, pools: seq<string>, w: Workload)
    ensures w in PoolWorkloads(store, pools) <==>
            exists pool, o :: pool in pools && store.ownership(pool) == Some(o) && w in o.workloads
  {
    if pools != [] {
      var k := |pools| - 1;
      PoolWorkloadsHold(store, pools[..k], w);
      assert forall pool :: pool in pools <==> pool in pools[..k] || pool == pools[k];
    }
  }

  lemma {:induction false} DatabasesMeaning(ws: seq<Workload>, w: Workload)
    ensures w in DatabasesOnly(ws) <==> w in ws && w.kind == "database"
  {
    if ws != [] {
      var k := |ws| - 1;
      DatabasesMeaning(ws[..k], w);
      assert ws == ws[..k] + [ws[k]];
    }
  }

  lemma OwnedMeaning(store: Store, s: string, w: Workload)
    ensures OwnedBy(store, s, w) <==>
            w in match WorkloadsOf(store, s) case None => [] case Some(ws) => DatabasesOnly(ws)
  {
    hide WorkloadsOf;
    if WorkloadsOf(store, s).Some? {
      DatabasesMeaning(WorkloadsOf(store, s).value, w);
    }
  }

  lemma {:induction false} ScopeWorkloadsHold(store: Store, scopes: seq<string>, w: Workload)
    ensures w in ScopeWorkloads(store, scopes) <==> exists s :: s in scopes && OwnedBy(store, s, w)
  {
    hide DatabasesOnly, WorkloadsOf, OwnedBy;
    if scopes != [] {
      var k := |scopes| - 1;
      ScopeWorkloadsHold(store, scopes[..k], w);
      OwnedMeaning(store, scopes[k], w);
      assert forall s :: s in scopes <==> s in scopes[..k] || s == scopes[k];
    }
  }

  function Additions(store: Store, scopes: seq<string>): seq<Workload> {
    if store.pooled then PoolWorkloads(store, Pools(store, scopes)) else ScopeWorkloads(store, scopes)
  }

  lemma AdditionsMeaning(store: Store, scopes: seq<string>, w: Workload)
    ensures w in Additions(store, scopes) <==> StoreHolds(store, scopes, w)
  {
    hide PoolOf, WorkloadsOf, Pools, PoolWorkloads, ScopeWorkloads;
    if store.pooled {
      PoolWorkloadsHold(store, Pools(store, scopes), w);
      if pool, o :| pool in Pools(store, scopes) && store.ownership(pool) == Some(o) && w in o.workloads {
        PoolsMeaning(store, scopes, pool);
        var s :| s in scopes && PoolOf(store, s) == Some(pool);
        assert Visits(store, scopes, s, o);
      }
      if s, o :| Visits(store, scopes, s, o) && w in o.workloads {
        PoolsMeaning(store, scopes, PoolOf(store, s).value);
      }
    } else {
      ScopeWorkloadsHold(store, scopes, w);
    }
  }

  /** A prepared reservation, workload by workload: its own come first and unchanged; everything the store holds is
      there, by kind and id; what was added is held by the store, and repeats nothing before it. */
  lemma PreparedWorkloads(store: Store, p: Plain)
    requires PlainKinds(p.workloads) && forall w :: StoreHolds(store, p.scopes, w) ==> '\0' !in w.kind
    ensures var q := Prepared(store, p).workloads;
            && p.workloads <= q
            && (forall w :: StoreHolds(store, p.scopes, w) ==> exists v :: v in q && Same(v, w))
            && (forall i :: |p.workloads| <= i < |q| ==> StoreHolds(store, p.scopes, q[i]))
            && (forall i, j :: |p.workloads| <= i < |q| && 0 <= j < i ==> !Same(q[j], q[i]))
  {
    hide KeyOf, Same, StoreHolds, Additions;
    var q, additions := Prepared(store, p).workloads, Additions(store, p.scopes);
    PreparedIsAdded(store, p);
    forall w ensures w in additions <==> StoreHolds(store, p.scopes, w) {
      AdditionsMeaning(store, p.scopes, w);
    }
    FromEither(p.workloads, additions, q);
    forall w | StoreHolds(store, p.scopes, w) ensures exists v :: v in q && Same(v, w) {
      assert KeyOf(w) in Keys(q);
      var v :| v in q && KeyOf(v) == KeyOf(w);
      KeyMeaning(v, w);
    }
    forall i, j | |p.workloads| <= i < |q| && 0 <= j < i ensures !Same(q[j], q[i]) {
      assert q[i] in q && q[j] in q;
      KeyMeaning(q[j], q[i]);
    }
  }

  lemma PreparedIsAdded(store: Store, p: Plain)
    ensures AddsMissing(p.workloads, Additions(store, p.scopes), Prepared(store, p).workloads)
  {
    AppendMissingMeaning(p.workloads, Additions(store, p.scopes));
  }

  lemma FromEither(base: seq<Workload>, additions: seq<Workload>, r: seq<Workload>)
    requires AddsMissing(base, additions, r)
    ensures forall w :: w in r ==> w in base || w in additions
  {
    forall w | w in r ensures w in base || w in additions {
      var i :| 0 <= i < |r| && r[i] == w;
      assert i < |base| ==> r[i] == base[i];
    }
  }

  /** The namespaces after preparing: a pool's entry where one of the visited pools has one, and else the reservation's
      own; without pools nothing changes. */
  lemma PreparedNamespaces(store: Store, p: Plain, name: string)
    ensures var q := Prepared(store, p).namespaces;
            && (name in q <==> name in p.namespaces || (store.pooled && PoolsHave(store, p.scopes, name)))
            && (name in q ==>
                  if store.pooled && PoolsHave(store, p.scopes, name) then PoolHas(store, p.scopes, name, q[name])
                  else name in p.namespaces && q[name] == p.namespaces[name])
  {
    if store.pooled {
      var pools := Pools(store, p.scopes);
      PoolNamespacesMeaning(store, p.namespaces, pools, name);
      forall value ensures PoolHas(store, p.scopes, name, value) <==> AmongHas(store, pools, name, value) {
        PoolHasMeaning(store, p.scopes, name, value);
      }
      hide PoolHas, Pools, PoolOf, PoolNamespaces, Among;
      if o :| Among(store, pools, o) && name in o.namespaces {
        assert AmongHas(store, pools, name, o.namespaces[name]);
      }
    }
  }

  ghost predicate AmongHas(store: Store, pools: seq<string>, name: string, value: NamespaceOwnership) {
    exists o :: Among(store, pools, o) && name in o.namespaces && o.namespaces[name] == value
  }

  lemma PoolHasMeaning(store: Store, scopes: seq<string>, name: string, value: NamespaceOwnership)
    ensures PoolHas(store, scopes, name, value) <==> AmongHas(store, Pools(store, scopes), name, value)
  {
    var pools := Pools(store, scopes);
    forall pool ensures pool in pools <==> exists s :: s in scopes && PoolOf(store, s) == Some(pool) {
      PoolsMeaning(store, scopes, pool);
    }
    hide Pools, PoolOf;
    if s, o :| Visits(store, scopes, s, o) && name in o.namespaces && o.namespaces[name] == value {
      assert PoolOf(store, s).value in pools;
      assert Among(store, pools, o);
    }
    if o :| Among(store, pools, o) && name in o.namespaces && o.namespaces[name] == value {
      var pool :| pool in pools && store.ownership(pool) == Some(o);
      var s :| s in scopes && PoolOf(store, s) == Some(pool);
      assert Visits(store, scopes, s, o);
    }
  }

  ghost predicate Visits(store: Store, scopes: seq<string>, s: string, o: PoolOwnership) {
    s in scopes && PoolOf(store, s).Some? && store.ownership(PoolOf(store, s).value) == Some(o)
  }

  ghost predicate Among(store: Store, pools: seq<string>, o: PoolOwnership) {
    exists pool :: pool in pools && store.ownership(pool) == Some(o)
  }

  ghost predicate PoolHas(store: Store, scopes: seq<string>, name: string, value: NamespaceOwnership) {
    exists s, o :: Visits(store, scopes, s, o) && name in o.namespaces && o.namespaces[name] == value
  }

  ghost predicate PoolsHave(store: Store, scopes: seq<string>, name: string) {
    exists value :: PoolHas(store, scopes, name, value)
  }

  lemma {:induction false} PoolNamespacesMeaning(store: Store, base: map<string, NamespaceOwnership>,
                                                 pools: seq<string>, name: string)
    ensures var q := PoolNamespaces(store, base, pools);
            && (name in q <==> name in base || exists o :: Among(store, pools, o) && name in o.namespaces)
            && (name in q ==>
                  if exists o :: Among(store, pools, o) && name in o.namespaces
                  then exists o :: Among(store, pools, o) && name in o.namespaces && o.namespaces[name] == q[name]
                  else name in base && q[name] == base[name])
  {
    if pools != [] {
      var k := |pools| - 1;
      PoolNamespacesMeaning(store, base, pools[..k], name);
      forall o ensures Among(store, pools, o) <==>
                       Among(store, pools[..k], o) || store.ownership(pools[k]) == Some(o)
      {
        assert forall pool :: pool in pools <==> pool in pools[..k] || pool == pools[k];
      }
    }
  }

  /** The keys a pooled reservation gains are those of the pools of its scopes, whatever order the pools came in. */
  lemma {:induction false} PoolWorkloadKeys(store: Store, pools: seq<string>, key: string)
    ensures key in Keys(PoolWorkloads(store, pools)) <==>
            exists pool :: pool in pools && store.ownership(pool).Some?
              && key in Keys(store.ownership(pool).value.workloads)
  {
    if pools != [] {
      var k := |pools| - 1;
      PoolWorkloadKeys(store, pools[..k], key);
      var before, own := PoolWorkloads(store, pools[..k]),
        match store.ownership(pools[k]) case None => [] case Some(o) => o.workloads;
      assert forall w :: w in before + own <==> w in before || w in own;
      assert key in Keys(before + own) <==> key in Keys(before) || key in Keys(own);
      assert forall pool :: pool in pools <==> pool in pools[..k] || pool == pools[k];
    }
  }

  lemma {:induction false} PoolsMeaning(store: Store, scopes: seq<string>, pool: string)
    ensures pool in Pools(store, scopes) <==> exists s :: s in scopes && PoolOf(store, s) == Some(pool)
  {
    if scopes != [] {
      var k := |scopes| - 1;
      PoolsMeaning(store, scopes[..k], pool);
      assert forall s :: s in scopes <==> s in scopes[..k] || s == scopes[k];
    }
  }

  /** Each pool is visited once. */
  lemma {:induction false} PoolsDistinct(store: Store, scopes: seq<string>, i: nat, j: nat)
    requires i < j < |Pools(store, scopes)|
    ensures Pools(store, scopes)[i] != Pools(store, scopes)[j]
  {
    var k := |scopes| - 1;
    var before := Pools(store, scopes[..k]);
    if j < |before| {
      PoolsDistinct(store, scopes[..k], i, j);
    } else {
      assert before[i] in before;
    }
  }

  // ----- Slices and tables on the heap -----

  /** A Go slice: a shared backing array of some capacity, and a length. */
  datatype Slice = Slice(backing: array<Workload>, len: nat)

  ghost predicate SliceOk(s: Slice) {
    s.len <= s.backing.Length
  }

  function Contents(s: Slice): seq<Workload>
    requires SliceOk(s)
    reads s.backing
  {
    s.backing[..s.len]
  }

  /** `append` of one element: in place while the capacity lasts, else into a larger array. */
  method Append(s: Slice, w: Workload) returns (t: Slice)
    requires SliceOk(s)
    modifies s.backing
    ensures SliceOk(t) && Contents(t) == old(Contents(s)) + [w]
    ensures t.backing == s.backing || fresh(t.backing)
  {
    if s.len < s.backing.Length {
      s.backing[s.len] := w;
      t := Slice(s.backing, s.len + 1);
    } else {
      var larger := new Workload[2 * s.len + 1];
      forall i | 0 <= i < s.len {
        larger[i] := s.backing[i];
      }
      larger[s.len] := w;
      t := Slice(larger, s.len + 1);
    }
    assert Contents(t)[..s.len] == old(Contents(s));
  }

  /** `append(nil, s...)`. */
  method Clone(s: Slice) returns (t: Slice)
    requires SliceOk(s)
    ensures SliceOk(t) && fresh(t.backing) && Contents(t) == Contents(s)
  {
    var copy := new Workload[s.len];
    forall i | 0 <= i < s.len {
      copy[i] := s.backing[i];
    }
    t := Slice(copy, s.len);
  }

  /** A Go map from namespace to ownership. */
  class Table {
    var entries: map<string, NamespaceOwnership>

    constructor (entries: map<string, NamespaceOwnership>)
      ensures this.entries == entries
    {
      this.entries := entries;
    }

    /** The loop that copies one table's entries over another's, in any order. */
    method Absorb(other: map<string, NamespaceOwnership>)
      modifies this
      ensures entries == old(entries) + other
    {
      var todo := other.Keys;
      while todo != {}
        invariant todo <= other.Keys
        invariant entries == old(entries) + (map n | n in other && n !in todo :: other[n])
        decreases todo
      {
        var n :| n in todo;
        entries := entries[n := other[n]];
        todo := todo - {n};
      }
      assert (map n | n in other && n !in todo :: other[n]) == other;
    }
  }

  datatype Reservation = Reservation(workloads: Slice, namespaces: Table, managed: Table, scopes: seq<string>)

  function Snapshot(r: Reservation): Plain
    requires SliceOk(r.workloads)
    reads r.workloads.backing, r.namespaces, r.managed
  {
    Plain(Contents(r.workloads), r.namespaces.entries, r.managed.entries, r.scopes)
  }

  /** The additions that a slice lacks are appended, each key once. */
  method AddMissing(s: Slice, additions: seq<Workload>) returns (t: Slice)
    requires SliceOk(s)
    modifies s.backing
    ensures SliceOk(t) && (t.backing == s.backing || fresh(t.backing))
    ensures Contents(t) == AppendMissing(old(Contents(s)), additions)
  {
    t := s;
    var keys := Keys(Contents(s));
    ghost var base := Contents(s);
    for i := 0 to |additions|
      invariant SliceOk(t) && (t.backing == s.backing || fresh(t.backing))
      invariant keys == Keys(Contents(t))
      invariant Contents(t) == AppendMissing(base, additions[..i])
    {
      var w := additions[i];
      assert additions[..i + 1][..i] == additions[..i];
      if KeyOf(w) !in keys {
        ghost var before := Contents(t);
        t := Append(t, w);
        assert Keys(before + [w]) == Keys(before) + {KeyOf(w)};
        keys := keys + {KeyOf(w)};
      }
    }
    assert additions[..|additions|] == additions;
  }

  // ----- The caches -----

  /** Cached checks passed, and each was made exactly once. */
  ghost predicate ScopesCached(store: Store, checked: set<string>, calls: seq<string>) {
    (forall s :: s in checked ==> ScopeOk(store, s)) && |checked| <= MAX_SCOPES && multiset(calls) == multiset(checked)
  }

  ghost predicate PlatformCached(store: Store, checked: set<string>, calls: seq<string>) {
    (forall s :: s in checked ==> PlatformOk(store, s)) && multiset(calls) == multiset(checked)
  }

  /** Cached ownership is the store's, and each pool was loaded exactly once. */
  ghost predicate PoolsCached(store: Store, pools: map<string, PoolOwnership>, calls: seq<string>) {
    (forall p :: p in pools ==> PoolOk(store, p) && store.ownership(p) == Some(pools[p]))
      && multiset(calls) == multiset(pools.Keys)
  }

  /** What one call has checked and loaded so far. The three call lists record the reads really made. */
  class Caches {
    const store: Store
    var checkedScopes: set<string>
    var checkedPlatformScopes: set<string>
    var poolOwnership: map<string, PoolOwnership>
    ghost var scopeCalls: seq<string>
    ghost var platformCalls: seq<string>
    ghost var poolCalls: seq<string>

    ghost predicate Valid()
      reads this
    {
      && ScopesCached(store, checkedScopes, scopeCalls)
      && PlatformCached(store, checkedPlatformScopes, platformCalls)
      && PoolsCached(store, poolOwnership, poolCalls)
    }

    constructor (store: Store)
      ensures Valid() && this.store == store
      ensures checkedScopes == {} && checkedPlatformScopes == {} && poolOwnership == map[]
    {
      this.store := store;
      checkedScopes, checkedPlatformScopes, poolOwnership := {}, {}, map[];
      scopeCalls, platformCalls, poolCalls := [], [], [];
    }

    lemma Bound()
      requires Valid()
      ensures |checkedScopes| <= MAX_SCOPES
    {
    }

    method CheckScope(scope: string) returns (ok: bool)
      requires ScopesCached(store, checkedScopes, scopeCalls)
      modifies this`checkedScopes, this`scopeCalls
      ensures ok ==>
                && ScopesCached(store, checkedScopes, scopeCalls) && checkedScopes == old(checkedScopes) + {scope}
                && ScopeOk(store, scope)
      ensures !ok ==> !ScopeOk(store, scope) || (scope !in old(checkedScopes) && |old(checkedScopes)| >= MAX_SCOPES)
    {
      var parts := store.cut(scope);
      if parts == None || parts.value.0 == "" || parts.value.1 == ""
        || (scope !in checkedScopes && |checkedScopes| >= MAX_SCOPES) {
        return false;
      }
      if scope !in checkedScopes {
        if !store.checkScope(parts.value.0, parts.value.1) {
          return false;
        }
        checkedScopes, scopeCalls := checkedScopes + {scope}, scopeCalls + [scope];
      }
      assert checkedScopes == old(checkedScopes) + {scope};
      ok := true;
    }

    method CheckPlatformScope(scope: string) returns (ok: bool)
      requires PlatformCached(store, checkedPlatformScopes, platformCalls)
      modifies this`checkedPlatformScopes, this`platformCalls
      ensures PlatformCached(store, checkedPlatformScopes, platformCalls)
      ensures ok <==> PlatformOk(store, scope)
    {
      if scope in checkedPlatformScopes {
        return true;
      }
      var parts := store.cut(scope);
      if parts == None || !store.checkPlatform(parts.value.0, parts.value.1) {
        return false;
      }
      checkedPlatformScopes, platformCalls := checkedPlatformScopes + {scope}, platformCalls + [scope];
      ok := true;
    }

    method CheckPlatformScopes(scopes: seq<string>) returns (ok: bool)
      requires PlatformCached(store, checkedPlatformScopes, platformCalls)
      modifies this`checkedPlatformScopes, this`platformCalls
      ensures PlatformCached(store, checkedPlatformScopes, platformCalls)
      ensures ok <==> forall i :: 0 <= i < |scopes| ==> PlatformOk(store, scopes[i])
    {
      for i := 0 to |scopes|
        invariant PlatformCached(store, checkedPlatformScopes, platformCalls)
        invariant forall j :: 0 <= j < i ==> PlatformOk(store, scopes[j])
      {
        ok := CheckPlatformScope(scopes[i]);
        if !ok {
          return;
        }
      }
      ok := true;
    }

    /** The ownership of a pool, loaded and checked on first use. */
    method Load(pool: string) returns (owned: Option<PoolOwnership>)
      requires PlatformCached(store, checkedPlatformScopes, platformCalls)
               && PoolsCached(store, poolOwnership, poolCalls)
      modifies this`checkedPlatformScopes, this`platformCalls, this`poolOwnership, this`poolCalls
      ensures owned.Some? ==>
              PlatformCached(store, checkedPlatformScopes, platformCalls)
                && PoolsCached(store, poolOwnership, poolCalls)
      ensures owned.Some? ==>
              PoolOk(store, pool) && store.ownership(pool) == owned && pool in poolOwnership
                && old(poolOwnership.Keys) <= poolOwnership.Keys
      ensures owned.None? ==> !PoolOk(store, pool)
    {
      if pool in poolOwnership {
        return Some(poolOwnership[pool]);
      }
      var scopes := store.platformScopes(pool);
      if scopes == None {
        return None;
      }
      var ok := CheckPlatformScopes(scopes.value);
      if !ok {
        return None;
      }
      owned := store.ownership(pool);
      if owned.Some? {
        PoolsCachedAdd(store, poolOwnership, poolCalls, pool, owned.value);
        poolOwnership, poolCalls := poolOwnership[pool := owned.value], poolCalls + [pool];
      }
    }
  }

  lemma PoolsCachedAdd(store: Store, pools: map<string, PoolOwnership>, calls: seq<string>, pool: string,
                       owned: PoolOwnership)
    requires PoolsCached(store, pools, calls) && pool !in pools && PoolOk(store, pool)
             && store.ownership(pool) == Some(owned)
    ensures PoolsCached(store, pools[pool := owned], calls + [pool])
  {
    hide PoolOk;
    assert pools[pool := owned].Keys == pools.Keys + {pool};
    CalledAlso(pools.Keys, calls, pool);
  }

  lemma CalledAlso(pools: set<string>, calls: seq<string>, pool: string)
    requires multiset(calls) == multiset(pools) && pool !in pools
    ensures multiset(calls + [pool]) == multiset(pools + {pool})
  {
  }

  // ----- One reservation -----

  /** After the first `i` scopes: what the plain description says about that many scopes. */
  ghost predicate Partway(store: Store, p: Plain, i: nat, workloads: seq<Workload>,
                          namespaces: map<string, NamespaceOwnership>, pools: set<string>)
    requires i <= |p.scopes|
  {
    if store.pooled then
      var visited := Pools(store, p.scopes[..i]);
      && workloads == AppendMissing(p.workloads, PoolWorkloads(store, visited))
      && namespaces == PoolNamespaces(store, p.namespaces, visited)
      && pools == set pool | pool in visited
    else
      workloads == AppendMissing(p.workloads, ScopeWorkloads(store, p.scopes[..i])) && namespaces == p.namespaces
  }

  lemma KnownPool(store: Store, p: Plain, i: nat, workloads: seq<Workload>, namespaces: map<string, NamespaceOwnership>,
                  pools: set<string>)
    requires i < |p.scopes| && store.pooled && Partway(store, p, i, workloads, namespaces, pools)
    requires PoolOf(store, p.scopes[i]).Some? && PoolOf(store, p.scopes[i]).value in pools
    ensures Partway(store, p, i + 1, workloads, namespaces, pools)
  {
    hide Pools, PoolWorkloads, PoolNamespaces, AppendMissing, PoolOf;
    SamePools(store, p.scopes, i);
  }

  lemma SamePools(store: Store, scopes: seq<string>, i: nat)
    requires i < |scopes| && PoolOf(store, scopes[i]).Some?
             && PoolOf(store, scopes[i]).value in Pools(store, scopes[..i])
    ensures Pools(store, scopes[..i + 1]) == Pools(store, scopes[..i])
  {
    assert scopes[..i + 1][..i] == scopes[..i];
  }

  lemma OnePoolMore(store: Store, scopes: seq<string>, i: nat, base: map<string, NamespaceOwnership>,
                    owned: PoolOwnership)
    requires i < |scopes| && PoolOf(store, scopes[i]).Some?
             && PoolOf(store, scopes[i]).value !in Pools(store, scopes[..i])
    requires store.ownership(PoolOf(store, scopes[i]).value) == Some(owned)
    ensures var before, after := Pools(store, scopes[..i]), Pools(store, scopes[..i + 1]);
            && after == before + [PoolOf(store, scopes[i]).value]
            && PoolWorkloads(store, after) == PoolWorkloads(store, before) + owned.workloads
            && PoolNamespaces(store, base, after) == PoolNamespaces(store, base, before) + owned.namespaces
  {
    var before, pool := Pools(store, scopes[..i]), PoolOf(store, scopes[i]).value;
    assert scopes[..i + 1][..i] == scopes[..i];
    assert (before + [pool])[..|before|] == before;
  }

  lemma NewPool(store: Store, p: Plain, i: nat, workloads: seq<Workload>, namespaces: map<string, NamespaceOwnership>,
                pools: set<string>, owned: PoolOwnership)
    requires i < |p.scopes| && store.pooled && Partway(store, p, i, workloads, namespaces, pools)
    requires PoolOf(store, p.scopes[i]).Some? && PoolOf(store, p.scopes[i]).value !in pools
    requires store.ownership(PoolOf(store, p.scopes[i]).value) == Some(owned)
    ensures Partway(store, p, i + 1, AppendMissing(workloads, owned.workloads), namespaces + owned.namespaces,
            pools + {PoolOf(store, p.scopes[i]).value})
  {
    hide Pools, PoolWorkloads, PoolNamespaces, AppendMissing, PoolOf;
    OnePoolMore(store, p.scopes, i, p.namespaces, owned);
    AppendMissingTwice(p.workloads, PoolWorkloads(store, Pools(store, p.scopes[..i])), owned.workloads);
  }

  lemma NextScope(store: Store, p: Plain, i: nat, workloads: seq<Workload>, namespaces: map<string, NamespaceOwnership>,
                  pools: set<string>, owned: seq<Workload>)
    requires i < |p.scopes| && !store.pooled && Partway(store, p, i, workloads, namespaces, pools)
    requires WorkloadsOf(store, p.scopes[i]) == Some(owned)
    ensures Partway(store, p, i + 1, AppendMissing(workloads, DatabasesOnly(owned)), namespaces, pools)
  {
    assert p.scopes[..i + 1][..i] == p.scopes[..i];
    AppendMissingTwice(p.workloads, ScopeWorkloads(store, p.scopes[..i]), DatabasesOnly(owned));
  }

  lemma Start(store: Store, p: Plain)
    ensures Partway(store, p, 0, p.workloads, p.namespaces, {})
  {
  }

  lemma AllTheWay(store: Store, p: Plain, workloads: seq<Workload>, namespaces: map<string, NamespaceOwnership>,
                  pools: set<string>)
    requires Partway(store, p, |p.scopes|, workloads, namespaces, pools)
    ensures p.(workloads := workloads, namespaces := namespaces) == Prepared(store, p)
  {
    assert p.scopes[..|p.scopes|] == p.scopes;
  }

  function ScopeSet(scopes: seq<string>): set<string> {
    set s | s in scopes
  }

  /** Why a reservation is refused: an unusable scope, or too many distinct scopes so far. */
  ghost predicate Refused(store: Store, scopes: seq<string>, checked: set<string>) {
    (exists s :: s in scopes && !Usable(store, s)) || |checked + ScopeSet(scopes)| > MAX_SCOPES
  }

  lemma NoScopesYet(scopes: seq<string>)
    ensures ScopeSet(scopes[..0]) == {}
  {
  }

  lemma ScopesSoFar(scopes: seq<string>, i: nat)
    requires i < |scopes|
    ensures ScopeSet(scopes[..i + 1]) == ScopeSet(scopes[..i]) + {scopes[i]}
  {
    assert scopes[..i + 1] == scopes[..i] + [scopes[i]];
  }

  /** A refusal over one scope refuses the reservation. */
  lemma RefusedAt(store: Store, scopes: seq<string>, checked: set<string>, i: nat)
    requires i < |scopes|
    requires !Usable(store, scopes[i])
             || (scopes[i] !in checked + ScopeSet(scopes[..i]) && |checked + ScopeSet(scopes[..i])| >= MAX_SCOPES)
    ensures Refused(store, scopes, checked)
  {
    if Usable(store, scopes[i]) {
      TooManyScopes(store, scopes, checked, checked + ScopeSet(scopes[..i]), scopes[i]);
    }
  }

  lemma TooManyScopes(store: Store, scopes: seq<string>, checked: set<string>, seen: set<string>, scope: string)
    requires seen <= checked + ScopeSet(scopes) && scope in scopes && scope !in seen && |seen| >= MAX_SCOPES
    ensures Refused(store, scopes, checked)
  {
    SubsetSize(seen + {scope}, checked + ScopeSet(scopes));
  }

  lemma {:induction false} SubsetSize(a: set<string>, b: set<string>)
    requires a <= b
    ensures |a| <= |b|
  {
    if x :| x in a {
      SubsetSize(a - {x}, b - {x});
    }
  }

  /** The work on one scope of one reservation. */
  method PrepareScope(caches: Caches, ghost p: Plain, i: nat, scope: string, ws: Slice, table: Table,
                      pools: set<string>)
    returns (ok: bool, ws': Slice, pools': set<string>)
    requires caches.Valid() && SliceOk(ws) && i < |p.scopes| && p.scopes[i] == scope
    requires Partway(caches.store, p, i, Contents(ws), table.entries, pools) && pools <= caches.poolOwnership.Keys
    modifies caches, table, ws.backing
    ensures ok ==> caches.Valid() && SliceOk(ws') && (ws'.backing == ws.backing || fresh(ws'.backing))
    ensures ok ==>
              && Partway(caches.store, p, i + 1, Contents(ws'), table.entries, pools')
              && pools' <= caches.poolOwnership.Keys
    ensures ok ==> caches.checkedScopes == old(caches.checkedScopes) + {scope} && Usable(caches.store, scope)
    ensures !ok ==>
              || !Usable(caches.store, scope)
              || (scope !in old(caches.checkedScopes) && |old(caches.checkedScopes)| >= MAX_SCOPES)
  {
    hide AppendMissing, PoolWorkloads, PoolNamespaces, ScopeWorkloads, Pools;
    var store := caches.store;
    ws', pools' := ws, pools;
    ok := caches.CheckScope(scope);
    if !ok {
      return;
    }
    if !store.pooled {
      var owned := WorkloadsOf(store, scope);
      if owned == None {
        return false, ws', pools';
      }
      NextScope(store, p, i, Contents(ws), table.entries, pools, owned.value);
      ws' := AddMissing(ws, DatabasesOnly(owned.value));
      return;
    }
    var pool := PoolOf(store, scope);
    if pool == None {
      return false, ws', pools';
    }
    if pool.value in pools {
      KnownPool(store, p, i, Contents(ws), table.entries, pools);
      return;
    }
    pools' := pools + {pool.value};
    var owned := caches.Load(pool.value);
    if owned == None {
      return false, ws', pools';
    }
    NewPool(store, p, i, Contents(ws), table.entries, pools, owned.value);
    ws' := AddMissing(ws, owned.value.workloads);
    table.Absorb(owned.value.namespaces);
  }

  /** The loop over one reservation's scopes. The reservation's own copies are updated in place. */
  method PrepareOne(caches: Caches, r: Reservation) returns (ok: bool, q: Reservation)
    requires caches.Valid() && SliceOk(r.workloads) && r.namespaces != r.managed
    modifies caches, r.namespaces, r.workloads.backing
    ensures ok ==> caches.Valid() && SliceOk(q.workloads) && Snapshot(q) == Prepared(caches.store, old(Snapshot(r)))
    ensures ok ==>
              && q.scopes == r.scopes && q.namespaces == r.namespaces && q.managed == r.managed
              && (q.workloads.backing == r.workloads.backing || fresh(q.workloads.backing))
    ensures ok ==> caches.checkedScopes == old(caches.checkedScopes) + ScopeSet(r.scopes)
    ensures ok ==> forall s :: s in r.scopes ==> Usable(caches.store, s)
    ensures !ok ==> Refused(caches.store, r.scopes, old(caches.checkedScopes))
  {
    hide Partway, Refused, Caches.Valid, Usable, Prepared, ScopesCached, ScopeSet;
    ghost var p := Snapshot(r);
    ghost var checked := caches.checkedScopes;
    var ws, pools: set<string> := r.workloads, {};
    q := r;
    Start(caches.store, p);
    NoScopesYet(r.scopes);
    for i := 0 to |r.scopes|
      invariant caches.Valid() && SliceOk(ws) && (ws.backing == r.workloads.backing || fresh(ws.backing))
      invariant Partway(caches.store, p, i, Contents(ws), r.namespaces.entries, pools)
                && pools <= caches.poolOwnership.Keys
      invariant caches.checkedScopes == checked + ScopeSet(r.scopes[..i])
      invariant forall j :: 0 <= j < i ==> Usable(caches.store, r.scopes[j])
    {
      ok, ws, pools := PrepareScope(caches, p, i, r.scopes[i], ws, r.namespaces, pools);
      if !ok {
        RefusedAt(caches.store, r.scopes, checked, i);
        return;
      }
      ScopesSoFar(r.scopes, i);
    }
    assert r.scopes[..|r.scopes|] == r.scopes;
    AllTheWay(caches.store, p, Contents(ws), r.namespaces.entries, pools);
    ok, q := true, r.(workloads := ws);
  }

  // ----- All reservations -----

  /** The scopes named by the reservations called `names`. */
  function ScopesOf(rs: map<string, Reservation>, names: set<string>): set<string> {
    set name, s | name in names && name in rs && s in rs[name].scopes :: s
  }

  ghost predicate WellFormed(rs: map<string, Reservation>) {
    forall name :: name in rs ==> SliceOk(rs[name].workloads)
  }

  /** No two reservations, and no two parts of one, share memory that the preparation writes. */
  ghost predicate Separate(rs: map<string, Reservation>) {
    && (forall name :: name in rs ==> rs[name].namespaces != rs[name].managed)
    && (forall a, b :: a in rs && b in rs && a != b ==>
          rs[a].namespaces != rs[b].namespaces && rs[a].namespaces != rs[b].managed
            && rs[a].workloads.backing != rs[b].workloads.backing)
  }

  /** `copies` stands for `rs` and lives in the storage `mine`. */
  ghost predicate CopiesOf(copies: map<string, Reservation>, rs: map<string, Reservation>, mine: set<object>) {
    && copies.Keys == rs.Keys && CopiesAmong(copies, rs, mine)
  }

  ghost predicate CopiesAmong(copies: map<string, Reservation>, rs: map<string, Reservation>, mine: set<object>) {
    && copies.Keys <= rs.Keys && WellFormed(copies) && Separate(copies)
    && (forall name :: name in copies ==> copies[name].scopes == rs[name].scopes)
    && (forall name :: name in copies ==>
          copies[name].workloads.backing in mine && copies[name].namespaces in mine && copies[name].managed in mine)
  }

  lemma OneMoreCopy(copies: map<string, Reservation>, rs: map<string, Reservation>, mine: set<object>, name: string,
                    one: Reservation)
    requires CopiesAmong(copies, rs, mine) && name in rs && name !in copies && SliceOk(one.workloads)
             && one.scopes == rs[name].scopes
    requires one.workloads.backing !in mine && one.namespaces !in mine && one.managed !in mine
             && one.namespaces != one.managed
    ensures CopiesAmong(copies[name := one], rs, mine + Storage(one))
  {
  }

  lemma NoCopies(rs: map<string, Reservation>)
    ensures CopiesAmong(map[], rs, {})
  {
  }

  /** Preparing one copy leaves the memory of the others alone. */
  lemma CopyApart(copies: map<string, Reservation>, rs: map<string, Reservation>, mine: set<object>, name: string)
    requires CopiesOf(copies, rs, mine) && name in copies
    ensures copies.Keys == rs.Keys && WellFormed(copies) && Storage(copies[name]) <= mine
            && copies[name].namespaces != copies[name].managed
    ensures forall n :: n in copies && n != name ==>
              && copies[n].workloads.backing != copies[name].workloads.backing
              && copies[n].namespaces != copies[name].namespaces && copies[n].managed != copies[name].namespaces
  {
  }

  function Storage(r: Reservation): set<object> {
    {r.workloads.backing, r.namespaces, r.managed}
  }

  lemma StillSeparate(copies: map<string, Reservation>, rs: map<string, Reservation>, mine: set<object>, name: string,
                      one: Reservation)
    requires CopiesOf(copies, rs, mine) && name in rs && one.(workloads := copies[name].workloads) == copies[name]
    requires one.workloads.backing == copies[name].workloads.backing || one.workloads.backing !in mine
    ensures Separate(copies[name := one])
  {
  }

  lemma StillCopies(copies: map<string, Reservation>, rs: map<string, Reservation>, mine: set<object>, name: string,
                    one: Reservation)
    requires CopiesOf(copies, rs, mine) && name in rs && SliceOk(one.workloads)
    requires one.(workloads := copies[name].workloads) == copies[name]
    requires one.workloads.backing == copies[name].workloads.backing || one.workloads.backing !in mine
    ensures CopiesOf(copies[name := one], rs, mine + {one.workloads.backing}) && copies[name := one].Keys == rs.Keys
  {
    hide Separate;
    StillSeparate(copies, rs, mine, name, one);
  }

  lemma CopyAt(copies: map<string, Reservation>, rs: map<string, Reservation>, mine: set<object>, name: string)
    requires CopiesOf(copies, rs, mine) && name in rs
    ensures name in copies && copies[name].scopes == rs[name].scopes
    ensures copies[name].workloads.backing in mine && copies[name].namespaces in mine
  {
  }

  /** The deep copies made before any check. */
  method CloneOne(r: Reservation) returns (q: Reservation)
    requires SliceOk(r.workloads)
    ensures SliceOk(q.workloads) && Snapshot(q) == Snapshot(r) && q.scopes == r.scopes
    ensures fresh(Storage(q)) && q.namespaces != q.managed
  {
    var ws := Clone(r.workloads);
    var namespaces := new Table(r.namespaces.entries);
    var managed := new Table(r.managed.entries);
    q := Reservation(ws, namespaces, managed, r.scopes);
  }

  /** Go visits the map in any order. */
  method CloneAll(rs: map<string, Reservation>)
    returns (copies: map<string, Reservation>, ghost mine: set<object>, ghost before: map<string, Plain>)
    requires WellFormed(rs)
    ensures fresh(mine) && CopiesOf(copies, rs, mine)
    ensures before.Keys == rs.Keys && forall name :: name in rs ==>
            before[name] == Snapshot(rs[name]) == Snapshot(copies[name])
  {
    hide Snapshot, Separate;
    copies, mine, before := map[], {}, map[];
    NoCopies(rs);
    var todo := rs.Keys;
    while todo != {}
      invariant todo <= rs.Keys && copies.Keys == before.Keys == rs.Keys - todo && fresh(mine)
                && CopiesAmong(copies, rs, mine)
      invariant forall name :: name in copies ==> before[name] == Snapshot(rs[name]) == Snapshot(copies[name])
      decreases todo
    {
      var name :| name in todo;
      var copied := CloneOne(rs[name]);
      OneMoreCopy(copies, rs, mine, name, copied);
      copies, mine := copies[name := copied], mine + Storage(copied);
      before := before[name := Snapshot(copied)];
      todo := todo - {name};
    }
  }

  /** The reservations called `done` are prepared; the others are as they were. */
  ghost predicate PreparedSoFar(store: Store, copies: map<string, Reservation>, rs: map<string, Reservation>,
                                mine: set<object>,
                                before: map<string, Plain>, done: set<string>)
    requires CopiesOf(copies, rs, mine) && rs.Keys == before.Keys
    reads mine
  {
    forall name :: name in copies ==>
      Snapshot(copies[name]) == if name in done then Prepared(store, before[name]) else before[name]
  }

  lemma OneMorePreparable(store: Store, rs: map<string, Reservation>, done: set<string>, name: string)
    requires Preparable(store, ScopesOf(rs, done)) && name in rs
    requires (forall s :: s in rs[name].scopes ==> Usable(store, s))
             && |ScopesOf(rs, done) + ScopeSet(rs[name].scopes)| <= MAX_SCOPES
    ensures ScopesOf(rs, done + {name}) == ScopesOf(rs, done) + ScopeSet(rs[name].scopes)
    ensures Preparable(store, ScopesOf(rs, done + {name}))
  {
    assert ScopesOf(rs, done + {name}) == ScopesOf(rs, done) + ScopeSet(rs[name].scopes);
  }

  lemma OneRefused(store: Store, rs: map<string, Reservation>, done: set<string>, name: string)
    requires name in rs && done <= rs.Keys && Refused(store, rs[name].scopes, ScopesOf(rs, done))
    ensures !Preparable(store, ScopesOf(rs, rs.Keys))
  {
    assert forall s :: s in rs[name].scopes ==> s in ScopesOf(rs, rs.Keys);
    SubsetSize(ScopesOf(rs, done) + ScopeSet(rs[name].scopes), ScopesOf(rs, rs.Keys));
  }

  lemma NothingNamed(store: Store, rs: map<string, Reservation>)
    ensures ScopesOf(rs, {}) == {} && Preparable(store, {})
  {
  }

  lemma DoneGrows(keys: set<string>, todo: set<string>, name: string)
    requires name in todo && todo <= keys
    ensures keys - (todo - {name}) == keys - todo + {name}
  {
  }

  lemma DoneRange(keys: set<string>)
    ensures keys - keys == {} && keys - {} == keys
  {
  }

  lemma OneMorePrepared(store: Store, copies: map<string, Reservation>, rs: map<string, Reservation>, mine: set<object>,
                        before: map<string, Plain>, done: set<string>, name: string, one: Reservation)
    requires CopiesOf(copies[name := one], rs, mine + {one.workloads.backing}) && rs.Keys == before.Keys && name in rs
    requires SliceOk(one.workloads) && Snapshot(one) == Prepared(store, before[name])
    requires WellFormed(copies) && copies.Keys == rs.Keys
    requires forall n :: n in copies && n != name ==>
               Snapshot(copies[n]) == if n in done then Prepared(store, before[n]) else before[n]
    ensures PreparedSoFar(store, copies[name := one], rs, mine + {one.workloads.backing}, before, done + {name})
  {
    hide Snapshot, Prepared, Separate;
  }

  /** One turn of the loop over the copies; the copies not named keep their contents. */
  method PrepareNext(caches: Caches, copies: map<string, Reservation>, ghost rs: map<string, Reservation>,
                     ghost mine: set<object>,
                     name: string, ghost before: map<string, Plain>, ghost done: set<string>)
    returns (ok: bool, one: Reservation)
    requires caches.Valid() && CopiesOf(copies, rs, mine) && caches !in mine && name in copies && name !in done
    requires rs.Keys == before.Keys && PreparedSoFar(caches.store, copies, rs, mine, before, done)
    modifies caches, copies[name].namespaces, copies[name].workloads.backing
    ensures ok ==> caches.Valid() && CopiesOf(copies[name := one], rs, mine + {one.workloads.backing})
    ensures ok ==> PreparedSoFar(caches.store, copies[name := one], rs, mine + {one.workloads.backing}, before,
            done + {name})
    ensures ok ==> one.workloads.backing in mine || fresh(one.workloads.backing)
    ensures ok ==> caches.checkedScopes == old(caches.checkedScopes) + ScopeSet(copies[name].scopes)
    ensures ok ==> |caches.checkedScopes| <= MAX_SCOPES && forall s :: s in copies[name].scopes ==>
            Usable(caches.store, s)
    ensures !ok ==> Refused(caches.store, copies[name].scopes, old(caches.checkedScopes))
  {
    hide Usable, Prepared, Refused, ScopeSet, Caches.Valid, Snapshot, CopiesOf;
    CopyApart(copies, rs, mine, name);
    ok, one := PrepareOne(caches, copies[name]);
    if ok {
      forall n | n in copies && n != name
        ensures Snapshot(copies[n]) == if n in done then Prepared(caches.store, before[n]) else before[n]
      {
      }
      caches.Bound();
      StillCopies(copies, rs, mine, name, one);
      OneMorePrepared(caches.store, copies, rs, mine, before, done, name, one);
    }
  }

  lemma NonePrepared(store: Store, copies: map<string, Reservation>, rs: map<string, Reservation>, mine: set<object>,
                     before: map<string, Plain>)
    requires CopiesOf(copies, rs, mine) && rs.Keys == before.Keys
    requires forall name :: name in rs ==> before[name] == Snapshot(copies[name])
    ensures PreparedSoFar(store, copies, rs, mine, before, {})
  {
  }

  lemma AllPrepared(store: Store, copies: map<string, Reservation>, rs: map<string, Reservation>, mine: set<object>,
                    before: map<string, Plain>)
    requires CopiesOf(copies, rs, mine) && rs.Keys == before.Keys
             && PreparedSoFar(store, copies, rs, mine, before, rs.Keys)
    ensures copies.Keys == rs.Keys && WellFormed(copies)
    ensures forall name :: name in rs ==> Snapshot(copies[name]) == Prepared(store, before[name])
  {
  }

  /** The loop over the copies, in any order. */
  method PrepareAll(store: Store, copies: map<string, Reservation>, ghost rs: map<string, Reservation>,
                    ghost mine: set<object>, ghost before: map<string, Plain>)
    returns (ok: bool, done: map<string, Reservation>, ghost ours: set<object>, caches: Caches)
    requires CopiesOf(copies, rs, mine) && copies.Keys == rs.Keys == before.Keys
             && PreparedSoFar(store, copies, rs, mine, before, {})
    modifies mine
    ensures ok <==> Preparable(store, ScopesOf(rs, rs.Keys))
    ensures ok ==> CopiesOf(done, rs, ours) && PreparedSoFar(store, done, rs, ours, before, rs.Keys)
    ensures ok ==> caches.store == store && caches.Valid() && caches.checkedScopes == ScopesOf(rs, rs.Keys)
  {
    hide Usable, Prepared, Refused, ScopeSet, Caches.Valid, ScopesOf, PreparedSoFar, Preparable, CopiesOf, Snapshot;
    done, ours := copies, mine;
    caches := new Caches(store);
    ok := true;
    var todo := copies.Keys;
    NothingNamed(store, rs);
    DoneRange(rs.Keys);
    while todo != {}
      invariant todo <= rs.Keys && CopiesOf(done, rs, ours) && fresh(ours - mine) && caches !in ours
      invariant PreparedSoFar(store, done, rs, ours, before, rs.Keys - todo)
      invariant fresh(caches) && caches.store == store && caches.Valid()
      invariant caches.checkedScopes == ScopesOf(rs, rs.Keys - todo) && Preparable(store, caches.checkedScopes)
      decreases todo
    {
      var name :| name in todo;
      CopyAt(done, rs, ours, name);
      ghost var finished := rs.Keys - todo;
      var one;
      ok, one := PrepareNext(caches, done, rs, ours, name, before, finished);
      if !ok {
        OneRefused(store, rs, finished, name);
        return;
      }
      OneMorePreparable(store, rs, finished, name);
      DoneGrows(rs.Keys, todo, name);
      done, ours := done[name := one], ours + {one.workloads.backing};
      todo := todo - {name};
    }
  }

  /** `CheckDatabaseNodeReservations` up to the call into the runtime, which receives `prepared`. Whatever order the
      maps are visited in, it succeeds exactly when every scope is usable and there are at most 64 of them, the result
      is that of the plain description, and nothing the caller can reach is written. */
  method CheckReservations(store: Store, rs: map<string, Reservation>)
    returns (prepared: Option<map<string, Reservation>>, caches: Caches)
    requires WellFormed(rs)
    ensures prepared.Some? <==> Preparable(store, ScopesOf(rs, rs.Keys))
    ensures prepared.Some? ==> prepared.value.Keys == rs.Keys && WellFormed(prepared.value)
    ensures prepared.Some? ==>
            forall name :: name in rs ==> Snapshot(prepared.value[name]) == Prepared(store, old(Snapshot(rs[name])))
    ensures prepared.Some? ==> caches.store == store && caches.Valid() && caches.checkedScopes == ScopesOf(rs, rs.Keys)
  {
    hide Preparable, ScopesOf, Prepared, Caches.Valid;
    var copies, ok;
    ghost var mine: set<object>;
    ghost var ours: set<object>;
    ghost var before;
    copies, mine, before := CloneAll(rs);
    NonePrepared(store, copies, rs, mine, before);
    ok, copies, ours, caches := PrepareAll(store, copies, rs, mine, before);
    if !ok {
      return None, caches;
    }
    AllPrepared(store, copies, rs, ours, before);
    prepared := Some(copies);
  }
}
