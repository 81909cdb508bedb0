// The two runtimes whose sections share the containerd template, with their own text, and a template on which the
// splice goes wrong.

module Runtimes {
  import opened Base
  import opened Texts
  import opened Templates

  // ----- The words of the sections -----

  const PLUGINS := "[plugins."
  const CRI := "\"io.containerd.cri.v1.runtime\""
  const RUNTIMES := ".containerd.runtimes."
  const ACTIONS := "hakopod-actions"
  const CLICKHOUSE := "hakopod-clickhouse"
  const CLOSING := "]\n"
  const OPTIONS := ".options]\n"
  const QUOTED := "\"\n"
  const RUNTIME_TYPE := "  runtime_type = \""
  const RUNTIME_PATH := "  runtime_path = \""
  const RUNSC := "io.containerd.runsc.v1"
  const RUNSC_OPTIONS := ".options\"\n"
  const SHIM := "/containerd-shim-runsc-v1\"\n"
  const TYPE_URL := "  TypeUrl = \""
  const CONFIG_PATH := "  ConfigPath = \""
  const ACTIONS_CONFIG := "/runsc-actions.toml\"\n"
  const CLICKHOUSE_CONFIG := "/runsc-clickhouse.toml\"\n"
  const ANNOTATIONS := "  pod_annotations = ["
  const MOUNT := "\"dev.gvisor.spec.mount.runner."
  const NEXT := "\", "

  function Concat(words: seq<string>): string {
    if words == [] then "" else words[0] + Concat(words[1..])
  }

  /** The annotations that the shared workspace profile adds. */
  function Annotations(p: Profile): seq<string> {
    if p == Plain then [] else [ANNOTATIONS, MOUNT, "type", NEXT, MOUNT, "share", NEXT, MOUNT, "options", "\"", CLOSING]
  }

  /** The stanza of a runtime called `name`, with its configuration file, under `root`. */
  function Stanza(root: string, name: string, config: string, p: Profile): seq<string> {
    [PLUGINS, CRI, RUNTIMES, name, CLOSING] + Annotations(p)
    + [RUNTIME_TYPE, RUNSC, QUOTED, RUNTIME_PATH, root, SHIM, PLUGINS, CRI, RUNTIMES, name, OPTIONS]
    + [TYPE_URL, RUNSC, RUNSC_OPTIONS, CONFIG_PATH, root, config]
  }

  /** The Actions runtime under `root`. */
  function Actions(root: string): Runtime {
    Runtime(ACTIONS_BEGIN, ACTIONS_END, ACTIONS, p => Concat(Stanza(root, ACTIONS, ACTIONS_CONFIG, p)))
  }

  /** The ClickHouse runtime under `root`; it knows no profiles. */
  function ClickHouse(root: string): Runtime {
    Runtime(CLICKHOUSE_BEGIN, CLICKHOUSE_END, CLICKHOUSE,
      p => Concat(Stanza(root, CLICKHOUSE, CLICKHOUSE_CONFIG, Plain)))
  }

  // ----- They are sound runtimes -----

  predicate NoHash(word: string) {
    '#' !in word
  }

  lemma {:induction false} ConcatNoHash(words: seq<string>)
    requires forall i :: 0 <= i < |words| ==> NoHash(words[i])
    ensures NoHash(Concat(words))
  {
    if words != [] {
      ConcatNoHash(words[1..]);
    }
  }

  lemma WordsNoHash()
    ensures NoHash(PLUGINS) && NoHash(CRI) && NoHash(RUNTIMES) && NoHash(CLOSING) && NoHash(OPTIONS) && NoHash(QUOTED)
  {
  }

  lemma NamesNoHash()
    ensures NoHash(ACTIONS) && NoHash(CLICKHOUSE) && NoHash(RUNTIME_TYPE) && NoHash(RUNTIME_PATH)
  {
  }

  lemma PathsNoHash()
    ensures NoHash(RUNSC) && NoHash(RUNSC_OPTIONS) && NoHash(SHIM) && NoHash(TYPE_URL) && NoHash(CONFIG_PATH)
  {
  }

  lemma MoreWordsNoHash()
    ensures NoHash(ACTIONS_CONFIG) && NoHash(CLICKHOUSE_CONFIG) && NoHash(ANNOTATIONS)
  {
  }

  lemma AnnotationsNoHash()
    ensures NoHash(MOUNT) && NoHash(NEXT) && NoHash("type") && NoHash("share") && NoHash("options") && NoHash("\"")
  {
  }

  lemma StanzaNoHash(root: string, name: string, config: string, p: Profile)
    requires NoHash(root) && NoHash(name) && NoHash(config)
    ensures NoHash(Concat(Stanza(root, name, config, p)))
  {
    hide NoHash;
    WordsNoHash();
    NamesNoHash();
    PathsNoHash();
    MoreWordsNoHash();
    AnnotationsNoHash();
    ConcatNoHash(Stanza(root, name, config, p));
  }

  /** Under roots without a hash sign both are runtimes whose sections can share a template. */
  lemma RuntimesDiffer(actionsRoot: string, clickHouseRoot: string)
    requires NoHash(actionsRoot) && NoHash(clickHouseRoot)
    ensures Different(Actions(actionsRoot), ClickHouse(clickHouseRoot))
    ensures ClickHouse(clickHouseRoot).body(Plain) == ClickHouse(clickHouseRoot).body(Shared)
  {
    hide Marker, Concat, Stanza;
    MarkersOk();
    NamesNoHash();
    MoreWordsNoHash();
    forall p ensures '#' !in Actions(actionsRoot).body(p) && '#' !in ClickHouse(clickHouseRoot).body(p) {
      StanzaNoHash(actionsRoot, ACTIONS, ACTIONS_CONFIG, p);
      StanzaNoHash(clickHouseRoot, CLICKHOUSE, CLICKHOUSE_CONFIG, Plain);
    }
  }

  // ----- A template on which the splice goes wrong -----

  /** A begin line at the end of the file, without its line break. */
  const STRAY := "# BEGIN HAKOPOD MANAGED ACTIONS"

  lemma StrayChars()
    ensures 'h' !in STRAY && '\n' !in STRAY
  {
  }

  lemma StrayText()
    ensures STRAY == Stem(ACTIONS_BEGIN) && StripEnd(STRAY) == STRAY
  {
    assert |ACTIONS_BEGIN| == 32 && |STRAY| == 31;
    assert ACTIONS_BEGIN[..31] == STRAY;
    assert STRAY[30] == 'S' && !White('S');
  }

  lemma LacksWithout(text: string, pattern: string, c: char, k: nat)
    requires k < |pattern| && pattern[k] == c && c !in text
    ensures !Contains(text, pattern)
  {
    if Contains(text, pattern) {
      CharAt(text, pattern, Find(text, pattern, 0).value, k);
    }
  }

  lemma StrayLacks()
    ensures !Contains(STRAY, ACTIONS_BEGIN) && !Contains(STRAY, ACTIONS_END)
    ensures !Contains(STRAY, CLICKHOUSE_BEGIN) && !Contains(STRAY, CLICKHOUSE_END)
  {
    StrayChars();
    LacksWithout(STRAY, ACTIONS_BEGIN, '\n', 31);
    LacksWithout(STRAY, ACTIONS_END, '\n', 29);
    LacksWithout(STRAY, CLICKHOUSE_BEGIN, '\n', 26);
    LacksWithout(STRAY, CLICKHOUSE_END, '\n', 24);
  }

  /** The guards let the stray line pass, the append completes it, and from then on every splice is refused. */
  lemma StrayIsRefused(root: string, p: Profile, q: Profile)
    requires NoHash(root)
    ensures Extend(Actions(root), STRAY, p).Some?
    ensures Extend(Actions(root), Extend(Actions(root), STRAY, p).value, q) == None
  {
    var o := Actions(root);
    StrayText();
    RuntimesDiffer(root, root);
    StrayChars();
    LacksWithout(STRAY, ACTIONS, 'h', 0);
    StrayLacks();
    hide Contains, StripEnd, Marker, Concat, Stanza, Single, Find;
    ExtendTwice(o, STRAY, p, q);
  }

  // ----- A template on which one splice harms the other section -----

  /** A `k` is always followed by something, and never by an `h`, as it is in the word of the other runtime. */
  predicate Tame(word: string) {
    forall i :: 0 <= i < |word| && word[i] == 'k' ==> i + 1 < |word| && word[i + 1] != 'h'
  }

  lemma TameJoined(a: string, b: string)
    requires Tame(a) && Tame(b)
    ensures Tame(a + b)
  {
  }

  lemma {:induction false} ConcatTame(words: seq<string>)
    requires forall i :: 0 <= i < |words| ==> Tame(words[i])
    ensures Tame(Concat(words))
  {
    hide Tame;
    if words != [] {
      ConcatTame(words[1..]);
      TameJoined(words[0], Concat(words[1..]));
    } else {
      NoK("");
    }
  }

  lemma NoK(word: string)
    requires 'k' !in word
    ensures Tame(word)
  {
  }

  lemma WordsTame()
    ensures Tame(PLUGINS) && Tame(CRI) && Tame(RUNTIMES) && Tame(CLOSING) && Tame(OPTIONS) && Tame(QUOTED)
    ensures Tame(RUNTIME_TYPE) && Tame(RUNTIME_PATH) && Tame(ACTIONS)
  {
    hide Tame;
    NoK(PLUGINS);
    NoK(CRI);
    NoK(RUNTIMES);
    NoK(CLOSING);
    NoK(OPTIONS);
    NoK(QUOTED);
    NoK(RUNTIME_TYPE);
    NoK(RUNTIME_PATH);
    NameTame();
  }

  lemma NameTame()
    ensures Tame(ACTIONS)
  {
    assert ACTIONS[2] == 'k' && ACTIONS[3] == 'o';
    assert forall i :: 0 <= i < |ACTIONS| && i != 2 ==> ACTIONS[i] != 'k';
  }

  lemma PathsTame()
    ensures Tame(RUNSC) && Tame(RUNSC_OPTIONS) && Tame(SHIM)
  {
    hide Tame;
    NoK(RUNSC);
    NoK(RUNSC_OPTIONS);
    NoK(SHIM);
  }

  lemma ConfigTame()
    ensures Tame(TYPE_URL) && Tame(CONFIG_PATH) && Tame(ACTIONS_CONFIG)
  {
    hide Tame;
    NoK(TYPE_URL);
    NoK(CONFIG_PATH);
    NoK(ACTIONS_CONFIG);
  }

  lemma AnnotationsTame()
    ensures Tame(ANNOTATIONS) && Tame(MOUNT) && Tame(NEXT) && Tame("type") && Tame("share") && Tame("options")
            && Tame("\"")
  {
    hide Tame;
    NoK(ANNOTATIONS);
    NoK(MOUNT);
    NoK(NEXT);
    NoK("type");
    NoK("share");
    NoK("options");
    NoK("\"");
  }

  lemma MarkersTame()
    ensures Tame(ACTIONS_BEGIN) && Tame(ACTIONS_END) && Tame(STRAY)
  {
    NoK(ACTIONS_BEGIN);
    NoK(ACTIONS_END);
    NoK(STRAY);
  }

  lemma StanzaTame(root: string, p: Profile)
    requires Tame(root)
    ensures Tame(Section(Actions(root), p) + STRAY)
  {
    hide Tame, Stanza, Concat;
    MarkersTame();
    WordsOfStanzaTame(root, p);
    TameJoined(ACTIONS_BEGIN, Actions(root).body(p));
    TameJoined(ACTIONS_BEGIN + Actions(root).body(p), ACTIONS_END);
    TameJoined(Section(Actions(root), p), STRAY);
  }

  lemma WordsOfStanzaTame(root: string, p: Profile)
    requires Tame(root)
    ensures Tame(Concat(Stanza(root, ACTIONS, ACTIONS_CONFIG, p)))
  {
    hide Tame;
    WordsTame();
    PathsTame();
    ConfigTame();
    AnnotationsTame();
    ConcatTame(Stanza(root, ACTIONS, ACTIONS_CONFIG, p));
  }

  lemma TameLacks(text: string)
    requires Tame(text)
    ensures !Contains(text, CLICKHOUSE)
  {
    if Contains(text, CLICKHOUSE) {
      var i := Find(text, CLICKHOUSE, 0).value;
      assert CLICKHOUSE[12] == 'k' && CLICKHOUSE[13] == 'h';
      CharAt(text, CLICKHOUSE, i, 12);
      CharAt(text, CLICKHOUSE, i, 13);
    }
  }

  /** An owned Actions section with a stray begin line behind it: still accepted by its own runtime, and no longer once
      the ClickHouse section has been appended. */
  lemma OtherIsRefused(root: string, clickHouseRoot: string, p: Profile, q: Profile)
    requires NoHash(root) && NoHash(clickHouseRoot) && Tame(root)
    ensures var text := Section(Actions(root), p) + STRAY;
            && Extend(Actions(root), text, q).Some? && ExtendFixed(ClickHouse(clickHouseRoot), text).Some?
            && Extend(Actions(root), ExtendFixed(ClickHouse(clickHouseRoot), text).value, q) == None
  {
    var o, n, text := ClickHouse(clickHouseRoot), Actions(root), Section(Actions(root), p) + STRAY;
    RuntimesDiffer(root, clickHouseRoot);
    StrayText();
    StrayOwned(root, clickHouseRoot, p);
    StanzaTame(root, p);
    TameLacks(text);
    hide Contains, StripEnd, Marker, Concat, Stanza, Single, Find, Section, Lacks, Tame, OccursAt;
    ExtendOwned(n, text, p, "", STRAY, q);
    FixedIsExtend(o, text);
    KeepsOther(o, Plain, n, p, text, "", STRAY, q);
  }

  /** The text holds one Actions section and no ClickHouse marker. */
  lemma StrayOwned(root: string, clickHouseRoot: string, p: Profile)
    requires NoHash(root) && NoHash(clickHouseRoot)
    ensures var text := Section(Actions(root), p) + STRAY;
            && Owned(Actions(root), text, p, "", STRAY) && !Clean(Actions(root), STRAY)
            && !Contains(text, CLICKHOUSE_BEGIN) && !Contains(text, CLICKHOUSE_END)
  {
    var n, text := Actions(root), Section(Actions(root), p) + STRAY;
    RuntimesDiffer(root, clickHouseRoot);
    StrayText();
    MarkersOk();
    StrayLacks();
    OwnedBefore(n, p, STRAY);
    hide OccursAt, Marker, Stanza, Concat, Contains, Lacks, StripEnd, Section;
    LacksOther(n, p, STRAY, CLICKHOUSE_BEGIN);
    LacksOther(n, p, STRAY, CLICKHOUSE_END);
  }

  lemma OwnedBefore(n: Runtime, p: Profile, c: string)
    requires RuntimeOk(n) && !Contains(c, n.begin) && !Contains(c, n.end)
    ensures Owned(n, Section(n, p) + c, p, "", c)
  {
    assert Section(n, p) + c == "" + Section(n, p) + c;
    LacksIffAbsent(c, n.begin);
    LacksIffAbsent(c, n.end);
  }

  lemma LacksOther(n: Runtime, p: Profile, c: string, m: string)
    requires RuntimeOk(n) && Marker(m) && m != n.begin && m != n.end && !Contains(c, m)
    ensures !Contains(Section(n, p) + c, m)
  {
    hide OccursAt, Section;
    LacksIffAbsent(c, m);
    LacksIffAbsent(Section(n, p) + c, m);
    assert "" + Section(n, p) + c == Section(n, p) + c;
    forall i: nat ensures !OccursAt(Section(n, p) + c, m, i) {
      OccursInside("", m, i);
      Around("", n, p, c, m, i);
    }
  }
}
