// `eligible` and `release_check`: which release an installation is offered.

module Selection {
  import opened Base
  import opened Texts
  import opened Versions

  /** A release's `tag_name`: a missing one is skipped, one that is not text raises. */
  datatype Tag = Missing | NotText | Text(name: string)

  /** A release as GitHub lists it. `flagged` is its `prerelease` flag, which nothing ties to the tag. */
  datatype Release = Release(tag: Tag, draft: bool, flagged: bool, assets: seq<string>)

  datatype Choice = Failed | Nothing | Chosen(index: nat)

  /** What examining a candidate finds: its manifest accepts this installation, or refuses it, or could not be had. */
  datatype Verdict = Supported | Unsupported | Unavailable

  datatype Report = CheckFailed | UpToDate | Offer(release: Release)

  const MAX_CANDIDATES: nat := 8

  // ----- The specification -----

  function WithoutV(name: string): string {
    if name != "" && name[0] == 'v' then name[1..] else name
  }

  function KeyIn(r: Release): Option<Key> {
    if r.tag.Text? then KeyOf(WithoutV(r.tag.name)) else None
  }

  predicate Choosable(r: Release, installed: Key) {
    && KeyIn(r).Some? && Less(installed, KeyIn(r).value)
    && !r.draft && !(installed.stable && r.flagged)
    && KeyIn(r).value.major == installed.major && KeyIn(r).value.minor == installed.minor
    && "upgrade.json" in r.assets && "SHA256SUMS" in r.assets
  }

  /** Release `a` is no older than `b`. */
  predicate NotBelow(a: Release, b: Release)
    requires KeyIn(a).Some? && KeyIn(b).Some?
  {
    !Less(KeyIn(a).value, KeyIn(b).value)
  }

  /** The first of the newest choosable releases. */
  ghost predicate BestAt(releases: seq<Release>, installed: Key, k: nat) {
    && k < |releases| && Choosable(releases[k], installed)
    && (forall j :: 0 <= j < |releases| && Choosable(releases[j], installed) ==> NotBelow(releases[k], releases[j]))
    && (forall j :: 0 <= j < k && Choosable(releases[j], installed) ==> !NotBelow(releases[j], releases[k]))
  }

  // ----- Choosing -----

  /** `eligible`: the choices in list order, then their maximum, the first one among equals. */
  method Eligible(releases: seq<Release>, installed: string) returns (c: Choice)
    ensures c == Failed <==> KeyOf(installed) == None || exists i :: 0 <= i < |releases| && releases[i].tag == NotText
    ensures c == Nothing ==> forall i :: 0 <= i < |releases| ==> !Choosable(releases[i], KeyOf(installed).value)
    ensures c.Chosen? ==> BestAt(releases, KeyOf(installed).value, c.index)
  {
    hide KeyOf, Less;
    var key := VersionKey(installed);
    if key == None {
      return Failed;
    }
    var choices: seq<nat> := [];
    for i := 0 to |releases|
      invariant forall j :: 0 <= j < i ==> releases[j].tag != NotText
      invariant ChoicesOf(releases, key.value, choices, i)
    {
      if releases[i].tag == NotText {
        return Failed;
      }
      if Choosable(releases[i], key.value) {
        choices := choices + [i];
      }
    }
    if choices == [] {
      return Nothing;
    }
    c := Max(releases, key.value, choices);
  }

  /** The choosable positions below `n`, in order. */
  ghost predicate ChoicesOf(releases: seq<Release>, installed: Key, choices: seq<nat>, n: nat)
    requires n <= |releases|
  {
    && (forall m :: 0 <= m < |choices| ==> choices[m] < n && Choosable(releases[choices[m]], installed))
    && (forall m, k :: 0 <= m < k < |choices| ==> choices[m] < choices[k])
    && (forall j :: 0 <= j < n && Choosable(releases[j], installed) ==> j in choices)
  }

  ghost predicate Keyed(releases: seq<Release>, choices: seq<nat>) {
    forall m :: 0 <= m < |choices| ==> choices[m] < |releases| && KeyIn(releases[choices[m]]).Some?
  }

  /** The first newest among the first `m` choices. */
  ghost predicate FirstBest(releases: seq<Release>, choices: seq<nat>, m: nat, best: nat)
    requires Keyed(releases, choices)
  {
    && best < m <= |choices|
    && (forall k :: 0 <= k < m ==> NotBelow(releases[choices[best]], releases[choices[k]]))
    && (forall k :: 0 <= k < best ==> !NotBelow(releases[choices[k]], releases[choices[best]]))
  }

  lemma NewBest(releases: seq<Release>, choices: seq<nat>, m: nat, best: nat)
    requires Keyed(releases, choices) && FirstBest(releases, choices, m, best) && m < |choices|
    requires !NotBelow(releases[choices[best]], releases[choices[m]])
    ensures FirstBest(releases, choices, m + 1, m)
  {
    hide NotBelow, KeyIn;
    forall k | 0 <= k < m ensures !NotBelow(releases[choices[k]], releases[choices[m]]) {
      NotBelowTransitive(releases[choices[best]], releases[choices[k]], releases[choices[m]]);
    }
    forall k | 0 <= k <= m ensures NotBelow(releases[choices[m]], releases[choices[k]]) {
      NotBelowTransitive(releases[choices[m]], releases[choices[k]], releases[choices[m]]);
      NotBelowTransitive(releases[choices[k]], releases[choices[m]], releases[choices[m]]);
    }
  }

  lemma FoundBest(releases: seq<Release>, installed: Key, choices: seq<nat>, best: nat)
    requires Keyed(releases, choices) && ChoicesOf(releases, installed, choices, |releases|)
    requires FirstBest(releases, choices, |choices|, best)
    ensures BestAt(releases, installed, choices[best])
  {
    hide NotBelow, KeyIn, Choosable, KeyOf, Less;
    forall j | 0 <= j < choices[best] && Choosable(releases[j], installed)
      ensures KeyIn(releases[j]).Some? && !NotBelow(releases[j], releases[choices[best]]) {
      var m :| 0 <= m < |choices| && choices[m] == j;
      assert m < best;
    }
  }

  method Max(releases: seq<Release>, installed: Key, choices: seq<nat>) returns (c: Choice)
    requires ChoicesOf(releases, installed, choices, |releases|) && choices != []
    ensures c.Chosen? && BestAt(releases, installed, c.index)
  {
    hide NotBelow, KeyOf, Less, KeyIn;
    NotBelowTransitive(releases[choices[0]], releases[choices[0]], releases[choices[0]]);
    var best := 0;
    for m := 1 to |choices|
      invariant FirstBest(releases, choices, m, best)
    {
      if !NotBelow(releases[choices[best]], releases[choices[m]]) {
        NewBest(releases, choices, m, best);
        best := m;
      }
    }
    FoundBest(releases, installed, choices, best);
    c := Chosen(choices[best]);
  }

  lemma NotBelowTransitive(a: Release, b: Release, c: Release)
    requires KeyIn(a).Some? && KeyIn(b).Some? && KeyIn(c).Some?
    ensures NotBelow(a, a) && (NotBelow(a, b) || NotBelow(b, a))
    ensures NotBelow(a, b) && NotBelow(b, c) ==> NotBelow(a, c)
  {
    hide Less, KeyOf;
    LessTotal();
  }

  // ----- Checking -----

  /** `r` is in the list more often than it was examined. */
  ghost predicate Left(releases: seq<Release>, examined: seq<Release>, r: Release) {
    r in multiset(releases) - multiset(examined)
  }

  /** The candidates examined so far come from the list, were all refused, newest first, and leave nothing newer. */
  ghost predicate Refused(releases: seq<Release>, examined: seq<Release>, installed: Key, verdict: Release -> Verdict) {
    && multiset(examined) <= multiset(releases)
    && (forall i :: 0 <= i < |examined| ==> Choosable(examined[i], installed) && verdict(examined[i]) == Unsupported)
    && (forall i, j :: 0 <= i < j < |examined| ==> NotBelow(examined[i], examined[j]))
    && (forall i, r :: 0 <= i < |examined| && Left(releases, examined, r) && Choosable(r, installed) ==>
      NotBelow(examined[i], r))
  }

  /** One of the newest choosable releases that are left. */
  ghost predicate NextBest(releases: seq<Release>, examined: seq<Release>, installed: Key, r: Release) {
    && Left(releases, examined, r) && Choosable(r, installed)
    && forall s :: Left(releases, examined, s) && Choosable(s, installed) ==> NotBelow(r, s)
  }

  /** What each report says about the candidate that comes after the examined ones. */
  ghost predicate Reports(releases: seq<Release>, examined: seq<Release>, installed: Key, verdict: Release -> Verdict,
                          report: Report) {
    match report
    case Offer(o) =>
      |examined| < MAX_CANDIDATES && NextBest(releases, examined, installed, o) && verdict(o) == Supported
    case UpToDate =>
      |examined| == MAX_CANDIDATES || forall r :: Left(releases, examined, r) ==> !Choosable(r, installed)
    case CheckFailed =>
      && |examined| < MAX_CANDIDATES
      && ((exists r :: r in releases && r.tag == NotText)
          || (exists r :: NextBest(releases, examined, installed, r) && verdict(r) == Unavailable))
  }

  /** What `remaining` is. */
  ghost predicate Remains(releases: seq<Release>, remaining: seq<Release>, examined: seq<Release>) {
    multiset(releases) == multiset(remaining) + multiset(examined)
  }

  lemma BestIsNext(releases: seq<Release>, remaining: seq<Release>, examined: seq<Release>, installed: Key, k: nat)
    requires Remains(releases, remaining, examined) && BestAt(remaining, installed, k)
    ensures NextBest(releases, examined, installed, remaining[k])
  {
    hide KeyOf, Less, KeyIn, NotBelow;
    assert multiset(releases) - multiset(examined) == multiset(remaining);
    forall s | Left(releases, examined, s) && Choosable(s, installed)
      ensures KeyIn(s).Some? && KeyIn(remaining[k]).Some? && NotBelow(remaining[k], s)
    {
      assert s in multiset(remaining);
      var j :| 0 <= j < |remaining| && remaining[j] == s;
    }
  }

  lemma TakenOut(releases: seq<Release>, remaining: seq<Release>, examined: seq<Release>, k: nat)
    requires Remains(releases, remaining, examined) && k < |remaining|
    ensures Remains(releases, remaining[..k] + remaining[k + 1..], examined + [remaining[k]])
  {
    assert remaining == remaining[..k] + [remaining[k]] + remaining[k + 1..];
  }

  lemma NoneRefused(releases: seq<Release>, installed: Key, verdict: Release -> Verdict)
    ensures Refused(releases, [], installed, verdict)
  {
  }

  lemma RefusedNext(releases: seq<Release>, examined: seq<Release>, installed: Key, verdict: Release -> Verdict,
                    r: Release)
    requires Refused(releases, examined, installed, verdict) && NextBest(releases, examined, installed, r)
             && verdict(r) == Unsupported
    ensures Refused(releases, examined + [r], installed, verdict)
  {
    hide KeyOf, Less, NotBelow, Left;
    OneFewerLeft(releases, examined, r);
    assert forall i, s :: 0 <= i < |examined + [r]| && Left(releases, examined + [r], s) && Choosable(s, installed) ==>
             NotBelow((examined + [r])[i], s);
  }

  lemma OneFewerLeft(releases: seq<Release>, examined: seq<Release>, r: Release)
    requires multiset(examined) <= multiset(releases) && Left(releases, examined, r)
    ensures multiset(examined + [r]) <= multiset(releases)
    ensures forall s :: Left(releases, examined + [r], s) ==> Left(releases, examined, s)
  {
    assert multiset(examined + [r]) == multiset(examined) + multiset{r};
  }

  /** What a report says about the list alone: an offer is supported, choosable and not older than any other such
      release; with fewer than eight releases, up to date means that every choosable one was refused; a failure has a
      tag or a candidate to blame. */
  ghost predicate Truthful(releases: seq<Release>, installed: Key, verdict: Release -> Verdict, report: Report) {
    match report
    case Offer(o) =>
      && o in releases && Choosable(o, installed) && verdict(o) == Supported
      && forall r :: r in releases && Choosable(r, installed) && verdict(r) == Supported ==> NotBelow(o, r)
    case UpToDate =>
      |releases| >= MAX_CANDIDATES || forall r :: r in releases && Choosable(r, installed) ==> verdict(r) == Unsupported
    case CheckFailed =>
      exists r :: r in releases && (r.tag == NotText || (Choosable(r, installed) && verdict(r) == Unavailable))
  }

  lemma ReportIsTruthful(releases: seq<Release>, examined: seq<Release>, installed: Key, verdict: Release -> Verdict,
                         report: Report)
    requires Refused(releases, examined, installed, verdict) && Reports(releases, examined, installed, verdict, report)
    requires |examined| <= MAX_CANDIDATES
    ensures Truthful(releases, installed, verdict, report)
  {
    hide KeyOf, Less, NotBelow;
    forall r | r in releases && r !in examined ensures Left(releases, examined, r) {
      assert r in multiset(releases);
    }
    forall r | Left(releases, examined, r) ensures r in releases {
      assert r in multiset(releases);
    }
    assert |releases| == |multiset(releases)| && |examined| == |multiset(examined)|;
    if report == UpToDate && |examined| == MAX_CANDIDATES {
      SubBag(multiset(examined), multiset(releases));
    }
  }

  lemma SubBag(a: multiset<Release>, b: multiset<Release>)
    requires a <= b
    ensures |a| <= |b|
  {
    assert b == a + (b - a);
  }

  /** `release_check` on a fetched list: at most eight candidates, each the best of those not examined yet. `examined`
      holds the candidates that were refused. */
  method ReleaseCheck(releases: seq<Release>, installed: string, verdict: Release -> Verdict)
    returns (report: Report, ghost examined: seq<Release>)
    requires KeyOf(installed).Some?
    ensures |examined| <= MAX_CANDIDATES && Refused(releases, examined, KeyOf(installed).value, verdict)
    ensures Reports(releases, examined, KeyOf(installed).value, verdict, report)
    ensures Truthful(releases, KeyOf(installed).value, verdict, report)
  {
    hide KeyOf, Less, Choosable, NotBelow, Refused, NextBest, Truthful;
    ghost var key := KeyOf(installed).value;
    NoneRefused(releases, key, verdict);
    var remaining := releases;
    examined := [];
    for n := 0 to MAX_CANDIDATES
      invariant |examined| == n && Refused(releases, examined, key, verdict) && Remains(releases, remaining, examined)
    {
      assert multiset(releases) - multiset(examined) == multiset(remaining);
      var c := Eligible(remaining, installed);
      match c
      case Failed =>
        ghost var i :| 0 <= i < |remaining| && remaining[i].tag == NotText;
        assert remaining[i] in multiset(remaining) && remaining[i] in multiset(releases);
        ReportIsTruthful(releases, examined, key, verdict, CheckFailed);
        return CheckFailed, examined;
      case Nothing =>
        ReportIsTruthful(releases, examined, key, verdict, UpToDate);
        return UpToDate, examined;
      case Chosen(k) =>
        var candidate := remaining[k];
        BestIsNext(releases, remaining, examined, key, k);
        match verdict(candidate) {
          case Unavailable =>
            ReportIsTruthful(releases, examined, key, verdict, CheckFailed);
            return CheckFailed, examined;
          case Supported =>
            ReportIsTruthful(releases, examined, key, verdict, Offer(candidate));
            return Offer(candidate), examined;
          case Unsupported =>
            RefusedNext(releases, examined, key, verdict, candidate);
            TakenOut(releases, remaining, examined, k);
            remaining, examined := remaining[..k] + remaining[k + 1..], examined + [candidate];
        }
    }
    report := UpToDate;
    ReportIsTruthful(releases, examined, key, verdict, report);
  }

  /** What a user may conclude: an offer is the newest supported choosable release; and a supported choosable release is
      missed only behind a failed check or behind eight refused candidates, none of them older. */
  lemma ReportMeaning(releases: seq<Release>, examined: seq<Release>, installed: Key, verdict: Release -> Verdict,
                      report: Report, r: Release)
    requires Refused(releases, examined, installed, verdict) && Reports(releases, examined, installed, verdict, report)
    requires r in releases && Choosable(r, installed) && verdict(r) == Supported
    ensures report.Offer? ==> report.release in releases && Choosable(report.release, installed)
                              && verdict(report.release) == Supported && NotBelow(report.release, r)
    ensures report == UpToDate ==> |examined| == MAX_CANDIDATES
    ensures forall i :: 0 <= i < |examined| ==> KeyIn(examined[i]).Some? && NotBelow(examined[i], r)
  {
    hide KeyOf, Less, NotBelow;
    assert r !in examined;
    assert r in multiset(releases) && r !in multiset(examined);
    assert Left(releases, examined, r);
  }

  // ----- What a choice means -----

  /** A choosable release follows the installed one in the standard's order and stays in its series; and a stable
      installation is offered a prerelease version only when GitHub's flag does not say that it is one. */
  lemma ChoosableMeaning(r: Release, installed: string)
    requires KeyOf(installed).Some? && Choosable(r, KeyOf(installed).value)
    ensures Precedes(KeyOf(installed).value, KeyIn(r).value)
    ensures KeyIn(r).value.major == KeyOf(installed).value.major && KeyIn(r).value.minor == KeyOf(installed).value.minor
    ensures KeyOf(installed).value.stable ==> !r.flagged
  {
    hide KeyOf, Less, Precedes;
    RenderKeyOf(installed);
    RenderKeyOf(WithoutV(r.tag.name));
    LessIsPrecedence(KeyOf(installed).value, KeyIn(r).value);
  }

  /** The version a tag names: a leading "v" is left out, once. */
  ghost predicate TagNames(tag: Tag, version: string) {
    tag == Text("v" + version) || (tag == Text(version) && forall rest :: version != "v" + rest)
  }

  lemma TagMeaning(r: Release, version: string)
    requires TagNames(r.tag, version)
    ensures KeyIn(r) == KeyOf(version)
  {
    hide KeyOf;
    var name := r.tag.name;
    if name != "" && name[0] == 'v' {
      assert name == "v" + name[1..];
      assert name == "v" + version ==> version == name[1..];
    }
  }

  /** The whole condition: the tag names an accepted version, above the installed one in the standard's order and with
      its major and minor number; no draft; not flagged as a prerelease, for a stable installation; and both files. */
  lemma ChoosableIff(r: Release, installed: Key)
    requires KeyOk(installed)
    ensures Choosable(r, installed) <==>
              && (exists version :: TagNames(r.tag, version) && Follows(version, installed))
              && !r.draft && (installed.stable ==> !r.flagged) && "upgrade.json" in r.assets && "SHA256SUMS" in r.assets
  {
    hide KeyOf, Less, Precedes;
    if r.tag.Text? {
      var name := r.tag.name;
      var version := if name != "" && name[0] == 'v' then name[1..] else name;
      assert TagNames(r.tag, version);
      forall other | TagNames(r.tag, other) ensures KeyOf(other) == KeyIn(r) {
        TagMeaning(r, other);
      }
      if KeyOf(version).Some? {
        RenderKeyOf(version);
        LessIsPrecedence(installed, KeyOf(version).value);
      }
    }
  }

  ghost predicate Follows(version: string, installed: Key) {
    && KeyOf(version).Some? && Precedes(installed, KeyOf(version).value)
    && KeyOf(version).value.major == installed.major && KeyOf(version).value.minor == installed.minor
  }

  /** The answer for a stable installation is a prerelease version exactly when some choosable release with a prerelease
      version is newer than every choosable release with a stable one: the guard looks at the flag alone. */
  lemma PrereleaseChosenIff(releases: seq<Release>, installed: Key, k: nat)
    requires installed.stable && BestAt(releases, installed, k)
    ensures !KeyIn(releases[k]).value.stable <==> Outranked(releases, installed)
  {
    hide KeyOf, Less;
    LessTotal();
    if !KeyIn(releases[k]).value.stable {
      assert Outranks(releases, installed, k);
    }
  }

  /** The unflagged prerelease at `p` is newer than every choosable stable release. */
  ghost predicate Outranks(releases: seq<Release>, installed: Key, p: nat) {
    && p < |releases| && Choosable(releases[p], installed) && !KeyIn(releases[p]).value.stable
    && forall j :: 0 <= j < |releases| && Choosable(releases[j], installed) && KeyIn(releases[j]).value.stable ==>
         Less(KeyIn(releases[j]).value, KeyIn(releases[p]).value)
  }

  ghost predicate Outranked(releases: seq<Release>, installed: Key) {
    exists p: nat :: Outranks(releases, installed, p)
  }

  const CANDIDATE_KEY := Key(1, 0, 1, false, [Word("rc"), Num(1)])
  const MISLABELLED := Release(Text("1.0.1-rc.1"), false, false, ["upgrade.json", "SHA256SUMS"])

  lemma MislabelledKey()
    ensures KeyIn(MISLABELLED) == Some(CANDIDATE_KEY)
  {
    hide KeyOf, PartTexts, Join, CoreText, PartOk;
    CandidateParts();
    CandidateCore();
    assert Render(CANDIDATE_KEY) == "1.0.1" + ("-" + "rc.1") == "1.0.1-rc.1";
    KeyOfRender(CANDIDATE_KEY);
  }

  lemma CandidateParts()
    ensures PartOk(Word("rc")) && PartOk(Num(1)) && Join(PartTexts([Word("rc"), Num(1)]), '.') == "rc.1"
  {
    assert !Digit("rc"[0]);
    assert PartTexts([Word("rc"), Num(1)]) == ["rc", "1"];
    assert ["rc", "1"][1..] == ["1"];
  }

  lemma CandidateCore()
    ensures CoreText(1, 0, 1) == "1.0.1"
  {
    assert ["1", "0", "1"][1..] == ["0", "1"] && ["0", "1"][1..] == ["1"];
  }

  /** A concrete list for which it happens: a prerelease published without the flag is the answer. */
  lemma MislabelledIsChosen()
    ensures BestAt([MISLABELLED], Key(1, 0, 0, true, []), 0) && !KeyIn(MISLABELLED).value.stable
    ensures Outranked([MISLABELLED], Key(1, 0, 0, true, []))
  {
    hide KeyOf, KeyIn;
    MislabelledKey();
    NotBelowTransitive(MISLABELLED, MISLABELLED, MISLABELLED);
    assert Choosable(MISLABELLED, Key(1, 0, 0, true, []));
    assert Outranks([MISLABELLED], Key(1, 0, 0, true, []), 0);
  }
}
