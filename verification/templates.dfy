// `extend_template` of the Actions and of the ClickHouse runtime: one owned section, between
// two comment lines, spliced into a containerd template that others edit too.

module Templates {
  import opened Base
  import opened Texts

  datatype Profile = Plain | Shared

  /** One runtime's comment lines, the word that betrays an unowned configuration, and the text of its section. */
  datatype Runtime = Runtime(begin: string, end: string, word: string, body: Profile -> string)

  const ACTIONS_BEGIN := "# BEGIN HAKOPOD MANAGED ACTIONS\n"
  const ACTIONS_END := "# END HAKOPOD MANAGED ACTIONS\n"
  const CLICKHOUSE_BEGIN := "# BEGIN HAKOPOD CLICKHOUSE\n"
  const CLICKHOUSE_END := "# END HAKOPOD CLICKHOUSE\n"

  // ----- Searching -----

  predicate OccursAt(text: string, pattern: string, i: nat) {
    i + |pattern| <= |text| && text[i..i + |pattern|] == pattern
  }

  /** The first occurrence at or after `i`. */
  function Find(text: string, pattern: string, i: nat): (r: Option<nat>)
    ensures r.Some? ==> i <= r.value && OccursAt(text, pattern, r.value)
    ensures forall j: nat :: i <= j && OccursAt(text, pattern, j) ==> r.Some? && r.value <= j
    decreases |text| - i
  {
    if i + |pattern| > |text| then None
    else if OccursAt(text, pattern, i) then Some(i)
    else Find(text, pattern, i + 1)
  }

  predicate Contains(text: string, pattern: string) {
    Find(text, pattern, 0).Some?
  }

  /** `text.count(pattern) == 1`. */
  predicate Single(text: string, pattern: string) {
    var first := Find(text, pattern, 0);
    first.Some? && Find(text, pattern, first.value + |pattern|).None?
  }

  function StripEnd(text: string): (r: string)
    ensures r <= text && (r != "" ==> !White(r[|r| - 1])) && forall i :: |r| <= i < |text| ==> White(text[i])
  {
    if text != "" && White(text[|text| - 1]) then StripEnd(text[..|text| - 1]) else text
  }

  // ----- Splicing -----

  function Section(o: Runtime, p: Profile): string {
    o.begin + o.body(p) + o.end
  }

  /** `extend_template` of the Actions runtime; None is its ValueError. */
  function Extend(o: Runtime, text: string, p: Profile): Option<string> {
    if Contains(text, o.begin) then
      if !Single(text, o.begin) || !Single(text, o.end) then None else
        var start, stop := Find(text, o.begin, 0).value, Find(text, o.end, 0).value + |o.end|;
        var existing := if start <= stop then text[start..stop] else "";
        if existing != Section(o, Plain) && existing != Section(o, Shared) then None
        else Some(text[..start] + Section(o, p) + text[stop..])
    else if Contains(text, o.word) || Contains(text, o.end) then None
    else Some(StripEnd(text) + "\n\n" + Section(o, p))
  }

  /** `extend_template` of the ClickHouse runtime, which has one profile and leaves an owned section alone. */
  function ExtendFixed(o: Runtime, text: string): Option<string> {
    if Contains(text, o.begin) then
      if !Single(text, o.begin) || !Single(text, o.end) || !Contains(text, Section(o, Plain)) then None else Some(text)
    else if Contains(text, o.word) || Contains(text, o.end) then None
    else Some(StripEnd(text) + "\n\n" + Section(o, Plain))
  }

  /** A second ClickHouse splice changes nothing, if it is accepted at all. */
  lemma FixedAgain(o: Runtime, text: string)
    requires o.begin != "" && ExtendFixed(o, text).Some? && ExtendFixed(o, ExtendFixed(o, text).value).Some?
    ensures ExtendFixed(o, ExtendFixed(o, text).value) == ExtendFixed(o, text)
  {
    hide StripEnd, Single, Find;
    var b := StripEnd(text) + "\n\n";
    assert OccursAt(b + Section(o, Plain), o.begin, |b|);
    FoundIfOccurs(b + Section(o, Plain), o.begin, |b|);
  }

  lemma FoundIfOccurs(text: string, pattern: string, i: nat)
    requires OccursAt(text, pattern, i)
    ensures Contains(text, pattern)
  {
  }

  // ----- Comment lines -----

  /** A whole comment line: a hash only in front, a line break only at the end, and no blank before it. */
  predicate Marker(m: string) {
    && |m| >= 2 && m[0] == '#' && m[|m| - 1] == '\n' && !White(m[|m| - 2])
    && (forall i :: 0 < i < |m| ==> m[i] != '#') && (forall i :: 0 <= i < |m| - 1 ==> m[i] != '\n')
  }

  ghost predicate RuntimeOk(o: Runtime) {
    Marker(o.begin) && Marker(o.end) && o.begin != o.end && forall p :: '#' !in o.body(p)
  }

  lemma ActionsMarkers()
    ensures Marker(ACTIONS_BEGIN) && Marker(ACTIONS_END) && |ACTIONS_BEGIN| == 32 && |ACTIONS_END| == 30
  {
    assert |ACTIONS_BEGIN| == 32 && |ACTIONS_END| == 30;
  }

  lemma ClickHouseMarkers()
    ensures Marker(CLICKHOUSE_BEGIN) && Marker(CLICKHOUSE_END) && |CLICKHOUSE_BEGIN| == 27 && |CLICKHOUSE_END| == 25
  {
    assert |CLICKHOUSE_BEGIN| == 27 && |CLICKHOUSE_END| == 25;
  }

  /** The markers of the two runtimes are comment lines, all different. */
  lemma MarkersOk()
    ensures Marker(ACTIONS_BEGIN) && Marker(ACTIONS_END) && Marker(CLICKHOUSE_BEGIN) && Marker(CLICKHOUSE_END)
    ensures ACTIONS_BEGIN != ACTIONS_END && CLICKHOUSE_BEGIN != CLICKHOUSE_END
    ensures {ACTIONS_BEGIN, ACTIONS_END} !! {CLICKHOUSE_BEGIN, CLICKHOUSE_END}
  {
    hide Marker;
    ActionsMarkers();
    ClickHouseMarkers();
  }

  /** The marker without its line break. */
  function Stem(m: string): string
    requires m != ""
  {
    m[..|m| - 1]
  }

  predicate EndsWith(text: string, tail: string) {
    |tail| <= |text| && text[|text| - |tail|..] == tail
  }

  /** Appending a line break completes no marker of the runtime. */
  predicate Clean(o: Runtime, text: string)
    requires o.begin != "" && o.end != ""
  {
    !EndsWith(StripEnd(text), Stem(o.begin)) && !EndsWith(StripEnd(text), Stem(o.end))
  }

  lemma CharAt(text: string, m: string, i: nat, k: nat)
    requires OccursAt(text, m, i) && k < |m|
    ensures text[i + k] == m[k]
  {
    assert text[i + k] == text[i..i + |m|][k];
  }

  lemma OccursWithin(a: string, b: string, m: string, i: nat)
    ensures i + |m| <= |a| ==> (OccursAt(a + b, m, i) <==> OccursAt(a, m, i))
    ensures i >= |a| ==> (OccursAt(a + b, m, i) <==> OccursAt(b, m, i - |a|))
    ensures i < |a| < i + |m| && OccursAt(a + b, m, i) ==> b != "" && m[|a| - i] == b[0]
  {
    if i + |m| <= |a| {
      assert (a + b)[i..i + |m|] == a[i..i + |m|];
    } else if i >= |a| && i + |m| <= |a + b| {
      assert (a + b)[i..i + |m|] == b[i - |a|..i - |a| + |m|];
    } else if OccursAt(a + b, m, i) {
      assert (a + b)[i..i + |m|][|a| - i] == (a + b)[|a|];
    }
  }

  /** No comment line runs across the start of another. */
  lemma OccursApart(a: string, b: string, m: string, i: nat)
    requires Marker(m) && (b == "" || b[0] == '#')
    ensures OccursAt(a + b, m, i) <==> OccursAt(a, m, i) || (i >= |a| && OccursAt(b, m, i - |a|))
  {
    OccursWithin(a, b, m, i);
  }

  /** Two comment lines at one place are the same line. */
  lemma OccursAtHead(e: string, c: string, m: string, i: nat)
    requires Marker(e) && Marker(m)
    ensures OccursAt(e + c, m, i) <==> (i == 0 && m == e) || (i >= |e| && OccursAt(c, m, i - |e|))
  {
    OccursWithin(e, c, m, i);
    if OccursAt(e + c, m, i) && i < |e| {
      CharAt(e + c, m, i, 0);
      CharAt(e + c, m, i, if |m| < |e| then |m| - 1 else |e| - 1);
      assert (e + c)[..|e|] == e;
    }
    assert (e + c)[0..|e|] == e;
  }

  lemma OccursNot(text: string, m: string, i: nat)
    requires Marker(m) && '#' !in text
    ensures !OccursAt(text, m, i)
  {
    if OccursAt(text, m, i) {
      CharAt(text, m, i, 0);
    }
  }

  /** Where a comment line can occur around a section: before it, after it, or as one of its own two. */
  ghost predicate Places(a: string, o: Runtime, p: Profile, c: string, m: string, i: nat) {
    || OccursAt(a, m, i)
    || (i == |a| && m == o.begin)
    || (i == |a| + |o.begin| + |o.body(p)| && m == o.end)
    || (i >= |a| + |Section(o, p)| && OccursAt(c, m, i - |a| - |Section(o, p)|))
  }

  lemma Around(a: string, o: Runtime, p: Profile, c: string, m: string, i: nat)
    requires RuntimeOk(o) && Marker(m)
    ensures OccursAt(a + Section(o, p) + c, m, i) <==> Places(a, o, p, c, m, i)
  {
    hide OccursAt, Marker;
    var tail := o.body(p) + (o.end + c);
    assert a + Section(o, p) + c == a + (o.begin + tail);
    HeadHash(o.begin, tail);
    OccursApart(a, o.begin + tail, m, i);
    if i >= |a| {
      var j := i - |a|;
      OccursAtHead(o.begin, tail, m, j);
      if j >= |o.begin| {
        var k := j - |o.begin|;
        HeadHash(o.end, c);
        OccursApart(o.body(p), o.end + c, m, k);
        OccursNot(o.body(p), m, k);
        if k >= |o.body(p)| {
          OccursAtHead(o.end, c, m, k - |o.body(p)|);
        }
      }
    }
  }

  lemma HeadHash(m: string, rest: string)
    requires Marker(m)
    ensures m != "" && (m + rest)[0] == '#'
  {
  }

  // ----- Owned sections -----

  ghost predicate Lacks(text: string, m: string) {
    forall i: nat :: !OccursAt(text, m, i)
  }

  /** `text` holds exactly one section of the runtime, with `b` before it and `a` after it. */
  ghost predicate Owned(o: Runtime, text: string, p: Profile, b: string, a: string) {
    && text == b + Section(o, p) + a
    && Lacks(b, o.begin) && Lacks(b, o.end) && Lacks(a, o.begin) && Lacks(a, o.end)
  }

  lemma FoundAt(text: string, m: string, k: nat)
    requires m != "" && OccursAt(text, m, k) && forall i: nat :: OccursAt(text, m, i) ==> i == k
    ensures Find(text, m, 0) == Some(k) && Single(text, m)
  {
  }

  /** Splicing an owned section replaces it and touches nothing else. */
  lemma ExtendOwned(o: Runtime, text: string, p: Profile, b: string, a: string, q: Profile)
    requires RuntimeOk(o) && Owned(o, text, p, b, a)
    ensures Contains(text, o.begin) && Extend(o, text, q) == Some(b + Section(o, q) + a)
  {
    hide OccursAt, Marker;
    var e := |b| + |o.begin| + |o.body(p)|;
    forall i: nat ensures OccursAt(text, o.begin, i) <==> i == |b| {
      Around(b, o, p, a, o.begin, i);
    }
    forall i: nat ensures OccursAt(text, o.end, i) <==> i == e {
      Around(b, o, p, a, o.end, i);
    }
    HeadHash(o.begin, "");
    HeadHash(o.end, "");
    FoundAt(text, o.begin, |b|);
    FoundAt(text, o.end, e);
    assert text[|b|..e + |o.end|] == Section(o, p);
    assert text[..|b|] == b && text[e + |o.end|..] == a;
  }

  lemma AcceptedShape(o: Runtime, text: string, q: Profile) returns (p: Profile, start: nat, stop: nat)
    requires RuntimeOk(o) && Contains(text, o.begin) && Extend(o, text, q).Some?
    ensures start <= stop <= |text| && text == text[..start] + Section(o, p) + text[stop..]
    ensures stop == start + |Section(o, p)| && stop >= |o.end|
    ensures forall i: nat :: OccursAt(text, o.begin, i) ==> start <= i < start + |o.begin|
    ensures forall i: nat :: OccursAt(text, o.end, i) ==> stop - |o.end| <= i < stop
  {
    hide OccursAt, Marker, Section;
    start := Find(text, o.begin, 0).value;
    var e := Find(text, o.end, 0).value;
    stop := e + |o.end|;
    SectionLong(o);
    OccursInside(text, o.end, e);
    p := if text[start..stop] == Section(o, Plain) then Plain else Shared;
  }

  /** An accepted text that has the begin line holds exactly one section. */
  lemma AcceptedIsOwned(o: Runtime, text: string, q: Profile) returns (p: Profile, b: string, a: string)
    requires RuntimeOk(o) && Contains(text, o.begin) && Extend(o, text, q).Some?
    ensures Owned(o, text, p, b, a)
  {
    hide OccursAt, Marker, Extend, Contains;
    var start, stop;
    p, start, stop := AcceptedShape(o, text, q);
    SectionLong(o);
    b, a := text[..start], text[stop..];
    forall i: nat ensures !OccursAt(b, o.begin, i) && !OccursAt(a, o.begin, i) {
      Around(b, o, p, a, o.begin, i);
      Around(b, o, p, a, o.begin, |b| + |Section(o, p)| + i);
      OccursInside(b, o.begin, i);
    }
    forall i: nat ensures !OccursAt(b, o.end, i) && !OccursAt(a, o.end, i) {
      Around(b, o, p, a, o.end, i);
      Around(b, o, p, a, o.end, |b| + |Section(o, p)| + i);
      OccursInside(b, o.end, i);
    }
  }

  lemma SectionLong(o: Runtime)
    requires RuntimeOk(o)
    ensures |o.begin| > 0 && |o.end| > 0 && Section(o, Plain) != "" && Section(o, Shared) != ""
    ensures forall p :: |Section(o, p)| == |o.begin| + |o.body(p)| + |o.end|
  {
  }

  lemma OccursInside(text: string, m: string, i: nat)
    ensures OccursAt(text, m, i) ==> i + |m| <= |text|
  {
  }

  // ----- Appending -----

  /** What is added behind a text without the marker completes it exactly when the text ends with its stem. */
  lemma Completed(text: string, m: string, i: nat)
    requires Marker(m) && Lacks(text, m)
    ensures OccursAt(StripEnd(text) + "\n\n", m, i) <==>
            EndsWith(StripEnd(text), Stem(m)) && i == |StripEnd(text)| - |Stem(m)|
  {
    if OccursAt(StripEnd(text) + "\n\n", m, i) {
      CompletedEnds(text, m, i);
    }
    if EndsWith(StripEnd(text), Stem(m)) && i == |StripEnd(text)| - |Stem(m)| {
      var longer := StripEnd(text) + "\n\n";
      assert longer[i..i + |m|] == StripEnd(text)[i..] + "\n" == Stem(m) + "\n";
      assert m == Stem(m) + "\n";
    }
  }

  lemma CompletedEnds(text: string, m: string, i: nat)
    requires Marker(m) && Lacks(text, m) && OccursAt(StripEnd(text) + "\n\n", m, i)
    ensures EndsWith(StripEnd(text), Stem(m)) && i == |StripEnd(text)| - |Stem(m)|
  {
    var r := StripEnd(text);
    var longer := r + "\n\n";
    assert i + |m| > |r| && i < |r| by {
      CharAt(longer, m, i, 0);
      CharAt(longer, m, i, |m| - 1);
      OccursWithin(r, text[|r|..], m, i);
      OccursWithin(r, "\n\n", m, i);
      assert text == r + text[|r|..];
    }
    CharAt(longer, m, i, |r| - i);
    assert |r| - i == |m| - 1;
    assert longer[i..i + |m|][..|m| - 1] == longer[i..|r|] == r[i..];
  }

  lemma LacksIffAbsent(text: string, m: string)
    ensures Lacks(text, m) <==> !Contains(text, m)
  {
  }

  /** One marker of the section appended to a text that lacks it: a stem at the end of the text becomes a second one. */
  lemma AppendedMarker(o: Runtime, text: string, p: Profile, m: string)
    requires RuntimeOk(o) && (m == o.begin || m == o.end) && Lacks(text, m)
    ensures var b, u := StripEnd(text) + "\n\n", StripEnd(text) + "\n\n" + Section(o, p);
            && Contains(u, m) && Lacks("", m)
            && if EndsWith(StripEnd(text), Stem(m)) then !Single(u, m) else Lacks(b, m)
  {
    hide OccursAt, Marker, StripEnd, Single, Contains, Section, Lacks;
    var b := StripEnd(text) + "\n\n";
    assert b + Section(o, p) == b + Section(o, p) + "";
    MarkerPlaces(b, o, p, "");
    EmptyLacks(m);
    LacksCompleted(text, m);
    if EndsWith(StripEnd(text), Stem(m)) {
      FoundBefore(b, o, p, "", m, |StripEnd(text)| - |Stem(m)|);
    }
  }

  lemma EmptyLacks(m: string)
    requires Marker(m)
    ensures m != "" && Lacks("", m)
  {
  }

  lemma LacksCompleted(text: string, m: string)
    requires Marker(m) && Lacks(text, m)
    ensures if EndsWith(StripEnd(text), Stem(m)) then OccursAt(StripEnd(text) + "\n\n", m, |StripEnd(text)| - |Stem(m)|)
            else Lacks(StripEnd(text) + "\n\n", m)
  {
    hide OccursAt, StripEnd;
    if EndsWith(StripEnd(text), Stem(m)) {
      Completed(text, m, |StripEnd(text)| - |Stem(m)|);
    } else {
      forall i: nat ensures !OccursAt(StripEnd(text) + "\n\n", m, i) {
        Completed(text, m, i);
      }
    }
  }

  /** A marker in front of a section is one too many. */
  lemma FoundBefore(d: string, n: Runtime, q: Profile, tail: string, m: string, i: nat)
    requires RuntimeOk(n) && (m == n.begin || m == n.end) && OccursAt(d, m, i)
    ensures !Single(d + Section(n, q) + tail, m)
  {
    hide OccursAt, Marker, Single;
    MarkerPlaces(d, n, q, tail);
    OccursInside(d, m, i);
    Around(d, n, q, tail, m, i);
    TwiceNotSingle(d + Section(n, q) + tail, m, i, if m == n.begin then |d| else |d| + |n.begin| + |n.body(q)|);
  }

  /** Appending to a text free of markers: one section, or one marker too many. */
  lemma Appended(o: Runtime, text: string, p: Profile)
    requires RuntimeOk(o) && Lacks(text, o.begin) && Lacks(text, o.end)
    ensures var b, u := StripEnd(text) + "\n\n", StripEnd(text) + "\n\n" + Section(o, p);
            && (Clean(o, text) ==> Owned(o, u, p, b, ""))
            && (!Clean(o, text) ==> Contains(u, o.begin) && (!Single(u, o.begin) || !Single(u, o.end)))
  {
    hide Lacks, StripEnd, Single, Contains, Section, EndsWith;
    AppendedMarker(o, text, p, o.begin);
    AppendedMarker(o, text, p, o.end);
    var b := StripEnd(text) + "\n\n";
    assert b + Section(o, p) == b + Section(o, p) + "";
  }

  lemma TwiceNotSingle(text: string, m: string, i: nat, j: nat)
    requires OccursAt(text, m, i) && OccursAt(text, m, j) && i + |m| <= j
    ensures !Single(text, m)
  {
  }

  // ----- The laws -----

  /** Splicing again: the second splice alone decides, and a repeated one changes nothing, exactly when the text was
      owned before or the first splice completed no stray marker. Otherwise every later splice is refused. */
  lemma ExtendTwice(o: Runtime, text: string, p: Profile, q: Profile)
    requires RuntimeOk(o) && Extend(o, text, p).Some?
    ensures Extend(o, Extend(o, text, p).value, q) ==
            if Contains(text, o.begin) || Clean(o, text) then Extend(o, text, q) else None
  {
    hide OccursAt, Marker, Single, Clean, StripEnd, Find;
    var u := Extend(o, text, p).value;
    if Contains(text, o.begin) {
      var p0, b, a := AcceptedIsOwned(o, text, p);
      ExtendOwned(o, text, p0, b, a, p);
      ExtendOwned(o, text, p0, b, a, q);
      assert Owned(o, u, p, b, a);
      ExtendOwned(o, u, p, b, a, q);
    } else {
      LacksIffAbsent(text, o.begin);
      LacksIffAbsent(text, o.end);
      Appended(o, text, p);
      SectionLong(o);
      if Clean(o, text) {
        var b := StripEnd(text) + "\n\n";
        ExtendOwned(o, u, p, b, "", q);
        assert b + Section(o, q) + "" == b + Section(o, q);
      }
    }
  }

  /** What a splice leaves: one section, the rest of an owned text untouched, and otherwise the text without its
      trailing white space in front. */
  lemma Spliced(o: Runtime, text: string, p: Profile) returns (b: string, a: string)
    requires RuntimeOk(o) && Extend(o, text, p).Some? && (Contains(text, o.begin) || Clean(o, text))
    ensures Owned(o, Extend(o, text, p).value, p, b, a)
    ensures if Contains(text, o.begin) then exists p0 :: text == b + Section(o, p0) + a
            else b == StripEnd(text) + "\n\n" && a == ""
  {
    hide OccursAt, Marker, Single, Clean, StripEnd, Find;
    if Contains(text, o.begin) {
      var p0;
      p0, b, a := AcceptedIsOwned(o, text, p);
      ExtendOwned(o, text, p0, b, a, p);
    } else {
      LacksIffAbsent(text, o.begin);
      LacksIffAbsent(text, o.end);
      Appended(o, text, p);
      b, a := StripEnd(text) + "\n\n", "";
    }
  }

  /** The ClickHouse variant is the same splice with a single profile. */
  lemma FixedIsExtend(o: Runtime, text: string)
    requires RuntimeOk(o) && o.body(Plain) == o.body(Shared)
    ensures ExtendFixed(o, text) == Extend(o, text, Plain)
  {
    hide OccursAt, Marker, StripEnd;
    if Contains(text, o.begin) && Single(text, o.begin) && Single(text, o.end) {
      if Extend(o, text, Plain).Some? {
        var p, b, a := AcceptedIsOwned(o, text, Plain);
        ExtendOwned(o, text, p, b, a, Plain);
        assert Section(o, p) == Section(o, Plain) by {
          assert p == Plain || p == Shared;
        }
        SectionAt(b, Section(o, Plain), a);
      } else if Contains(text, Section(o, Plain)) {
        var k := Find(text, Section(o, Plain), 0).value;
        SectionParts(o, text, k);
      }
    }
  }

  lemma SectionAt(b: string, s: string, a: string)
    requires s != ""
    ensures Contains(b + s + a, s)
  {
    assert (b + s + a)[|b|..|b| + |s|] == s;
    assert OccursAt(b + s + a, s, |b|);
  }

  /** A section somewhere, with both markers single, is the stretch from the one marker to the other. */
  lemma SectionParts(o: Runtime, text: string, k: nat)
    requires RuntimeOk(o) && OccursAt(text, Section(o, Plain), k) && Single(text, o.begin) && Single(text, o.end)
    ensures var start, e := Find(text, o.begin, 0).value, Find(text, o.end, 0).value;
            start == k && e + |o.end| == k + |Section(o, Plain)| && text[start..e + |o.end|] == Section(o, Plain)
  {
    hide OccursAt, Marker, Single, Find;
    var s, e := Section(o, Plain), |o.begin| + |o.body(Plain)|;
    assert "" + s + "" == s;
    Around("", o, Plain, "", o.begin, 0);
    Around("", o, Plain, "", o.end, e);
    OccursInPart(text, s, k, o.begin, 0);
    OccursInPart(text, s, k, o.end, e);
    OnlyOne(text, o.begin, k);
    OnlyOne(text, o.end, k + e);
    OccursSlice(text, s, k);
  }

  lemma OccursSlice(text: string, s: string, k: nat)
    requires OccursAt(text, s, k)
    ensures k + |s| <= |text| && text[k..k + |s|] == s
  {
  }

  lemma OccursInPart(text: string, s: string, k: nat, m: string, i: nat)
    requires OccursAt(text, s, k) && OccursAt(s, m, i)
    ensures OccursAt(text, m, k + i)
  {
    forall j | 0 <= j < |m| ensures text[k + i + j] == m[j] {
      CharAt(text, s, k, i + j);
      CharAt(s, m, i, j);
    }
  }

  lemma OnlyOne(text: string, m: string, k: nat)
    requires Marker(m) && Single(text, m) && OccursAt(text, m, k)
    ensures Find(text, m, 0) == Some(k)
  {
    var first := Find(text, m, 0).value;
    if first < k < first + |m| {
      CharAt(text, m, k, 0);
      CharAt(text, m, first, k - first);
    }
  }

  // ----- Two runtimes in one template -----

  ghost predicate Different(o: Runtime, n: Runtime) {
    RuntimeOk(o) && RuntimeOk(n) && {o.begin, o.end} !! {n.begin, n.end}
  }

  /** Replacing the section of one runtime neither makes nor hides a marker of another. */
  lemma MiddleSwapped(x: string, o: Runtime, p: Profile, q: Profile, y: string, m: string)
    requires RuntimeOk(o) && Marker(m) && m != o.begin && m != o.end && Lacks(x + Section(o, p) + y, m)
    ensures Lacks(x + Section(o, q) + y, m)
  {
    hide OccursAt, Marker;
    forall i: nat ensures !OccursAt(x + Section(o, q) + y, m, i) {
      Around(x, o, q, y, m, i);
      Around(x, o, p, y, m, i);
      if i >= |x| + |Section(o, q)| {
        Around(x, o, p, y, m, i - |Section(o, q)| + |Section(o, p)|);
      }
    }
  }

  /** Two sections of different runtimes lie apart. */
  lemma SectionsApart(o: Runtime, p: Profile, b: string, a: string, n: Runtime, q: Profile, d: string, c: string)
    requires Different(o, n) && b + Section(o, p) + a == d + Section(n, q) + c
    ensures |d| + |Section(n, q)| <= |b| || |b| + |Section(o, p)| <= |d|
  {
    hide OccursAt, Marker;
    var text := b + Section(o, p) + a;
    var e := |d| + |n.begin| + |n.body(q)|;
    Around(d, n, q, c, n.begin, |d|);
    Around(d, n, q, c, n.end, e);
    Around(b, o, p, a, n.begin, |d|);
    Around(b, o, p, a, n.end, e);
    OccursInside(b, n.begin, |d|);
    OccursInside(b, n.end, e);
    SectionLong(n);
    HeadHash(o.begin, "");
    assert text[|b|] == o.begin[0];
    if |d| + |n.begin| <= |b| < e {
      BodyHash(d, n, q, c, |b|);
    }
  }

  lemma BodyHash(d: string, n: Runtime, q: Profile, c: string, i: nat)
    requires RuntimeOk(n) && |d| + |n.begin| <= i < |d| + |n.begin| + |n.body(q)|
    ensures i < |d + Section(n, q) + c| && (d + Section(n, q) + c)[i] != '#'
  {
    var k := i - |d| - |n.begin|;
    assert (d + Section(n, q) + c)[i] == n.body(q)[k] && n.body(q)[k] in n.body(q);
  }

  lemma {:induction false} StripUnique(text: string, r: string)
    requires r <= text && (r != "" ==> !White(r[|r| - 1])) && forall i :: |r| <= i < |text| ==> White(text[i])
    ensures StripEnd(text) == r
    decreases |text|
  {
    if |r| < |text| {
      StripUnique(text[..|text| - 1], r);
    }
  }

  /** Stripping behind an owned section: never further than the line break that ends it. */
  lemma StripBehind(x: string, m: string, a: string)
    requires Marker(m)
    ensures StripEnd(x + m + a) == if StripEnd(a) == "" then x + Stem(m) else x + m + StripEnd(a)
  {
    var text, t := x + m + a, StripEnd(a);
    if t == "" {
      assert x + Stem(m) <= text;
      StripUnique(text, x + Stem(m));
    } else {
      assert x + m + t <= text;
      StripUnique(text, x + m + t);
    }
  }

  /** Splicing one runtime's section into a template that holds another's keeps that other section verbatim, unless
      the append completes a stray marker of the other runtime behind its section: then, and only then, the other
      runtime's own splice is refused from now on. */
  lemma KeepsOther(o: Runtime, p: Profile, n: Runtime, q: Profile, text: string, d: string, c: string, again: Profile)
    requires Different(o, n) && Owned(n, text, q, d, c) && Extend(o, text, p).Some?
    ensures var u := Extend(o, text, p).value;
            if Contains(text, o.begin) || Clean(n, c) then exists d', c' :: Owned(n, u, q, d', c')
            else Extend(n, u, again).None?
  {
    hide OccursAt, Marker, Single, Find, StripEnd, Clean;
    if Contains(text, o.begin) {
      var d', c' := KeepsOtherInPlace(o, p, n, q, text, d, c);
    } else {
      SectionLong(n);
      KeepsOtherBehind(o, p, n, q, text, d, c);
      if Clean(n, c) {
        assert exists c' :: Owned(n, StripEnd(text) + "\n\n" + Section(o, p), q, d, c');
      }
    }
  }

  lemma LaterPart(b: string, r: string, a: string, d: string, s: string, c: string)
    requires b + r + a == d + s + c && |d| + |s| <= |b|
    ensures b == d + s + b[|d| + |s|..] && c == b[|d| + |s|..] + r + a
  {
    var t := d + s + c;
    assert b == (b + r + a)[..|b|] && r + a == (b + r + a)[|b|..];
    assert d + s == t[..|d| + |s|] && c == t[|d| + |s|..];
    assert t[..|b|] == t[..|d| + |s|] + t[|d| + |s|..|b|];
    assert t[|d| + |s|..] == t[|d| + |s|..|b|] + t[|b|..];
    assert t[|d| + |s|..|b|] == b[|d| + |s|..];
    assert b[|d| + |s|..] + (r + a) == b[|d| + |s|..] + r + a;
  }

  lemma KeepsOtherInPlace(o: Runtime, p: Profile, n: Runtime, q: Profile, text: string, d: string, c: string)
    returns (d': string, c': string)
    requires Different(o, n) && Owned(n, text, q, d, c) && Extend(o, text, p).Some? && Contains(text, o.begin)
    ensures Owned(n, Extend(o, text, p).value, q, d', c')
  {
    hide OccursAt, Marker, Single, Find, StripEnd, Clean, Extend, Lacks;
    var p0, b, a := AcceptedIsOwned(o, text, p);
    ExtendOwned(o, text, p0, b, a, p);
    SectionsApart(o, p0, b, a, n, q, d, c);
    var s, r := Section(n, q), Section(o, p0);
    if |d| + |s| <= |b| {
      var x := b[|d| + |s|..];
      LaterPart(b, r, a, d, s, c);
      d', c' := d, x + Section(o, p) + a;
      MiddleSwapped(x, o, p0, p, a, n.begin);
      MiddleSwapped(x, o, p0, p, a, n.end);
    } else {
      var y := d[|b| + |r|..];
      LaterPart(d, s, c, b, r, a);
      d', c' := b + Section(o, p) + y, c;
      MiddleSwapped(b, o, p0, p, y, n.begin);
      MiddleSwapped(b, o, p0, p, y, n.end);
    }
    assert Extend(o, text, p).value == d' + s + c';
  }

  lemma KeepsOtherBehind(o: Runtime, p: Profile, n: Runtime, q: Profile, text: string, d: string, c: string)
    requires Different(o, n) && Owned(n, text, q, d, c)
    ensures var u := StripEnd(text) + "\n\n" + Section(o, p);
            if Clean(n, c) then exists c' :: Owned(n, u, q, d, c')
            else Contains(u, n.begin) && (!Single(u, n.begin) || !Single(u, n.end))
  {
    hide OccursAt, Marker, Single, Find, StripEnd, Lacks;
    var front := BehindText(o, p, n, q, text, d, c);
    SectionLong(n);
    if Clean(n, c) {
      FrontLacks(front, n.begin, c, o, p);
      FrontLacks(front, n.end, c, o, p);
      assert Owned(n, StripEnd(text) + "\n\n" + Section(o, p), q, d, front + Section(o, p));
    } else {
      StrayTwice(n, q, d, front, c, Section(o, p));
    }
  }

  /** What stands between the other section and the new one. */
  ghost predicate IsFront(front: string, c: string) {
    front == if StripEnd(c) == "" then "\n" else StripEnd(c) + "\n\n"
  }

  lemma BehindText(o: Runtime, p: Profile, n: Runtime, q: Profile, text: string, d: string, c: string)
    returns (front: string)
    requires RuntimeOk(n) && text == d + Section(n, q) + c
    ensures StripEnd(text) + "\n\n" + Section(o, p) == d + Section(n, q) + (front + Section(o, p)) && IsFront(front, c)
  {
    hide StripEnd, Marker, Section;
    var head := d + n.begin + n.body(q);
    SectionEnds(d, n, q);
    StripBehind(head, n.end, c);
    StemBack(n.end);
    front := if StripEnd(c) == "" then "\n" else StripEnd(c) + "\n\n";
    LineBreaks(head, Stem(n.end), StripEnd(c), Section(o, p));
  }

  lemma SectionEnds(d: string, n: Runtime, q: Profile)
    ensures d + Section(n, q) == d + n.begin + n.body(q) + n.end
  {
  }

  lemma LineBreaks(head: string, stem: string, rest: string, tail: string)
    ensures head + stem + "\n\n" + tail == head + (stem + "\n") + ("\n" + tail)
    ensures head + (stem + "\n") + rest + "\n\n" + tail == head + (stem + "\n") + (rest + "\n\n" + tail)
  {
    assert "\n\n" == "\n" + "\n";
  }

  lemma FrontLacks(front: string, m: string, c: string, o: Runtime, p: Profile)
    requires RuntimeOk(o) && Marker(m) && m != o.begin && m != o.end && IsFront(front, c) && Lacks(c, m)
    requires !EndsWith(StripEnd(c), Stem(m))
    ensures Lacks(front + Section(o, p), m)
  {
    hide OccursAt, Marker, StripEnd;
    assert front + Section(o, p) + "" == front + Section(o, p);
    forall i: nat ensures !OccursAt(front + Section(o, p), m, i) {
      Around(front, o, p, "", m, i);
      Completed(c, m, i);
      OccursNot("", m, i - if i >= |front| + |Section(o, p)| then |front| + |Section(o, p)| else i);
      OccursNot("\n", m, i);
    }
  }

  /** Both markers of a section are found at their places. */
  lemma MarkerPlaces(d: string, n: Runtime, q: Profile, tail: string)
    requires RuntimeOk(n)
    ensures var u := d + Section(n, q) + tail;
            OccursAt(u, n.begin, |d|) && OccursAt(u, n.end, |d| + |n.begin| + |n.body(q)|)
            && Contains(u, n.begin) && Contains(u, n.end)
  {
    hide OccursAt, Marker;
    Around(d, n, q, tail, n.begin, |d|);
    Around(d, n, q, tail, n.end, |d| + |n.begin| + |n.body(q)|);
    LacksIffAbsent(d + Section(n, q) + tail, n.begin);
    LacksIffAbsent(d + Section(n, q) + tail, n.end);
  }

  /** A marker behind a section is one too many. */
  lemma FoundTwice(d: string, n: Runtime, q: Profile, tail: string, m: string, i: nat)
    requires RuntimeOk(n) && (m == n.begin || m == n.end) && OccursAt(tail, m, i)
    ensures !Single(d + Section(n, q) + tail, m)
  {
    hide OccursAt, Marker, Single;
    MarkerPlaces(d, n, q, tail);
    SectionLong(n);
    var k := |d| + |Section(n, q)| + i;
    Around(d, n, q, tail, m, k);
    TwiceNotSingle(d + Section(n, q) + tail, m, if m == n.begin then |d| else |d| + |n.begin| + |n.body(q)|, k);
  }

  lemma StrayOccurs(front: string, rest: string, c: string, m: string)
    requires Marker(m) && IsFront(front, c) && Lacks(c, m) && EndsWith(StripEnd(c), Stem(m))
    ensures OccursAt(front + rest, m, |StripEnd(c)| - |Stem(m)|)
  {
    hide OccursAt, StripEnd;
    var i := |StripEnd(c)| - |Stem(m)|;
    StemNotEmpty(m);
    Completed(c, m, i);
    OccursWithin(front, rest, m, i);
    OccursInside(front, m, i);
  }

  /** A stem behind the section becomes a second marker. */
  lemma StrayTwice(n: Runtime, q: Profile, d: string, front: string, c: string, rest: string)
    requires RuntimeOk(n) && IsFront(front, c) && Lacks(c, n.begin) && Lacks(c, n.end) && !Clean(n, c)
    ensures var u := d + Section(n, q) + (front + rest);
            Contains(u, n.begin) && (!Single(u, n.begin) || !Single(u, n.end))
  {
    hide OccursAt, Single, StripEnd, IsFront, Section, Contains;
    MarkerPlaces(d, n, q, front + rest);
    if EndsWith(StripEnd(c), Stem(n.begin)) {
      StrayOccurs(front, rest, c, n.begin);
      FoundTwice(d, n, q, front + rest, n.begin, |StripEnd(c)| - |Stem(n.begin)|);
    } else {
      StrayOccurs(front, rest, c, n.end);
      FoundTwice(d, n, q, front + rest, n.end, |StripEnd(c)| - |Stem(n.end)|);
    }
  }

  lemma StemNotEmpty(m: string)
    requires Marker(m)
    ensures Stem(m) != ""
  {
  }

  lemma StemBack(m: string)
    requires Marker(m)
    ensures Stem(m) + "\n" == m
  {
  }

  // ----- A section word for word -----

  /** The section stands in the text, whatever else does. */
  ghost predicate Holds(o: Runtime, p: Profile, text: string) {
    exists d: string, c: string :: text == Framed(d, o, p, c)
  }

  function Framed(d: string, o: Runtime, p: Profile, c: string): string {
    d + Section(o, p) + c
  }

  /** A splice puts its section in. */
  lemma ExtendHolds(o: Runtime, text: string, p: Profile)
    requires Extend(o, text, p).Some?
    ensures Holds(o, p, Extend(o, text, p).value)
  {
    hide Section, StripEnd;
    var u := Extend(o, text, p).value;
    if Contains(text, o.begin) {
      var start, stop := Find(text, o.begin, 0).value, Find(text, o.end, 0).value + |o.end|;
      assert u == Framed(text[..start], o, p, text[stop..]);
    } else {
      assert u == Framed(StripEnd(text) + "\n\n", o, p, "");
    }
  }

  /** Adding another runtime's section never touches one that stands in the text, not even its last line break. */
  lemma StaysVerbatim(o: Runtime, p: Profile, n: Runtime, text: string)
    requires RuntimeOk(o) && Holds(o, p, text) && ExtendFixed(n, text).Some?
    ensures Holds(o, p, ExtendFixed(n, text).value)
  {
    hide Section, StripEnd, Single, Marker;
    if !Contains(text, n.begin) {
      var d, c :| text == Framed(d, o, p, c);
      var front := BehindText(n, Plain, o, p, text, d, c);
      assert ExtendFixed(n, text).value == Framed(d, o, p, front + Section(n, Plain));
    }
  }
}
