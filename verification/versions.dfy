// `version_key`: the parser of release versions, and the order of its keys.

module Versions {
  import opened Base
  import opened Texts

  /** One dot-separated item of a prerelease. */
  datatype Part = Num(n: nat) | Word(text: string)

  /** The tuple that `version_key` returns. */
  datatype Key = Key(major: nat, minor: nat, patch: nat, stable: bool, parts: seq<Part>)

  const MAX_VERSION: nat := 64

  // ----- Parsing -----

  predicate PrereleaseChar(c: char) {
    Digit(c) || 'A' <= c <= 'Z' || 'a' <= c <= 'z' || c == '.' || c == '-'
  }

  predicate PrereleaseText(text: string) {
    text != "" && forall i :: 0 <= i < |text| ==> PrereleaseChar(text[i])
  }

  /** The position of the first dash, or the length. */
  function DashIn(text: string): (k: nat)
    ensures k <= |text| && '-' !in text[..k] && (k < |text| ==> text[k] == '-')
  {
    if text == "" || text[0] == '-' then 0 else
      var k := DashIn(text[1..]);
      assert text[..k + 1] == [text[0]] + text[1..][..k];
      k + 1
  }

  function CoreOf(text: string): Option<(nat, nat, nat)> {
    var parts := Split(text, '.');
    if |parts| == 3 && Numeral(parts[0]) && Numeral(parts[1]) && Numeral(parts[2])
    then Some((ToNat(parts[0]), ToNat(parts[1]), ToNat(parts[2]))) else None
  }

  function PartOf(text: string): Option<Part> {
    if text == "" || (AllDigits(text) && |text| > 1 && text[0] == '0') then None
    else if AllDigits(text) then Some(Num(ToNat(text))) else Some(Word(text))
  }

  function PartsOf(texts: seq<string>): Option<seq<Part>> {
    if texts == [] then Some([]) else
      var before, last := PartsOf(texts[..|texts| - 1]), PartOf(texts[|texts| - 1]);
      if before.None? || last.None? then None else Some(before.value + [last.value])
  }

  /** What `version_key` accepts, and the key it gives; None is its ValueError. */
  function KeyOf(text: string): Option<Key> {
    var k := DashIn(text);
    var core := CoreOf(text[..k]);
    if |text| > MAX_VERSION || core.None? then None
    else if k == |text| then Some(Key(core.value.0, core.value.1, core.value.2, true, []))
    else if !PrereleaseText(text[k + 1..]) then None
    else
      match PartsOf(Split(text[k + 1..], '.'))
      case None => None
      case Some(parts) => Some(Key(core.value.0, core.value.1, core.value.2, false, parts))
  }

  /** `version_key`, with its loop over the items. */
  method VersionKey(text: string) returns (key: Option<Key>)
    ensures key == KeyOf(text)
  {
    var k := DashIn(text);
    var core := CoreOf(text[..k]);
    if core == None || (k < |text| && !PrereleaseText(text[k + 1..])) || |text| > MAX_VERSION {
      return None;
    }
    if k == |text| {
      return Some(Key(core.value.0, core.value.1, core.value.2, true, []));
    }
    var texts := Split(text[k + 1..], '.');
    var parts := [];
    for i := 0 to |texts|
      invariant PartsOf(texts[..i]) == Some(parts)
    {
      assert texts[..i + 1][..i] == texts[..i];
      var part := PartOf(texts[i]);
      if part == None {
        PartsStop(texts, i + 1, |texts|);
        assert texts[..|texts|] == texts;
        return None;
      }
      parts := parts + [part.value];
    }
    assert texts[..|texts|] == texts;
    key := Some(Key(core.value.0, core.value.1, core.value.2, false, parts));
  }

  lemma {:induction false} PartsStop(texts: seq<string>, i: nat, k: nat)
    requires i <= k <= |texts| && PartsOf(texts[..i]).None?
    ensures PartsOf(texts[..k]).None?
  {
    if i < k {
      PartsStop(texts, i, k - 1);
      assert texts[..k][..k - 1] == texts[..k - 1];
    }
  }

  // ----- Printing, and the round trips -----

  predicate PartOk(part: Part) {
    part.Word? ==> PrereleaseText(part.text) && '.' !in part.text && !AllDigits(part.text)
  }

  /** A word: letters, digits and hyphens, not all of them digits. */
  lemma WordMeaning(s: string)
    ensures PartOk(Word(s)) <==>
            && s != ""
            && (forall i :: 0 <= i < |s| ==>
                  'A' <= s[i] <= 'Z' || 'a' <= s[i] <= 'z' || '0' <= s[i] <= '9' || s[i] == '-')
            && exists i :: 0 <= i < |s| && !('0' <= s[i] <= '9')
  {
    assert forall i :: 0 <= i < |s| ==> s[i] in s;
  }

  ghost predicate KeyOk(key: Key) {
    (key.stable <==> key.parts == []) && forall i :: 0 <= i < |key.parts| ==> PartOk(key.parts[i])
  }

  function PartText(part: Part): string {
    match part
    case Num(n) => FromNat(n)
    case Word(text) => text
  }

  function PartTexts(parts: seq<Part>): (texts: seq<string>)
    ensures |texts| == |parts|
  {
    seq(|parts|, i requires 0 <= i < |parts| => PartText(parts[i]))
  }

  function CoreText(major: nat, minor: nat, patch: nat): string {
    Join([FromNat(major), FromNat(minor), FromNat(patch)], '.')
  }

  function Render(key: Key): string {
    CoreText(key.major, key.minor, key.patch) + if key.parts == [] then "" else "-" + Join(PartTexts(key.parts), '.')
  }

  lemma {:induction false} NoneOf(text: string, c: char)
    requires AllDigits(text) && !Digit(c)
    ensures c !in text
  {
  }

  lemma CoreRound(major: nat, minor: nat, patch: nat)
    ensures CoreOf(CoreText(major, minor, patch)) == Some((major, minor, patch))
            && '-' !in CoreText(major, minor, patch)
  {
    FromNatMeaning(major);
    FromNatMeaning(minor);
    FromNatMeaning(patch);
    var parts := [FromNat(major), FromNat(minor), FromNat(patch)];
    forall part | part in parts ensures '.' !in part && '-' !in part {
      NoneOf(part, '.');
      NoneOf(part, '-');
    }
    SplitJoin(parts, '.');
    JoinedLacks(parts, '.', '-');
  }

  lemma {:induction false} JoinedLacks(parts: seq<string>, sep: char, c: char)
    requires parts != [] && c != sep && forall part :: part in parts ==> c !in part
    ensures c !in Join(parts, sep)
  {
    if |parts| > 1 {
      JoinedLacks(parts[1..], sep, c);
    }
  }

  lemma CoreText2(text: string)
    requires CoreOf(text).Some?
    ensures var c := CoreOf(text).value; CoreText(c.0, c.1, c.2) == text
  {
    var parts := Split(text, '.');
    ToNatMeaning(parts[0]);
    ToNatMeaning(parts[1]);
    ToNatMeaning(parts[2]);
    JoinSplit(text, '.');
    assert parts == [parts[0], parts[1], parts[2]];
  }

  lemma PartRound(part: Part)
    requires PartOk(part)
    ensures PartOf(PartText(part)) == Some(part) && '.' !in PartText(part) && PrereleaseText(PartText(part))
  {
    if part.Num? {
      FromNatMeaning(part.n);
      NoneOf(FromNat(part.n), '.');
    }
  }

  lemma PartBack(text: string)
    requires PartOf(text).Some? && '.' !in text && (forall i :: 0 <= i < |text| ==> PrereleaseChar(text[i]))
    ensures PartOk(PartOf(text).value) && PartText(PartOf(text).value) == text
  {
    if AllDigits(text) {
      ToNatMeaning(text);
    }
  }

  lemma {:induction false} PartsRound(parts: seq<Part>)
    requires forall i :: 0 <= i < |parts| ==> PartOk(parts[i])
    ensures PartsOf(PartTexts(parts)) == Some(parts)
    ensures forall text :: text in PartTexts(parts) ==> '.' !in text && PrereleaseText(text)
  {
    hide PartOk, PartOf, PartText, PrereleaseText;
    if parts != [] {
      var k := |parts| - 1;
      PartsRound(parts[..k]);
      PartRound(parts[k]);
      assert PartTexts(parts)[..k] == PartTexts(parts[..k]);
      assert parts == parts[..k] + [parts[k]];
      assert PartTexts(parts) == PartTexts(parts[..k]) + [PartText(parts[k])];
    }
  }

  lemma {:induction false} PartsBack(texts: seq<string>)
    requires PartsOf(texts).Some?
    requires forall text :: text in texts ==> '.' !in text && forall i :: 0 <= i < |text| ==> PrereleaseChar(text[i])
    ensures PartTexts(PartsOf(texts).value) == texts
    ensures forall i :: 0 <= i < |PartsOf(texts).value| ==> PartOk(PartsOf(texts).value[i])
  {
    hide PartOf, PartText, PartOk;
    if texts != [] {
      var k := |texts| - 1;
      PartsBack(texts[..k]);
      PartBack(texts[k]);
      assert texts == texts[..k] + [texts[k]];
    }
  }

  lemma {:induction false} JoinedChars(parts: seq<string>)
    requires parts != [] && forall part :: part in parts ==> PrereleaseText(part)
    ensures PrereleaseText(Join(parts, '.'))
  {
    if |parts| > 1 {
      JoinedChars(parts[1..]);
      assert parts[0] in parts;
    }
  }

  lemma {:induction false} SplitChars(text: string)
    requires forall i :: 0 <= i < |text| ==> PrereleaseChar(text[i])
    ensures forall part :: part in Split(text, '.') ==> forall i :: 0 <= i < |part| ==> PrereleaseChar(part[i])
  {
    if text != "" {
      SplitChars(text[1..]);
      var rest := Split(text[1..], '.');
      assert rest[0] in rest;
    }
  }

  lemma {:induction false} DashAfter(core: string, rest: string)
    requires '-' !in core && (rest == "" || rest[0] == '-')
    ensures DashIn(core + rest) == |core|
  {
    if core == "" {
      assert core + rest == rest;
    } else {
      assert core[0] in core && (core + rest)[1..] == core[1..] + rest;
      DashAfter(core[1..], rest);
    }
  }

  /** Parsing what is printed gives the key back. */
  lemma KeyOfRender(key: Key)
    requires KeyOk(key) && |Render(key)| <= MAX_VERSION
    ensures KeyOf(Render(key)) == Some(key)
  {
    hide CoreOf, CoreText, PartsOf;
    var core := CoreText(key.major, key.minor, key.patch);
    CoreRound(key.major, key.minor, key.patch);
    if key.parts == [] {
      DashAfter(core, "");
      assert core + "" == core && core[..|core|] == core;
    } else {
      PartsRound(key.parts);
      var pre := Join(PartTexts(key.parts), '.');
      JoinedChars(PartTexts(key.parts));
      SplitJoin(PartTexts(key.parts), '.');
      DashAfter(core, "-" + pre);
      var text := Render(key);
      assert text[..|core|] == core && text[|core| + 1..] == pre;
    }
  }

  lemma PrereleaseBack(pre: string)
    requires PrereleaseText(pre) && PartsOf(Split(pre, '.')).Some?
    ensures var parts := PartsOf(Split(pre, '.')).value;
            parts != [] && Join(PartTexts(parts), '.') == pre && forall i :: 0 <= i < |parts| ==> PartOk(parts[i])
  {
    JoinSplit(pre, '.');
    SplitChars(pre);
    PartsBack(Split(pre, '.'));
  }

  /** Only the canonical text of a key is accepted. */
  lemma RenderKeyOf(text: string)
    requires KeyOf(text).Some?
    ensures KeyOk(KeyOf(text).value) && Render(KeyOf(text).value) == text
  {
    hide CoreOf, CoreText, PartsOf, PrereleaseText, Split, Join, PartTexts, PartOk, DashIn;
    var k := DashIn(text);
    CoreText2(text[..k]);
    if k < |text| {
      var pre := text[k + 1..];
      PrereleaseBack(pre);
      assert text == text[..k] + "-" + pre;
    } else {
      assert text[..k] == text;
    }
  }

  // ----- The order -----

  predicate CharLess(c: char, d: char) {
    c < d
  }

  predicate LessPart(a: Part, b: Part) {
    match (a, b)
    case (Num(m), Num(n)) => m < n
    case (Num(_), Word(_)) => true
    case (Word(_), Num(_)) => false
    case (Word(s), Word(t)) => Lex(CharLess, s, t)
  }

  /** Python's comparison of two keys. */
  predicate Less(a: Key, b: Key) {
    if a.major != b.major then a.major < b.major
    else if a.minor != b.minor then a.minor < b.minor
    else if a.patch != b.patch then a.patch < b.patch
    else if a.stable != b.stable then b.stable
    else Lex(LessPart, a.parts, b.parts)
  }

  /** Precedence of prerelease identifiers, section 11.4 of Semantic Versioning 2.0.0: numbers numerically, words in
      ASCII order, and every number before every word. */
  ghost predicate PartPrecedes(a: Part, b: Part) {
    if a.Num? && b.Num? then a.n < b.n
    else if a.Word? && b.Word? then WordPrecedes(a.text, b.text)
    else a.Num?
  }

  /** ASCII order: the first differing character decides by its code, and a beginning precedes its continuation. */
  ghost predicate WordPrecedes(s: string, t: string) {
    exists i: nat :: i <= |s| && i <= |t| && s[..i] == t[..i] && i < |t| &&
      (i == |s| || s[i] as int < t[i] as int)
  }

  lemma WordsAgree(s: string, t: string)
    ensures Lex(CharLess, s, t) <==> WordPrecedes(s, t)
  {
    LexMeaning(CharLess, s, t);
    if i: nat :| DiffersAt(CharLess, s, t, i) {
      assert s[..i] == t[..i];
    }
    if i: nat :| i <= |s| && i <= |t| && s[..i] == t[..i] && i < |t| && (i == |s| || s[i] as int < t[i] as int) {
      assert forall j :: 0 <= j < i ==> s[j] == s[..i][j] == t[..i][j] == t[j];
      assert DiffersAt(CharLess, s, t, i);
    }
  }

  function Core(k: Key): seq<nat> {
    [k.major, k.minor, k.patch]
  }

  predicate NatLess(m: nat, n: nat) {
    m < n
  }

  /** Section 11 of Semantic Versioning 2.0.0: the first difference among major, minor and patch decides (11.2); a
      prerelease precedes its release (11.3); else the first difference among the identifiers, a longer list following
      its own beginning (11.4). */
  ghost predicate Precedes(a: Key, b: Key) {
    || Before(NatLess, Core(a), Core(b))
    || (Core(a) == Core(b) && a.parts != [] && b.parts == [])
    || (Core(a) == Core(b) && a.parts != [] && b.parts != [] && Before(PartPrecedes, a.parts, b.parts))
  }

  lemma PartsAgree(a: Part, b: Part)
    ensures LessPart(a, b) <==> PartPrecedes(a, b)
  {
    if a.Word? && b.Word? {
      WordsAgree(a.text, b.text);
    }
  }

  lemma CoreAgrees(a: Key, b: Key)
    ensures Before(NatLess, Core(a), Core(b)) <==>
            a.major < b.major
              || (a.major == b.major && (a.minor < b.minor || (a.minor == b.minor && a.patch < b.patch)))
  {
    LexMeaning(NatLess, Core(a), Core(b));
    assert Core(a)[1..] == [a.minor, a.patch] && Core(b)[1..] == [b.minor, b.patch];
    assert [a.minor, a.patch][1..] == [a.patch] && [b.minor, b.patch][1..] == [b.patch];
    assert Lex(NatLess, [a.patch], [b.patch]) <==> a.patch < b.patch;
    assert Lex(NatLess, [a.minor, a.patch], [b.minor, b.patch]) <==>
      a.minor < b.minor || (a.minor == b.minor && a.patch < b.patch);
  }

  /** The tuple comparison is precedence as the standard defines it. */
  lemma LessIsPrecedence(a: Key, b: Key)
    requires KeyOk(a) && KeyOk(b)
    ensures Less(a, b) <==> Precedes(a, b)
  {
    hide Before;
    CoreAgrees(a, b);
    assert Core(a) == Core(b) <==> a.major == b.major && a.minor == b.minor && a.patch == b.patch by {
      assert Core(a)[0] == a.major && Core(a)[1] == a.minor && Core(a)[2] == a.patch;
      assert Core(b)[0] == b.major && Core(b)[1] == b.minor && Core(b)[2] == b.patch;
    }
    if a.parts != [] && b.parts != [] {
      PartListsAgree(a.parts, b.parts);
    }
  }

  lemma PartListsAgree(a: seq<Part>, b: seq<Part>)
    ensures Lex(LessPart, a, b) <==> Before(PartPrecedes, a, b)
  {
    LexMeaning(LessPart, a, b);
    forall i: nat ensures DiffersAt(LessPart, a, b, i) <==> DiffersAt(PartPrecedes, a, b, i) {
      if i < |a| && i < |b| {
        PartsAgree(a[i], b[i]);
      }
    }
  }

  lemma LessPartTotal()
    ensures StrictTotal(LessPart)
  {
    LexStrictTotal(CharLess);
    forall a, b, c | LessPart(a, b) && LessPart(b, c) ensures LessPart(a, c) {
      if a.Word? && b.Word? && c.Word? {
        LexTransitive(CharLess, a.text, b.text, c.text);
      }
    }
    forall a ensures !LessPart(a, a) {
      if a.Word? {
        LexIrreflexive(CharLess, a.text);
      }
    }
    forall a, b ensures a == b || LessPart(a, b) || LessPart(b, a) {
      if a.Word? && b.Word? {
        LexTotal(CharLess, a.text, b.text);
      }
    }
  }

  /** Version keys are strictly and totally ordered. */
  lemma LessTotal()
    ensures StrictTotal(Less)
  {
    LessPartTotal();
    hide Lex;
    forall a ensures !Less(a, a) {
      LexIrreflexive(LessPart, a.parts);
    }
    forall a, b, c | Less(a, b) && Less(b, c) ensures Less(a, c) {
      if Lex(LessPart, a.parts, b.parts) && Lex(LessPart, b.parts, c.parts) {
        LexTransitive(LessPart, a.parts, b.parts, c.parts);
      }
    }
    forall a, b ensures a == b || Less(a, b) || Less(b, a) {
      LexTotal(LessPart, a.parts, b.parts);
    }
  }

  /** Two accepted texts are the same, or one precedes the other, and never both. */
  lemma AcceptedOrdered(s: string, t: string)
    requires KeyOf(s).Some? && KeyOf(t).Some?
    ensures var a, b := KeyOf(s).value, KeyOf(t).value;
            && (s == t || Precedes(a, b) || Precedes(b, a))
            && !(Precedes(a, b) && Precedes(b, a)) && (s == t ==> !Precedes(a, b))
  {
    hide KeyOf, Less, Precedes, Render, KeyOk;
    var a, b := KeyOf(s).value, KeyOf(t).value;
    RenderKeyOf(s);
    RenderKeyOf(t);
    LessIsPrecedence(a, b);
    LessIsPrecedence(b, a);
    LessTotal();
  }
}
