// The rules of the restricted PostgreSQL URI, written over the fields of a connection and over the
// parts of a URL: what is allowed, and what is refused.

module UriRules {
  import opened Base
  import opened Texts
  import opened Encoding
  import opened Uris
  import opened UriRoundTrip

  // ----- What is allowed, over the fields of a connection -----

  ghost predicate Letter(c: char) {
    'A' <= c <= 'Z' || 'a' <= c <= 'z'
  }

  /** `name`, which is in lower case, in any mixture of cases. */
  ghost predicate Spells(s: string, name: string) {
    |s| == |name| && forall i :: 0 <= i < |s| ==>
      s[i] == name[i] || ('A' <= s[i] <= 'Z' && s[i] as int + 32 == name[i] as int)
  }

  ghost predicate Loopback(pl: Platform, host: string) {
    (pl.address(host).Some? && pl.address(host).value.loopback) || Spells(host, "localhost")
  }

  /** A dotted host name: letters, digits and inner hyphens, no label empty or longer than 63, 253 characters at most.
      */
  ghost predicate Dotted(host: string) {
    && 1 <= |host| <= 253
    && (forall i :: 0 <= i < |host| ==> Letter(host[i]) || '0' <= host[i] <= '9' || host[i] == '.' || host[i] == '-')
    && (forall part :: part in Split(host, '.') ==>
          1 <= |part| <= 63 && part[0] != '-' && part[|part| - 1] != '-')
  }

  ghost predicate Database(s: string) {
    && 1 <= |s| <= 63 && (Letter(s[0]) || s[0] == '_')
    && (forall i :: 0 <= i < |s| ==> Letter(s[i]) || '0' <= s[i] <= '9' || s[i] == '_' || s[i] == '-')
    && !Spells(s, "postgres") && !Spells(s, "template0") && !Spells(s, "template1")
  }

  ghost predicate Printing(s: string) {
    forall i :: 0 <= i < |s| ==> ' ' <= s[i] && s[i] != '\U{7f}'
  }

  /** Each rule for a connection, by itself. Local means loopback and external means not; external connections verify
      the server in full, and a CA file only goes with verification. */
  ghost predicate Allowed(pl: Platform, c: Connection) {
    && (c.mode == Local <==> Loopback(pl, c.host))
    && (c.mode == External ==> c.sslmode == "verify-full")
    && (c.sslmode == "disable" || c.sslmode == "allow" || c.sslmode == "prefer" || c.sslmode == "require"
        || c.sslmode == "verify-ca" || c.sslmode == "verify-full")
    && (c.caFile != "" ==>
          && (c.sslmode == "verify-ca" || c.sslmode == "verify-full") && c.caFile[0] == '/' && Printing(c.caFile)
          && pl.readable(c.caFile) && Characters(c.caFile) <= 4096)
    && (pl.address(c.host).Some? ==>
          !pl.address(c.host).value.unspecified && !pl.address(c.host).value.multicast && '%' !in c.host)
    && (pl.address(c.host).None? ==> Dotted(c.host))
    && Database(c.database) && 1 <= c.port <= 65535 && 1 <= c.timeout <= 30
    && 1 <= |c.username| <= 63 && Printing(c.username) && pl.utf8(c.username)
    && c.password != "" && Printing(c.password) && pl.utf8(c.password) && pl.utf8(c.caFile)
  }

  lemma SpellsIffLower(s: string, name: string)
    requires forall i :: 0 <= i < |name| ==> !('A' <= name[i] <= 'Z')
    ensures Lower(s) == name <==> Spells(s, name)
  {
    if Spells(s, name) {
      assert forall i :: 0 <= i < |s| ==> Lower(s)[i] == name[i];
    }
    if Lower(s) == name {
      assert forall i :: 0 <= i < |s| ==> Lower(s)[i] == LowerChar(s[i]);
    }
  }

  lemma LoopbackMeaning(pl: Platform, host: string)
    ensures Lower(host) == "localhost" <==> Spells(host, "localhost")
  {
    hide Lower, Spells;
    SpellsIffLower(host, "localhost");
  }

  lemma DottedMeaning(host: string)
    ensures HostName(host) <==> Dotted(host)
  {
    hide Split;
    var parts := Split(host, '.');
    if HostName(host) {
      forall part | part in parts ensures 1 <= |part| <= 63 && part[0] != '-' && part[|part| - 1] != '-' {
        var k :| 0 <= k < |parts| && parts[k] == part;
        assert Label(parts[k]);
      }
    }
    if Dotted(host) {
      EndsOfParts(host);
      assert forall k :: 0 <= k < |parts| ==> parts[k] in parts;
    }
  }

  /** A text whose parts are not empty and do not begin or end with a hyphen does neither itself. */
  lemma EndsOfParts(host: string)
    requires host != "" && forall part :: part in Split(host, '.') ==>
               part != "" && part[0] != '-' && part[|part| - 1] != '-'
    ensures host[0] != '.' && host[0] != '-' && host[|host| - 1] != '.' && host[|host| - 1] != '-'
  {
    var parts := Split(host, '.');
    JoinSplit(host, '.');
    hide Split;
    JoinEnds(parts);
    assert parts[0] in parts && parts[|parts| - 1] in parts;
    assert '.' !in parts[0] && '.' !in parts[|parts| - 1];
  }

  lemma {:induction false} JoinEnds(parts: seq<string>)
    requires parts != [] && parts[0] != "" && parts[|parts| - 1] != ""
    ensures var s, last := Join(parts, '.'), parts[|parts| - 1];
            s != "" && s[0] == parts[0][0] && s[|s| - 1] == last[|last| - 1]
  {
    if |parts| > 1 {
      if parts[1] != "" {
        JoinEnds(parts[1..]);
      } else {
        JoinLast(parts[1..]);
      }
      assert parts[1..][|parts| - 2] == parts[|parts| - 1];
    }
  }

  lemma {:induction false} JoinLast(parts: seq<string>)
    requires parts != [] && parts[|parts| - 1] != ""
    ensures var s, last := Join(parts, '.'), parts[|parts| - 1]; s != "" && s[|s| - 1] == last[|last| - 1]
  {
    if |parts| > 1 {
      JoinLast(parts[1..]);
      assert parts[1..][|parts| - 2] == parts[|parts| - 1];
    }
  }

  lemma DatabaseMeaning(s: string)
    ensures DatabaseName(s) <==> Database(s)
  {
    hide Lower, Spells;
    SpellsIffLower(s, "postgres");
    SpellsIffLower(s, "template0");
    SpellsIffLower(s, "template1");
  }

  lemma NoSlash(pl: Platform, host: string)
    requires PlatformOk(pl)
    ensures (if pl.address(host).Some? then '%' !in host else HostName(host)) ==> host == "" || host[0] != '/'
  {
    hide Split;
  }

  /** What the parser checks is exactly what is allowed. */
  lemma AcceptedIffAllowed(pl: Platform, c: Connection)
    requires PlatformOk(pl)
    ensures Accepted(pl, c) <==> Allowed(pl, c)
  {
    hide HostName, Dotted, DatabaseName, Database, Lower, Spells, Characters, Split, PlatformOk;
    LoopbackMeaning(pl, c.host);
    DottedMeaning(c.host);
    NoSlash(pl, c.host);
    DatabaseMeaning(c.database);
  }

  /** Every connection that parsing returns is allowed, and is of the mode that was asked for. */
  lemma ParsedIsAllowed(pl: Platform, url: string, mode: Mode, caArgument: string)
    requires Sound(pl) && pl.utf8(caArgument) && ParseUrl(pl, url, mode, caArgument).Some?
    ensures Allowed(pl, ParseUrl(pl, url, mode, caArgument).value)
            && ParseUrl(pl, url, mode, caArgument).value.mode == mode
  {
    hide ParseUrl, Accepted, Allowed;
    ParsedIsAccepted(pl, url, mode, caArgument);
    AcceptedIffAllowed(pl, ParseUrl(pl, url, mode, caArgument).value);
  }

  // ----- Where a connection comes from -----

  /** The value of a field of the connection: the parameter if it is there, else a fixed one. */
  ghost predicate From(query: map<string, string>, name: string, otherwise: string, value: string) {
    if name in query then value == query[name] else value == otherwise
  }

  /** The connection that the decoded parts of a URL stand for: each value has one place it comes from, and a value
      given twice is refused. */
  ghost predicate StandsFor(raw: Raw, caArgument: string, c: Connection) {
    && (raw.scheme == "postgres" || raw.scheme == "postgresql")
    && c.database == raw.database && raw.password == Some(c.password)
    && (raw.username.Some? ==> raw.username == Some(c.username) && "user" !in raw.query)
    && (raw.username.None? ==> From(raw.query, "user", "", c.username))
    && (raw.host.Some? ==> raw.host == Some(c.host) && "host" !in raw.query)
    && (raw.host.None? ==> From(raw.query, "host", "", c.host))
    && PortFrom(raw, c.port)
    && From(raw.query, "sslmode", "prefer", c.sslmode)
    && (exists timeout :: From(raw.query, "connect_timeout", "10", timeout) && Decimal(timeout, c.timeout)
          && 1 <= |timeout| <= 2)
    && (caArgument == "" ==> From(raw.query, "sslrootcert", "", c.caFile))
    && (caArgument != "" ==> c.caFile == caArgument)
    && (caArgument != "" && "sslrootcert" in raw.query ==>
          raw.query["sslrootcert"] == "" || raw.query["sslrootcert"] == caArgument)
  }

  ghost predicate Decimal(text: string, n: nat) {
    && text != "" && (forall i :: 0 <= i < |text| ==> '0' <= text[i] <= '9') && n == ToNat(text)
  }

  /** The checks let through exactly the allowed connection that the parts stand for. */
  lemma BuildMeaning(pl: Platform, mode: Mode, caArgument: string, raw: Raw, c: Connection)
    requires PlatformOk(pl) && RawText(pl, raw) && pl.utf8(caArgument)
    ensures Build(pl, mode, caArgument, raw) == Some(c) <==>
            c.mode == mode && StandsFor(raw, caArgument, c) && Allowed(pl, c)
  {
    hide Allowed, Accepted, Build, StandsFor, RawText;
    AcceptedIffAllowed(pl, c);
    if Build(pl, mode, caArgument, raw) == Some(c) {
      BuiltStands(pl, mode, caArgument, raw, c);
    }
    if c.mode == mode && StandsFor(raw, caArgument, c) && Accepted(pl, c) {
      StandsIsBuilt(pl, mode, caArgument, raw, c);
    }
  }

  lemma PortMeaning(raw: Raw, port: nat)
    ensures PortNumber(raw) == Some(port) <==> PortFrom(raw, port)
  {
    hide ToNat;
  }

  ghost predicate PortFrom(raw: Raw, port: nat) {
    && ("port" in raw.query ==> raw.host.None? && raw.port.None?)
    && (raw.port.Some? ==> raw.port == Some(port))
    && (raw.port.None? && "port" !in raw.query ==> port == 5432)
    && ("port" in raw.query ==> Decimal(raw.query["port"], port) && 1 <= |raw.query["port"]| <= 5)
  }

  lemma BuiltStands(pl: Platform, mode: Mode, caArgument: string, raw: Raw, c: Connection)
    requires PlatformOk(pl) && RawText(pl, raw) && pl.utf8(caArgument) && Build(pl, mode, caArgument, raw) == Some(c)
    ensures c.mode == mode && StandsFor(raw, caArgument, c) && Accepted(pl, c)
  {
    hide HostOk, SslOk, CaOk, DatabaseName, ToNat, PortNumber, Clear, PlatformOk;
    PortMeaning(raw, c.port);
    assert From(raw.query, "connect_timeout", "10", GetOr(raw.query, "connect_timeout", "10"));
  }

  lemma StandsIsBuilt(pl: Platform, mode: Mode, caArgument: string, raw: Raw, c: Connection)
    requires PlatformOk(pl) && c.mode == mode && StandsFor(raw, caArgument, c) && Accepted(pl, c)
    ensures Build(pl, mode, caArgument, raw) == Some(c)
  {
    hide HostOk, SslOk, CaOk, DatabaseName, ToNat, PortNumber, Clear, PlatformOk;
    PortMeaning(raw, c.port);
  }

  /** What decoding leaves: text without control characters. */
  ghost predicate RawText(pl: Platform, raw: Raw) {
    && (raw.username.Some? ==> Clear(raw.username.value) && pl.utf8(raw.username.value))
    && (raw.password.Some? ==> Clear(raw.password.value) && pl.utf8(raw.password.value))
    && (forall k :: k in raw.query ==> Clear(raw.query[k]) && pl.utf8(raw.query[k]))
    && pl.utf8("")
  }

  /** An external connection is refused unless the URL itself says `sslmode=verify-full`. */
  lemma ExternalNeedsVerifyFull(pl: Platform, url: string, caArgument: string)
    requires Sound(pl) && pl.utf8(caArgument) && ParseUrl(pl, url, External, caArgument).Some?
    ensures exists i, parts :: UrlSplit(url) == Some(parts) && 0 <= i < |Split(parts.query, '&')|
              && PairOf(pl, Split(parts.query, '&')[i]) == Some(("sslmode", "verify-full"))
  {
    hide UrlSplit, NetOf, Split, PairOf, PairsOf, Params, Build, Decode;
    var parts, raw := UrlSplit(url).value, RawOf(pl, url).value;
    var texts := Split(parts.query, '&');
    var pairs := PairsOf(pl, texts).value;
    SaysVerifyFull(pl, caArgument, raw);
    var k := ParamIsPair(pairs, "sslmode");
    PairIsText(pl, texts, k);
  }

  lemma SaysVerifyFull(pl: Platform, caArgument: string, raw: Raw)
    requires Build(pl, External, caArgument, raw).Some?
    ensures "sslmode" in raw.query && raw.query["sslmode"] == "verify-full"
  {
    hide HostOk, CaOk, DatabaseName, ToNat, PortNumber, Timeout;
    assert "prefer"[0] != "verify-full"[0];
  }

  lemma {:induction false} ParamIsPair(pairs: seq<(string, string)>, key: string) returns (k: nat)
    requires Params(pairs).Some? && key in Params(pairs).value
    ensures k < |pairs| && pairs[k] == (key, Params(pairs).value[key])
  {
    hide Clear;
    if pairs[|pairs| - 1].0 == key {
      k := |pairs| - 1;
    } else {
      k := ParamIsPair(pairs[..|pairs| - 1], key);
    }
  }

  lemma {:induction false} PairIsText(pl: Platform, texts: seq<string>, k: nat)
    requires PairsOf(pl, texts).Some? && k < |PairsOf(pl, texts).value|
    ensures k < |texts| && PairOf(pl, texts[k]) == Some(PairsOf(pl, texts).value[k])
  {
    hide PairOf;
    if k > 0 {
      PairIsText(pl, texts[1..], k - 1);
    }
  }

  // ----- How a URL comes apart -----

  /** A URL that is looked at: printable bytes without blanks and fragments, escapes well formed, 16 KiB at most. */
  lemma UrlTextMeaning(url: string)
    ensures UrlText(url) <==>
            && 1 <= |url| <= 16384
            && (forall i :: 0 <= i < |url| ==> ' ' < url[i] < '\U{100}' && url[i] != '\U{7f}' && url[i] != '#')
            && (forall i :: 0 <= i < |url| && url[i] == '%' ==>
                  i + 2 < |url| && HexDigit(url[i + 1]) && HexDigit(url[i + 2]))
  {
    assert forall i :: 0 <= i < |url| ==> url[i] in url;
  }

  /** A character is counted by its first byte, and the bytes that continue it are not. */
  lemma CharacterMeaning(c: char)
    ensures Characters([c]) == if 128 <= c as int <= 191 then 0 else 1
  {
    assert [c][1..] == "";
  }

  lemma {:induction false} CharactersAdd(a: string, b: string)
    ensures Characters(a + b) == Characters(a) + Characters(b)
  {
    if a == "" {
      assert a + b == b;
    } else {
      CharactersAdd(a[1..], b);
      assert (a + b)[1..] == a[1..] + b;
    }
  }

  lemma {:induction false} PartitionMeaning(s: string, c: char)
    ensures var r := Partition(s, c);
            && c !in r.0 && (r.1 <==> c in s) && s == r.0 + (if r.1 then [c] + r.2 else "") && (!r.1 ==> r.2 == "")
  {
    if s != "" {
      assert s == [s[0]] + s[1..];
      if s[0] != c {
        PartitionMeaning(s[1..], c);
        var r := Partition(s[1..], c);
        var tail := if r.1 then [c] + r.2 else "";
        assert [s[0]] + (r.0 + tail) == ([s[0]] + r.0) + tail;
      }
    }
  }

  lemma {:induction false} AuthorityMeaning(s: string)
    ensures var k := AuthorityEnd(s);
            && '/' !in s[..k] && '?' !in s[..k] && (k < |s| ==> s[k] == '/' || s[k] == '?')
  {
    if s != "" && s[0] != '/' && s[0] != '?' {
      AuthorityMeaning(s[1..]);
      var k := AuthorityEnd(s[1..]);
      assert s[..k + 1] == [s[0]] + s[1..][..k];
    }
  }

  function Built(located: bool, asked: bool, parts: Parts): string {
    (if located then "//" + parts.netloc else "") + (parts.path + (if asked then "?" + parts.query else ""))
  }

  /** The text behind the scheme, taken apart: a location behind two slashes, a path, and a query behind a question
      mark. */
  ghost predicate Holds(rest: string, parts: Parts) {
    && (exists located, asked :: rest == Built(located, asked, parts) && (!asked ==> parts.query == "")
          && (!located ==> parts.netloc == "" && !(|rest| >= 2 && rest[..2] == "//")))
    && '/' !in parts.netloc && '?' !in parts.netloc && '?' !in parts.path
    && (parts.netloc != "" && parts.path != "" ==> parts.path[0] == '/')
    && ('[' in parts.netloc <==> ']' in parts.netloc)
  }

  lemma TailMeaning(rest: string, located: bool, tail: string, parts: Parts)
    requires rest == (if located then "//" + parts.netloc else "") + tail
    requires !located ==> parts.netloc == "" && !(|rest| >= 2 && rest[..2] == "//")
    requires '/' !in parts.netloc && '?' !in parts.netloc
    requires located && tail != "" ==> tail[0] == '/' || tail[0] == '?'
    requires var q := Partition(tail, '?'); parts.path == q.0 && parts.query == q.2
    requires ('[' in parts.netloc) == (']' in parts.netloc)
    ensures Holds(rest, parts)
  {
    hide Partition;
    PartitionMeaning(tail, '?');
    var asked := Partition(tail, '?').1;
    assert parts.path != "" ==> tail[0] == parts.path[0];
    assert rest == Built(located, asked, parts);
  }

  lemma RestMeaning(rest: string, parts: Parts)
    requires var hasNet := |rest| >= 2 && rest[..2] == "//";
             var k := if hasNet then 2 + AuthorityEnd(rest[2..]) else 0;
             var q := Partition(rest[k..], '?');
             && parts.netloc == (if hasNet then rest[2..k] else "") && parts.path == q.0 && parts.query == q.2
             && ('[' in parts.netloc) == (']' in parts.netloc)
    ensures Holds(rest, parts)
  {
    var hasNet := |rest| >= 2 && rest[..2] == "//";
    var k := if hasNet then 2 + AuthorityEnd(rest[2..]) else 0;
    hide Partition, AuthorityEnd, Holds;
    if hasNet {
      AuthorityMeaning(rest[2..]);
      assert parts.netloc == rest[2..][..k - 2];
      assert k < |rest| ==> rest[2..][k - 2] == rest[k..][0];
      assert rest == "//" + parts.netloc + rest[k..];
    } else {
      assert rest == "" + rest[k..];
    }
    TailMeaning(rest, hasNet, rest[k..], parts);
  }

  /** The host is taken in lower case up to its first percent sign, and as it is from there. */
  lemma LowerHostMeaning(head: string, tail: string)
    requires '%' !in head
    ensures LowerHost(head) == Lower(head) && LowerHost(head + "%" + tail) == Lower(head) + "%" + tail
  {
    hide Lower;
    PartitionMeaning(head, '%');
    assert head + "%" + tail == head + ['%'] + tail;
    PartitionAt(head, '%', tail);
  }

  /** What else a decoded URL promises: one at sign at most in the location, a path from the root if there is one, and
      an equals sign in every part of the query. */
  lemma RawMeaning(pl: Platform, url: string)
    requires RawOf(pl, url).Some?
    ensures UrlSplit(url).Some?
    ensures var parts := UrlSplit(url).value;
            && (forall i, j :: 0 <= i < j < |parts.netloc| ==> !(parts.netloc[i] == '@' && parts.netloc[j] == '@'))
            && (forall text :: text in Split(parts.query, '&') ==> '=' in text)
  {
    hide UrlSplit, NetOf, Split, PairOf, PortOf, Params, Decode;
    var parts := UrlSplit(url).value;
    OneSign(parts.netloc);
    AllPairs(pl, Split(parts.query, '&'));
  }

  lemma OneSign(s: string)
    requires |Split(s, '@')| <= 2
    ensures forall i, j :: 0 <= i < j < |s| ==> !(s[i] == '@' && s[j] == '@')
  {
    forall i, j | 0 <= i < j < |s| ensures !(s[i] == '@' && s[j] == '@') {
      if s[i] == '@' && s[j] == '@' {
        TwoSigns(s, i, j);
      }
    }
  }

  lemma {:induction false} TwoSigns(s: string, i: nat, j: nat)
    requires i < j < |s| && s[i] == '@' && s[j] == '@'
    ensures |Split(s, '@')| >= 3
  {
    if i > 0 {
      TwoSigns(s[1..], i - 1, j - 1);
    } else {
      OneSignThere(s[1..], j - 1);
    }
  }

  lemma {:induction false} OneSignThere(s: string, j: nat)
    requires j < |s| && s[j] == '@'
    ensures |Split(s, '@')| >= 2
  {
    if j > 0 {
      OneSignThere(s[1..], j - 1);
    }
  }

  lemma {:induction false} AllPairs(pl: Platform, texts: seq<string>)
    requires PairsOf(pl, texts).Some?
    ensures forall text :: text in texts ==> '=' in text
  {
    hide UnquotePlus;
    if texts != [] {
      AllPairs(pl, texts[1..]);
      PartitionMeaning(texts[0], '=');
      assert texts == [texts[0]] + texts[1..];
    }
  }

  /** The parameters that are known. */
  ghost predicate Known(name: string) {
    name == "sslmode" || name == "sslrootcert" || name == "connect_timeout" || name == "host" || name == "port"
    || name == "user"
  }

  /** The parameters of a query: each known, none twice, all printable, and the dictionary holds just them. */
  ghost predicate Collected(pairs: seq<(string, string)>, m: map<string, string>) {
    && (forall i :: 0 <= i < |pairs| ==> Known(pairs[i].0) && Printing(pairs[i].0) && Printing(pairs[i].1))
    && (forall i, j :: 0 <= i < j < |pairs| ==> pairs[i].0 != pairs[j].0)
    && (forall i :: 0 <= i < |pairs| ==> pairs[i].0 in m && m[pairs[i].0] == pairs[i].1)
    && (forall name :: name in m ==> exists i :: 0 <= i < |pairs| && pairs[i].0 == name)
  }

  lemma {:induction false} ParamsMeaning(pairs: seq<(string, string)>)
    ensures Params(pairs).Some? ==> Collected(pairs, Params(pairs).value)
    ensures forall m :: Collected(pairs, m) ==> Params(pairs) == Some(m)
  {
    hide Known, Printing;
    if pairs != [] {
      var k := |pairs| - 1;
      var front, p := pairs[..k], pairs[k];
      assert pairs == front + [p];
      ParamsMeaning(front);
      KnownMeaning(p.0);
      PrintingMeaning(p.0);
      PrintingMeaning(p.1);
      if Params(pairs).Some? {
        OneCollected(front, p, Params(front).value);
      }
      forall m | Collected(pairs, m) ensures Params(pairs) == Some(m) {
        WithoutLast(front, p, m);
      }
    }
  }

  lemma KnownMeaning(name: string)
    ensures name in PARAMETERS <==> Known(name)
  {
  }

  lemma PrintingMeaning(s: string)
    ensures Clear(s) <==> Printing(s)
  {
  }

  lemma OneCollected(front: seq<(string, string)>, p: (string, string), m: map<string, string>)
    requires Collected(front, m) && p.0 !in m && Known(p.0) && Printing(p.0) && Printing(p.1)
    ensures Collected(front + [p], m[p.0 := p.1])
  {
    hide Known, Printing;
    var all := front + [p];
    assert all[|front|] == p;
    var m' := m[p.0 := p.1];
    forall name | name in m' ensures exists i :: 0 <= i < |all| && all[i].0 == name {
      if name != p.0 {
        assert name in m;
        var i :| 0 <= i < |front| && front[i].0 == name;
        assert all[i].0 == name;
      }
    }
  }

  lemma WithoutLast(front: seq<(string, string)>, p: (string, string), m: map<string, string>)
    requires Collected(front + [p], m)
    ensures Collected(front, m - {p.0}) && p.0 in m && m[p.0] == p.1 && m == (m - {p.0})[p.0 := p.1]
    ensures Known(p.0) && Printing(p.0) && Printing(p.1)
  {
    hide Known, Printing;
    var all := front + [p];
    assert all[|front|] == p && forall i :: 0 <= i < |front| ==> all[i] == front[i];
    forall name | name in m - {p.0} ensures exists i :: 0 <= i < |front| && front[i].0 == name {
      var i :| 0 <= i < |all| && all[i].0 == name;
      assert i < |front|;
    }
  }

  /** A URL that is split has its parts, in this order and nothing else; the scheme in lower case. */
  lemma SplitMeaning(url: string, parts: Parts)
    requires UrlSplit(url) == Some(parts) && parts.scheme != ""
    ensures exists scheme, rest ::
              url == scheme + ":" + rest && Lower(scheme) == parts.scheme && ':' !in scheme && Holds(rest, parts)
  {
    hide AuthorityEnd, Holds, SchemeText, Lower;
    var colon := Partition(url, ':');
    PartitionMeaning(url, ':');
    hide Partition;
    RestMeaning(colon.2, parts);
    assert url == colon.0 + ":" + colon.2;
  }
}
