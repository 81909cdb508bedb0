// What `parse_url` accepts can be printed and read again: the exact round trip.

module UriRoundTrip {
  import opened Base
  import opened Texts
  import opened Encoding
  import opened Uris

  /** What is known of the surroundings: `ipaddress` does not care about case, an address without zone is written with
      hexadecimal digits, colons and dots, decoded text is text, and ASCII text decodes. */
  ghost predicate Sound(pl: Platform) {
    && PlatformOk(pl)
    && (forall h :: pl.address(Lower(h)) == pl.address(h))
    && (forall s :: pl.utf8(s) ==> Bytes(s))
  }

  predicate Secret(pl: Platform, s: string) {
    s != "" && Clear(s) && pl.utf8(s)
  }

  /** Everything `parse_url` promises about a connection it returns. */
  predicate Accepted(pl: Platform, c: Connection) {
    && DatabaseName(c.database) && Secret(pl, c.username) && |c.username| <= 63 && Secret(pl, c.password)
    && HostOk(pl, c.host, c.mode) && 1 <= c.port <= 65535 && SslOk(c.mode, c.sslmode, c.caFile)
    && CaOk(pl, c.caFile) && pl.utf8(c.caFile) && 1 <= c.timeout <= 30
  }

  // ----- What is accepted -----

  lemma {:induction false} ParamsClear(pl: Platform, texts: seq<string>, pairs: seq<(string, string)>)
    requires PairsOf(pl, texts) == Some(pairs)
    ensures forall i :: 0 <= i < |pairs| ==> pl.utf8(pairs[i].0) && pl.utf8(pairs[i].1)
  {
    if texts != [] {
      ParamsClear(pl, texts[1..], PairsOf(pl, texts[1..]).value);
    }
  }

  lemma {:induction false} ParamsMeaning(pl: Platform, pairs: seq<(string, string)>)
    requires Params(pairs).Some? && forall i :: 0 <= i < |pairs| ==> pl.utf8(pairs[i].0) && pl.utf8(pairs[i].1)
    ensures forall k :: k in Params(pairs).value ==> Clear(Params(pairs).value[k]) && pl.utf8(Params(pairs).value[k])
  {
    if pairs != [] {
      ParamsMeaning(pl, pairs[..|pairs| - 1]);
    }
  }

  /** Whatever a URL looks like, the connection that comes out has the promised shape. */
  lemma ParsedIsAccepted(pl: Platform, url: string, mode: Mode, caArgument: string)
    requires Sound(pl) && pl.utf8(caArgument) && ParseUrl(pl, url, mode, caArgument).Some?
    ensures Accepted(pl, ParseUrl(pl, url, mode, caArgument).value)
            && ParseUrl(pl, url, mode, caArgument).value.mode == mode
  {
    hide UrlText, UrlSplit, NetOf, Split, Unquote, HostOk, SslOk, CaOk, DatabaseName, Params, PairsOf;
    var parts := UrlSplit(url).value;
    var pairs := PairsOf(pl, Split(parts.query, '&')).value;
    ParamsClear(pl, Split(parts.query, '&'), pairs);
    ParamsMeaning(pl, pairs);
    assert Ascii("");
  }

  // ----- The text of a printed URI -----

  /** A printing ASCII character other than the hash. */
  predicate UriChar(c: char) {
    ' ' < c < '\U{7f}' && c != '#'
  }

  predicate Fine(s: string) {
    GoodEscapes(s) && forall i :: 0 <= i < |s| ==> UriChar(s[i])
  }

  lemma FineJoined(a: string, b: string)
    requires Fine(a) && Fine(b)
    ensures Fine(a + b)
  {
    GoodJoined(a, b);
  }

  lemma FineToken(s: string)
    requires FormToken(s) && GoodEscapes(s)
    ensures Fine(s)
  {
  }

  lemma FinePlain(s: string)
    requires forall i :: 0 <= i < |s| ==> UriChar(s[i]) && s[i] != '%'
    ensures Fine(s)
  {
  }

  lemma {:induction false} FineList(parts: seq<string>)
    requires parts != [] && forall i :: 0 <= i < |parts| ==> Fine(parts[i])
    ensures Fine(Join(parts, '&'))
  {
    if |parts| > 1 {
      FineList(parts[1..]);
      FinePlain("&");
      FineJoined(parts[0], "&");
      FineJoined(parts[0] + "&", Join(parts[1..], '&'));
    }
  }

  lemma FineIsUrlText(s: string)
    requires Fine(s) && s != ""
    ensures UrlText(s) <==> |s| <= MAX_URL
  {
  }

  // ----- The host -----

  predicate HostChar(c: char) {
    Alnum(c) || c == '.' || c == '-' || c == ':'
  }

  lemma HostChars(pl: Platform, host: string, mode: Mode)
    requires Sound(pl) && HostOk(pl, host, mode)
    ensures host != "" && forall i :: 0 <= i < |host| ==> HostChar(host[i])
  {
    hide Split, Lower;
  }

  /** The printed host and port come apart again, brackets or not, and the host comes back in lower case. */
  lemma EndpointBack(host: string, port: string)
    requires host != "" && (forall i :: 0 <= i < |host| ==> HostChar(host[i])) && AllDigits(port)
    ensures var info := HostText(host) + ":" + port;
            var bracket := Partition(info, '[');
            var inside := Partition(bracket.2, ']');
            && (if bracket.1 then inside.0 else Partition(info, ':').0) == host
            && (if bracket.1 then Partition(inside.2, ':').2 else Partition(info, ':').2) == port
            && ('[' in info <==> ']' in info)
  {
    if ':' in host {
      BracketBack(host, port);
    } else {
      var info := HostText(host) + ":" + port;
      assert info == host + [':'] + port;
      PartitionNone(info, '[');
      PartitionAt(host, ':', port);
    }
  }

  lemma BracketBack(host: string, port: string)
    requires ']' !in host
    ensures var info := "[" + host + "]" + ":" + port;
            && Partition(info, '[') == ("", true, host + "]" + ":" + port)
            && Partition(host + "]" + ":" + port, ']') == (host, true, ":" + port)
            && Partition(":" + port, ':') == ("", true, port)
            && '[' in info && ']' in info
  {
    var inner := host + "]" + ":" + port;
    assert "[" + host + "]" + ":" + port == "" + ['['] + inner;
    PartitionAt("", '[', inner);
    assert inner == host + [']'] + (":" + port);
    PartitionAt(host, ']', ":" + port);
    assert "" + [':'] + port == ":" + port;
    PartitionAt("", ':', port);
    assert inner[|host|] == ']' && ("[" + host + "]" + ":" + port)[|host| + 1] == ']';
  }

  lemma LowerHostOf(host: string)
    requires forall i :: 0 <= i < |host| ==> HostChar(host[i])
    ensures LowerHost(host) == Lower(host)
  {
    PartitionNone(host, '%');
  }

  lemma LowerPlain(s: string)
    requires forall i :: 0 <= i < |s| ==> HostChar(s[i])
    ensures forall i :: 0 <= i < |s| ==> HostChar(Lower(s)[i])
    ensures Lower(Lower(s)) == Lower(s) && Unquote(Lower(s)) == Lower(s)
  {
    UnquotePlain(Lower(s));
  }

  lemma {:induction false} UnquotePlain(s: string)
    requires '%' !in s
    ensures Unquote(s) == s
  {
    if s != "" {
      UnquotePlain(s[1..]);
      assert s[0] in s && s == [s[0]] + s[1..];
    }
  }

  // ----- The authority -----

  /** Characters of a token never separate anything. */
  lemma TokenLacks(s: string, c: char)
    requires Token(s) && !Unreserved(c) && c != '%'
    ensures c !in s
  {
  }

  lemma NetBack(user: string, password: string, host: string, port: string)
    requires Token(user) && Token(password) && AllDigits(port) && host != "" && forall i :: 0 <= i < |host| ==>
            HostChar(host[i])
    ensures var netloc := user + ":" + password + "@" + HostText(host) + ":" + port;
            && NetOf(netloc) == Net(Some(user), Some(password), Lower(host), port)
            && |Split(netloc, '@')| == 2 && ('[' in netloc <==> ']' in netloc)
  {
    var netloc := user + ":" + password + "@" + HostText(host) + ":" + port;
    var auth, info := user + ":" + password, HostText(host) + ":" + port;
    AuthLacks(user, password, '@');
    AuthLacks(user, password, '[');
    AuthLacks(user, password, ']');
    assert netloc == auth + ['@'] + info;
    PartitionAt(auth, '@', info);
    TokenLacks(user, ':');
    assert auth == user + [':'] + password;
    PartitionAt(user, ':', password);
    EndpointBack(host, port);
    LowerHostOf(host);
    SplitAtSeparator(auth, '@', info);
    SplitPlain(info, '@');
    assert forall c :: c in netloc <==> c in auth || c == '@' || c in info;
  }

  lemma AuthLacks(user: string, password: string, c: char)
    requires Token(user) && Token(password) && !Unreserved(c) && c != '%' && c != ':'
    ensures c !in user + ":" + password
  {
    TokenLacks(user, c);
    TokenLacks(password, c);
  }

  lemma {:induction false} AuthorityEndAt(a: string, tail: string)
    requires '/' !in a && '?' !in a && tail != "" && tail[0] == '/'
    ensures AuthorityEnd(a + tail) == |a|
  {
    if a == "" {
      assert a + tail == tail;
    } else {
      assert a[0] in a && (a + tail)[1..] == a[1..] + tail;
      AuthorityEndAt(a[1..], tail);
    }
  }

  lemma SchemeWord()
    ensures SchemeText("postgresql") && Lower("postgresql") == "postgresql" && ':' !in "postgresql"
  {
  }

  lemma SplitBack(scheme: string, netloc: string, path: string, query: string)
    requires SchemeText(scheme) && Lower(scheme) == scheme && ':' !in scheme
    requires '/' !in netloc && '?' !in netloc && ('[' in netloc <==> ']' in netloc)
    requires path != "" && path[0] == '/' && '?' !in path
    ensures UrlSplit(scheme + ":" + "//" + netloc + (path + "?" + query)) == Some(Parts(scheme, netloc, path, query))
  {
    hide SchemeText, Lower, AuthorityEnd, Partition;
    var tail := path + "?" + query;
    var rest := "//" + netloc + tail;
    var url := scheme + ":" + "//" + netloc + tail;
    assert url == scheme + [':'] + rest;
    PartitionAt(scheme, ':', rest);
    AuthorityEndAt(netloc, tail);
    NetAt(netloc, tail);
    assert tail == path + ['?'] + query;
    PartitionAt(path, '?', query);
  }

  lemma NetAt(netloc: string, tail: string)
    ensures var rest := "//" + netloc + tail;
            && rest[..2] == "//" && rest[2..] == netloc + tail
            && rest[2..2 + |netloc|] == netloc && rest[2 + |netloc|..] == tail
  {
  }

  // ----- The query -----

  lemma PairBack(pl: Platform, p: (string, string))
    requires PairBytes(p) && pl.utf8(p.0) && pl.utf8(p.1)
    ensures PairOf(pl, PairText(p)) == Some(p) && '&' !in PairText(p) && Fine(PairText(p))
  {
    hide Fine, UnquotePlus, QuotePlus, GoodEscapes;
    UnquotePlusQuotePlus(p.0);
    UnquotePlusQuotePlus(p.1);
    var key, value := QuotePlus(p.0), QuotePlus(p.1);
    assert PairText(p) == key + ['='] + value;
    PartitionAt(key, '=', value);
    FinePair(key, value);
  }

  lemma FinePair(key: string, value: string)
    requires FormToken(key) && GoodEscapes(key) && FormToken(value) && GoodEscapes(value)
    ensures Fine(key + "=" + value)
  {
    FineToken(key);
    FineToken(value);
    FinePlain("=");
    FineJoined(key, "=");
    FineJoined(key + "=", value);
  }

  function PairTexts(ps: seq<(string, string)>): (texts: seq<string>)
    requires forall i :: 0 <= i < |ps| ==> PairBytes(ps[i])
    ensures |texts| == |ps|
  {
    seq(|ps|, i requires 0 <= i < |ps| => PairText(ps[i]))
  }

  lemma {:induction false} PairsBack(pl: Platform, ps: seq<(string, string)>)
    requires forall i :: 0 <= i < |ps| ==> PairBytes(ps[i]) && pl.utf8(ps[i].0) && pl.utf8(ps[i].1)
    ensures PairsOf(pl, PairTexts(ps)) == Some(ps)
    ensures forall i :: 0 <= i < |ps| ==> '&' !in PairTexts(ps)[i] && Fine(PairTexts(ps)[i])
  {
    hide PairOf, PairText, Fine;
    if ps != [] {
      PairsBack(pl, ps[1..]);
      PairBack(pl, ps[0]);
      assert PairTexts(ps)[1..] == PairTexts(ps[1..]) && PairTexts(ps)[0] == PairText(ps[0]);
      assert ps == [ps[0]] + ps[1..];
      assert forall i :: 0 < i < |ps| ==> PairTexts(ps)[i] == PairTexts(ps[1..])[i - 1];
    }
  }

  /** A printed query is read as the pairs it was printed from. */
  lemma QueryBack(pl: Platform, ps: seq<(string, string)>)
    requires ps != [] && forall i :: 0 <= i < |ps| ==> PairBytes(ps[i]) && pl.utf8(ps[i].0) && pl.utf8(ps[i].1)
    ensures PairsOf(pl, Split(Query(ps), '&')) == Some(ps) && Fine(Query(ps))
  {
    hide Fine, PairsOf;
    PairsBack(pl, ps);
    assert Query(ps) == Join(PairTexts(ps), '&');
    SplitJoin(PairTexts(ps), '&');
    FineList(PairTexts(ps));
  }

  ghost predicate ParamsMatch(m: map<string, string>, c: Connection) {
    && GetOr(m, "sslmode", "prefer") == c.sslmode && GetOr(m, "connect_timeout", "10") == FromNat(c.timeout)
    && GetOr(m, "sslrootcert", "") == c.caFile && "user" !in m && "host" !in m && "port" !in m
  }

  lemma NamesApart()
    ensures |"sslmode"| == 7 && |"connect_timeout"| == 15 && |"sslrootcert"| == 11
            && |"user"| == |"host"| == |"port"| == 4
    ensures Clear("sslmode") && Clear("connect_timeout") && Clear("sslrootcert")
    ensures {"sslmode", "connect_timeout", "sslrootcert"} <= PARAMETERS
  {
  }

  /** The parameters of a printed URI, as the loop collects them. */
  lemma FieldsBack(c: Connection)
    requires Clear(c.sslmode) && Clear(c.caFile)
    ensures Params(Fields(c)).Some? && ParamsMatch(Params(Fields(c)).value, c)
  {
    hide Params, Clear, FromNat;
    NamesApart();
    DigitsClear(c.timeout);
    var digits := FromNat(c.timeout);
    var one := [] + [("sslmode", c.sslmode)];
    var two := one + [("connect_timeout", digits)];
    var m: map<string, string> := map["sslmode" := c.sslmode]["connect_timeout" := digits];
    OneMoreParam([], "sslmode", c.sslmode, map[]);
    OneMoreParam(one, "connect_timeout", digits, map["sslmode" := c.sslmode]);
    if c.caFile == "" {
      assert Fields(c) == two;
    } else {
      OneMoreParam(two, "sslrootcert", c.caFile, m);
      assert Fields(c) == two + [("sslrootcert", c.caFile)];
    }
  }

  lemma DigitsClear(n: nat)
    ensures Clear(FromNat(n))
  {
    FromNatMeaning(n);
  }

  lemma OneMoreParam(pairs: seq<(string, string)>, key: string, value: string, m: map<string, string>)
    requires pairs == [] ==> m == map[]
    requires pairs == [] || Params(pairs) == Some(m)
    requires key in PARAMETERS && key !in m && Clear(key) && Clear(value)
    ensures Params(pairs + [(key, value)]) == Some(m[key := value])
  {
    assert (pairs + [(key, value)])[..|pairs|] == pairs;
  }

  // ----- The round trip -----

  lemma SslBytes(mode: Mode, sslmode: string, caFile: string)
    requires SslOk(mode, sslmode, caFile)
    ensures Ascii(sslmode) && Bytes(sslmode) && Clear(sslmode)
  {
    assert forall i :: 0 <= i < |sslmode| ==> 'a' <= sslmode[i] <= 'z' || sslmode[i] == '-';
  }

  lemma DatabasePlain(s: string)
    requires DatabaseName(s)
    ensures Bytes(s) && Quote(s) == s && Unquote(s) == s && Ascii(s) && Clear(s) && '?' !in s && Fine(s)
  {
    QuotePlain(s);
    UnquotePlain(s);
    FinePlain(s);
  }

  lemma AcceptedPrintable(pl: Platform, c: Connection)
    requires Sound(pl) && Accepted(pl, c)
    ensures Printable(c)
  {
    SslBytes(c.mode, c.sslmode, c.caFile);
    DatabasePlain(c.database);
  }

  lemma {:induction false} SplitLower(s: string)
    ensures |Split(Lower(s), '.')| == |Split(s, '.')|
    ensures forall k :: 0 <= k < |Split(s, '.')| ==> Split(Lower(s), '.')[k] == Lower(Split(s, '.')[k])
  {
    if s == "" {
      assert Lower("") == "";
    } else {
      SplitLower(s[1..]);
      assert Lower(s)[1..] == Lower(s[1..]);
      var rest := Split(s[1..], '.');
      assert s[0] != '.' ==> Lower([s[0]] + rest[0]) == [LowerChar(s[0])] + Lower(rest[0]);
    }
  }

  /** An accepted host is accepted in lower case too. */
  lemma HostLower(pl: Platform, host: string, mode: Mode)
    requires Sound(pl) && HostOk(pl, host, mode)
    ensures HostOk(pl, Lower(host), mode)
  {
    HostChars(pl, host, mode);
    LowerPlain(host);
    if pl.address(host).None? {
      NameLower(host);
    }
  }

  lemma NameLower(host: string)
    requires HostName(host)
    ensures HostName(Lower(host))
  {
    SplitLower(host);
    var labels := Split(host, '.');
    forall k | 0 <= k < |labels| ensures Label(Lower(labels[k])) {
      assert Label(labels[k]);
    }
  }

  lemma NetFine(c: Connection)
    requires Bytes(c.username) && Bytes(c.password) && c.host != "" && forall i :: 0 <= i < |c.host| ==>
            HostChar(c.host[i])
    ensures '/' !in Authority(c) && '?' !in Authority(c) && Fine(Authority(c))
  {
    UnquoteQuote(c.username);
    UnquoteQuote(c.password);
    EndpointFine(c.host, c.port);
    AuthFine(Quote(c.username), Quote(c.password), HostText(c.host) + ":" + FromNat(c.port));
    AuthorityEnds(c);
  }

  lemma AuthorityEnds(c: Connection)
    requires Bytes(c.username) && Bytes(c.password)
    ensures Authority(c) == Quote(c.username) + ":" + Quote(c.password) + "@" +
            (HostText(c.host) + ":" + FromNat(c.port))
  {
  }

  lemma EndpointFine(host: string, port: nat)
    requires host != "" && forall i :: 0 <= i < |host| ==> HostChar(host[i])
    ensures var t := HostText(host) + ":" + FromNat(port); Fine(t) && '/' !in t && '?' !in t
  {
    FromNatMeaning(port);
    assert forall x :: x in HostText(host) ==> x == '[' || x == ']' || HostChar(x);
    FinePlain(HostText(host) + ":" + FromNat(port));
  }

  lemma AuthFine(user: string, password: string, endpoint: string)
    requires Token(user) && Token(password) && GoodEscapes(user) && GoodEscapes(password)
    requires Fine(endpoint) && '/' !in endpoint && '?' !in endpoint
    ensures var a := user + ":" + password + "@" + endpoint; Fine(a) && '/' !in a && '?' !in a
  {
    AuthLacks(user, password, '/');
    AuthLacks(user, password, '?');
    FineToken(user);
    FineToken(password);
    FinePlain(":");
    FinePlain("@");
    hide Fine;
    FineJoined(user, ":");
    FineJoined(user + ":", password);
    FineJoined(user + ":" + password, "@");
    FineJoined(user + ":" + password + "@", endpoint);
  }

  /** How the stages of reading fit together when all of them succeed. */
  lemma RawFrom(pl: Platform, url: string, parts: Parts, net: Net, port: nat, pairs: seq<(string, string)>,
                query: map<string, string>,
                database: string, username: string, password: string)
    requires UrlSplit(url) == Some(parts) && NetOf(parts.netloc) == net && |Split(parts.netloc, '@')| == 2
    requires PortOf(net.port) == Some(Some(port)) && PairsOf(pl, Split(parts.query, '&')) == Some(pairs)
             && Params(pairs) == Some(query)
    requires parts.path == "/" + database && net.username.Some? && net.password.Some? && net.host != ""
    requires Decode(pl, database) == Some(database) && Decode(pl, net.host) == Some(net.host)
    requires Decode(pl, net.username.value) == Some(username) && Decode(pl, net.password.value) == Some(password)
    ensures RawOf(pl, url) ==
            Some(Raw(parts.scheme, database, Some(username), Some(password), Some(net.host), Some(port), query))
  {
    hide UrlSplit, NetOf, Split, PortOf, PairsOf, Params, Decode;
    assert parts.path[1..] == database;
  }

  lemma DecodeBack(pl: Platform, s: string)
    requires Secret(pl, s) && Bytes(s)
    ensures Decode(pl, Quote(s)) == Some(s) && Token(Quote(s))
  {
    UnquoteQuote(s);
  }

  lemma PortBack(n: nat)
    requires n <= 65535
    ensures PortOf(FromNat(n)) == Some(Some(n)) && AllDigits(FromNat(n))
  {
    FromNatMeaning(n);
  }

  lemma HostDecode(pl: Platform, host: string, mode: Mode)
    requires Sound(pl) && HostOk(pl, host, mode)
    ensures Decode(pl, Lower(host)) == Some(Lower(host)) && Lower(host) != ""
  {
    hide HostOk, Lower, Unquote;
    HostChars(pl, host, mode);
    LowerPlain(host);
    assert Ascii(Lower(host)) && Clear(Lower(host));
  }

  lemma FieldsDecode(pl: Platform, c: Connection)
    requires Sound(pl) && Printable(c) && Ascii(c.sslmode) && pl.utf8(c.caFile)
    ensures var ps := Fields(c); ps != [] && forall i :: 0 <= i < |ps| ==>
            PairBytes(ps[i]) && pl.utf8(ps[i].0) && pl.utf8(ps[i].1)
  {
    hide Ascii, Bytes, FromNat, Printable;
    FieldNamesAscii();
    DigitsAscii(c.timeout);
  }

  lemma FieldNamesAscii()
    ensures Ascii("sslmode") && Ascii("connect_timeout") && Ascii("sslrootcert")
  {
  }

  lemma DigitsAscii(n: nat)
    ensures Ascii(FromNat(n))
  {
    FromNatMeaning(n);
  }

  lemma CaClear(pl: Platform, caFile: string)
    requires CaOk(pl, caFile)
    ensures Clear(caFile)
  {
  }

  /** Reading a printed URI, up to the checks. */
  lemma RawBack(pl: Platform, c: Connection) returns (query: map<string, string>)
    requires Sound(pl) && Accepted(pl, c) && Printable(c)
    ensures RawOf(pl, Uri(c)) ==
            Some(Raw("postgresql", c.database, Some(c.username), Some(c.password), Some(Lower(c.host)), Some(c.port),
              query))
    ensures ParamsMatch(query, c) && Fine(Uri(c)) && Uri(c) != ""
  {
    hide Fine, HostOk, SslOk, CaOk, DatabaseName, Params, PairsOf, UrlSplit, NetOf, Split, Query, Unquote, Quote,
      PortOf, Decode, RawOf, Token, Lower;
    hide ParamsMatch, Fields, Authority, AllDigits, PlatformOk;
    HostChars(pl, c.host, c.mode);
    DatabasePlain(c.database);
    SslBytes(c.mode, c.sslmode, c.caFile);
    CaClear(pl, c.caFile);
    DecodeBack(pl, c.username);
    DecodeBack(pl, c.password);
    PortBack(c.port);
    HostDecode(pl, c.host, c.mode);
    NetFine(c);
    AuthorityIs(c);
    NetBack(Quote(c.username), Quote(c.password), c.host, FromNat(c.port));
    FieldsDecode(pl, c);
    QueryBack(pl, Fields(c));
    FieldsBack(c);
    query := Params(Fields(c)).value;
    PathPlain(c.database);
    SchemeWord();
    SplitBack("postgresql", Authority(c), "/" + c.database, Query(Fields(c)));
    DatabaseDecode(pl, c.database);
    RawFrom(pl, Uri(c), Parts("postgresql", Authority(c), "/" + c.database, Query(Fields(c))),
            Net(Some(Quote(c.username)), Some(Quote(c.password)), Lower(c.host), FromNat(c.port)), c.port, Fields(c),
              query,
            c.database, c.username, c.password);
    UriFine(Authority(c), c.database, Query(Fields(c)));
  }

  lemma AuthorityIs(c: Connection)
    requires Bytes(c.username) && Bytes(c.password)
    ensures Authority(c) == Quote(c.username) + ":" + Quote(c.password) + "@" + HostText(c.host) + ":" + FromNat(c.port)
  {
  }

  lemma PathPlain(database: string)
    requires '?' !in database
    ensures "/" + database != "" && ("/" + database)[0] == '/' && '?' !in "/" + database
  {
  }

  lemma DatabaseDecode(pl: Platform, s: string)
    requires Sound(pl) && DatabaseName(s)
    ensures Decode(pl, s) == Some(s)
  {
    DatabasePlain(s);
  }

  lemma UriFine(netloc: string, database: string, query: string)
    requires Fine(netloc) && Fine(database) && Fine(query)
    ensures Fine("postgresql" + ":" + "//" + netloc + ("/" + database + "?" + query))
  {
    FinePlain("postgresql" + ":" + "//");
    FinePlain("/");
    FinePlain("?");
    FineJoined("postgresql" + ":" + "//", netloc);
    FineJoined("/", database);
    FineJoined("/" + database, "?");
    FineJoined("/" + database + "?", query);
    FineJoined("postgresql" + ":" + "//" + netloc, "/" + database + "?" + query);
  }

  /** Printing and parsing again: refused if the text is too long for a URL, and otherwise the same connection with its
      host in lower case. So the round trip is exact exactly for a lower-case host and a text within the bound. */
  lemma RoundTrip(pl: Platform, c: Connection)
    requires Sound(pl) && Accepted(pl, c)
    ensures Printable(c)
    ensures ParseUrl(pl, Uri(c), c.mode, "") == if |Uri(c)| <= MAX_URL then Some(c.(host := Lower(c.host))) else None
    ensures ParseUrl(pl, Uri(c), c.mode, "") == Some(c) <==> |Uri(c)| <= MAX_URL && Lower(c.host) == c.host
  {
    hide Uri, RawOf, UrlText, HostOk, SslOk, CaOk, DatabaseName, Params, Fine, Lower;
    AcceptedPrintable(pl, c);
    var query := RawBack(pl, c);
    FineIsUrlText(Uri(c));
    HostLower(pl, c.host, c.mode);
    FromNatMeaning(c.timeout);
    TimeoutBack(c.timeout);
  }

  lemma TimeoutBack(n: nat)
    requires 1 <= n <= 30
    ensures Timeout(FromNat(n))
  {
    FromNatMeaning(n);
    assert n >= 10 ==> |FromNat(n)| == |FromNat(n / 10)| + 1;
  }

  /** The law as users see it: whatever `parse_url` returned can be written down and read back. */
  lemma ParsePrintParse(pl: Platform, url: string, mode: Mode, caArgument: string)
    requires Sound(pl) && pl.utf8(caArgument) && ParseUrl(pl, url, mode, caArgument).Some?
    ensures var c := ParseUrl(pl, url, mode, caArgument).value;
            && Printable(c)
            && (ParseUrl(pl, Uri(c), mode, "") == Some(c) <==> |Uri(c)| <= MAX_URL && Lower(c.host) == c.host)
  {
    hide ParseUrl, Uri, Accepted;
    ParsedIsAccepted(pl, url, mode, caArgument);
    RoundTrip(pl, ParseUrl(pl, url, mode, caArgument).value);
  }

  // ----- A URL that does not round trip -----

  /** A URL without a host in its location: the host comes from the query. */
  function QueryHostUrl(host: string): string {
    "postgresql" + ":" + "//" + "a:b@" + ("/d" + "?" + ("host=" + host))
  }

  lemma QueryHostNet()
    ensures NetOf("a:b@") == Net(Some("a"), Some("b"), "", "") && |Split("a:b@", '@')| == 2
  {
    assert "a:b@" == "a:b" + ['@'] + "" && "a:b" == "a" + [':'] + "b";
    PartitionAt("a:b", '@', "");
    PartitionAt("a", ':', "b");
    SplitPlain("a:b", '@');
    SplitAtSeparator("a:b", '@', "");
  }

  lemma QueryHostParams(pl: Platform, host: string)
    requires Sound(pl) && forall i :: 0 <= i < |host| ==> HostChar(host[i])
    ensures PairsOf(pl, Split("host=" + host, '&')) == Some([("host", host)])
    ensures Params([("host", host)]) == Some(map["host" := host])
  {
    hide Split, PairOf, Params, Clear, UnquotePlus, Sound;
    PlainQuery(pl, "host");
    PlainQuery(pl, host);
    QueryHostSplit(host);
    OnePair(pl, "host", host);
    OneField(pl, "host" + ['='] + host, ("host", host));
    QueryHostParam(host);
  }

  lemma QueryHostSplit(host: string)
    requires forall i :: 0 <= i < |host| ==> HostChar(host[i])
    ensures Split("host=" + host, '&') == ["host" + ['='] + host]
  {
    hide Split;
    assert "host=" + host == "host" + ['='] + host;
    SplitPlain("host=" + host, '&');
  }

  lemma QueryHostParam(host: string)
    requires Clear("host") && Clear(host)
    ensures Params([("host", host)]) == Some(map["host" := host])
  {
    hide Params, Clear;
    OneMoreParam([], "host", host, map[]);
    assert [] + [("host", host)] == [("host", host)];
  }

  lemma OneField(pl: Platform, text: string, pair: (string, string))
    requires PairOf(pl, text) == Some(pair)
    ensures PairsOf(pl, [text]) == Some([pair])
  {
    hide PairOf;
    assert [text][1..] == [] && PairsOf(pl, []) == Some([]);
    assert [pair] + [] == [pair];
  }

  lemma OnePair(pl: Platform, key: string, value: string)
    requires '=' !in key && UnquotePlus(key) == key && UnquotePlus(value) == value && pl.utf8(key) && pl.utf8(value)
    ensures PairOf(pl, key + ['='] + value) == Some((key, value))
  {
    hide UnquotePlus;
    PartitionAt(key, '=', value);
  }

  lemma PlainQuery(pl: Platform, s: string)
    requires Sound(pl) && forall i :: 0 <= i < |s| ==> HostChar(s[i])
    ensures UnquotePlus(s) == s && pl.utf8(s) && Clear(s)
  {
    SwappedNone(s, '+', ' ');
    UnquotePlain(s);
    assert Ascii(s);
  }

  lemma PlainDecode(pl: Platform, s: string)
    requires Sound(pl) && forall i :: 0 <= i < |s| ==> HostChar(s[i])
    ensures Decode(pl, s) == Some(s)
  {
    UnquotePlain(s);
    assert Ascii(s) && Clear(s);
  }

  lemma QueryHostText(host: string)
    requires |host| <= 253 && forall i :: 0 <= i < |host| ==> HostChar(host[i])
    ensures UrlText(QueryHostUrl(host))
  {
    FinePlain(QueryHostUrl(host));
    FineIsUrlText(QueryHostUrl(host));
  }

  /** Such a host is taken as it is written, not in lower case. */
  lemma QueryHostStays(pl: Platform, host: string)
    requires Sound(pl) && HostOk(pl, host, Local) && |host| <= 253
    ensures ParseUrl(pl, QueryHostUrl(host), Local, "") ==
            Some(Connection(Local, host, 5432, "d", "a", "b", "prefer", "", 10))
  {
    hide HostOk, UrlText, RawOf, QueryHostUrl, DatabaseName, Timeout, ToNat, Sound;
    HostChars(pl, host, Local);
    QueryHostText(host);
    QueryHostRaw(pl, host);
    QueryHostDefaults();
  }

  lemma QueryHostRaw(pl: Platform, host: string)
    requires Sound(pl) && forall i :: 0 <= i < |host| ==> HostChar(host[i])
    ensures RawOf(pl, QueryHostUrl(host)) ==
            Some(Raw("postgresql", "d", Some("a"), Some("b"), None, None, map["host" := host]))
  {
    hide UrlSplit, NetOf, Split, PairsOf, Params, Decode, QueryHostUrl, Sound;
    QueryHostParts(host);
    QueryHostNet();
    QueryHostParams(pl, host);
    PlainDecode(pl, "d");
    PlainDecode(pl, "a");
    PlainDecode(pl, "b");
    assert "/d"[1..] == "d";
  }

  lemma QueryHostParts(host: string)
    ensures UrlSplit(QueryHostUrl(host)) == Some(Parts("postgresql", "a:b@", "/d", "host=" + host))
  {
    hide UrlSplit;
    SchemeWord();
    SplitBack("postgresql", "a:b@", "/d", "host=" + host);
  }

  lemma QueryHostDefaults()
    ensures DatabaseName("d") && Timeout("10") && ToNat("10") == 10
  {
    assert Lower("d") == "d";
  }

  /** So parsing can return an upper-case host, and then printing it and parsing again gives another connection. */
  lemma UpperCaseHost(pl: Platform)
    requires Sound(pl) && pl.address("LOCALHOST") == None
    ensures var parsed := ParseUrl(pl, QueryHostUrl("LOCALHOST"), Local, "");
            && parsed.Some? && Printable(parsed.value) && parsed.value.host == "LOCALHOST"
            && ParseUrl(pl, Uri(parsed.value), Local, "") != parsed
  {
    hide ParseUrl, Uri, QueryHostUrl, HostOk;
    UpperCaseOk(pl);
    QueryHostStays(pl, "LOCALHOST");
    ParsePrintParse(pl, QueryHostUrl("LOCALHOST"), Local, "");
  }

  lemma UpperCaseOk(pl: Platform)
    requires pl.address("LOCALHOST") == None
    ensures HostOk(pl, "LOCALHOST", Local) && Lower("LOCALHOST") == "localhost" != "LOCALHOST"
  {
    hide HostName, Lower;
    LowerLocal();
    UpperName();
    assert "localhost"[0] != "LOCALHOST"[0];
  }

  lemma LowerLocal()
    ensures Lower("LOCALHOST") == "localhost"
  {
  }

  lemma UpperName()
    ensures HostName("LOCALHOST")
  {
    hide Split;
    SplitPlain("LOCALHOST", '.');
  }
}
