// `parse_url` and `Connection.uri`: the restricted PostgreSQL URI, read and written.

module Uris {
  import opened Base
  import opened Texts
  import opened Encoding

  datatype Mode = Local | External

  datatype Connection = Connection(mode: Mode, host: string, port: nat, database: string, username: string,
    password: string,
                                   sslmode: string, caFile: string, timeout: nat)

  datatype Address = Address(unspecified: bool, multicast: bool, loopback: bool)

  /** What the parser asks of its surroundings: `ipaddress`, the UTF-8 decoder, and whether a CA file is acceptable. */
  datatype Platform = Platform(address: string -> Option<Address>, utf8: string -> bool, readable: string -> bool)

  /** An address without zone is written with hexadecimal digits, colons and dots; and ASCII text is UTF-8. */
  ghost predicate PlatformOk(pl: Platform) {
    && (forall h :: pl.address(h).Some? && '%' !in h ==> h != "" && forall i :: 0 <= i < |h| ==> AddressChar(h[i]))
    && (forall s :: Ascii(s) ==> pl.utf8(s))
  }

  predicate AddressChar(c: char) {
    HexDigit(c) || c == ':' || c == '.'
  }

  predicate Ascii(s: string) {
    forall i :: 0 <= i < |s| ==> s[i] < '\U{80}'
  }

  const MAX_URL: nat := 16384

  // ----- Checks on single values -----

  /** `_text`: no control characters. */
  predicate Clear(s: string) {
    forall i :: 0 <= i < |s| ==> s[i] >= ' ' && s[i] != '\U{7f}'
  }

  predicate Upper(c: char) {
    'A' <= c <= 'Z'
  }

  function LowerChar(c: char): char {
    if Upper(c) then ((c as nat) + 32) as char else c
  }

  function Lower(s: string): (r: string)
    ensures |r| == |s|
  {
    seq(|s|, i requires 0 <= i < |s| => LowerChar(s[i]))
  }

  predicate DatabaseName(s: string) {
    && 1 <= |s| <= 63 && !Digit(s[0]) && s[0] != '-'
    && (forall i :: 0 <= i < |s| ==> Alnum(s[i]) || s[i] == '_' || s[i] == '-')
    && Lower(s) !in {"postgres", "template0", "template1"}
  }

  predicate Label(s: string) {
    1 <= |s| <= 63 && s[0] != '-' && s[|s| - 1] != '-'
  }

  predicate HostName(s: string) {
    && 1 <= |s| <= 253 && Alnum(s[0]) && Alnum(s[|s| - 1])
    && (forall i :: 0 <= i < |s| ==> Alnum(s[i]) || s[i] == '.' || s[i] == '-')
    && (var labels := Split(s, '.'); forall k :: 0 <= k < |labels| ==> Label(labels[k]))
  }

  predicate HostOk(pl: Platform, host: string, mode: Mode) {
    var address := pl.address(host);
    var loop := (address.Some? && address.value.loopback) || Lower(host) == "localhost";
    && (host == "" || host[0] != '/')
    && (if address.Some? then !address.value.unspecified && !address.value.multicast && '%' !in host
      else HostName(host))
    && (loop <==> mode == Local)
  }

  const SSL_MODES := {"disable", "allow", "prefer", "require", "verify-ca", "verify-full"}

  predicate SslOk(mode: Mode, sslmode: string, caFile: string) {
    && sslmode in SSL_MODES && (mode == External ==> sslmode == "verify-full")
    && (caFile != "" ==> sslmode in {"verify-full", "verify-ca"})
  }

  /** The number of characters: bytes that do not continue one. */
  function Characters(s: string): nat {
    if s == "" then 0 else Characters(s[1..]) + if '\U{80}' <= s[0] < '\U{c0}' then 0 else 1
  }

  predicate CaOk(pl: Platform, caFile: string) {
    caFile != "" ==> Clear(caFile) && Characters(caFile) <= 4096 && caFile[0] == '/' && pl.readable(caFile)
  }

  predicate Timeout(s: string) {
    1 <= |s| <= 2 && AllDigits(s) && 1 <= ToNat(s) <= 30
  }

  // ----- Printing -----

  function HostText(host: string): string {
    if ':' in host then "[" + host + "]" else host
  }

  function Authority(c: Connection): string
    requires Bytes(c.username) && Bytes(c.password)
  {
    Quote(c.username) + ":" + Quote(c.password) + "@" + HostText(c.host) + ":" + FromNat(c.port)
  }

  function Fields(c: Connection): seq<(string, string)> {
    [("sslmode", c.sslmode), ("connect_timeout", FromNat(c.timeout))] + if c.caFile == "" then []
      else [("sslrootcert", c.caFile)]
  }

  predicate PairBytes(p: (string, string)) {
    Bytes(p.0) && Bytes(p.1)
  }

  function PairText(p: (string, string)): string
    requires PairBytes(p)
  {
    QuotePlus(p.0) + "=" + QuotePlus(p.1)
  }

  /** `urlencode`. */
  function Query(ps: seq<(string, string)>): string
    requires ps != [] && forall i :: 0 <= i < |ps| ==> PairBytes(ps[i])
  {
    Join(seq(|ps|, i requires 0 <= i < |ps| => PairText(ps[i])), '&')
  }

  predicate Printable(c: Connection) {
    Bytes(c.username) && Bytes(c.password) && Bytes(c.database) && Bytes(c.sslmode) && Bytes(c.caFile)
  }

  /** `Connection.uri`. */
  function Uri(c: Connection): string
    requires Printable(c)
  {
    NumbersAreBytes(c.timeout);
    "postgresql" + ":" + "//" + Authority(c) + ("/" + Quote(c.database) + "?" + Query(Fields(c)))
  }

  lemma NumbersAreBytes(n: nat)
    ensures Bytes(FromNat(n))
  {
    FromNatMeaning(n);
  }

  // ----- Parsing -----

  /** What `urlsplit` makes of the text. */
  datatype Parts = Parts(scheme: string, netloc: string, path: string, query: string)

  predicate SchemeText(s: string) {
    s != "" && Alnum(s[0]) && !Digit(s[0]) && forall i :: 0 <= i < |s| ==>
      Alnum(s[i]) || s[i] == '+' || s[i] == '-' || s[i] == '.'
  }

  /** The position of the first slash or question mark, or the length. */
  function AuthorityEnd(s: string): (k: nat)
    ensures k <= |s|
  {
    if s == "" || s[0] == '/' || s[0] == '?' then 0 else 1 + AuthorityEnd(s[1..])
  }

  /** `urlsplit` of a text without a hash; None is its error about brackets. */
  function UrlSplit(url: string): Option<Parts> {
    var colon := Partition(url, ':');
    var schemed := colon.1 && SchemeText(colon.0);
    var rest := if schemed then colon.2 else url;
    var hasNet := |rest| >= 2 && rest[..2] == "//";
    var k := if hasNet then 2 + AuthorityEnd(rest[2..]) else 0;
    var netloc := if hasNet then rest[2..k] else "";
    var q := Partition(rest[k..], '?');
    if ('[' in netloc) != (']' in netloc) then None
    else Some(Parts(if schemed then Lower(colon.0) else "", netloc, q.0, q.2))
  }

  /** The user, the password, the host and the port text of a network location with at most one at sign. */
  datatype Net = Net(username: Option<string>, password: Option<string>, host: string, port: string)

  function NetOf(netloc: string): Net {
    var at := Partition(netloc, '@');
    var info := if at.1 then at.2 else netloc;
    var user := Partition(at.0, ':');
    var bracket := Partition(info, '[');
    var inside := Partition(bracket.2, ']');
    var host := if bracket.1 then inside.0 else Partition(info, ':').0;
    var port := if bracket.1 then Partition(inside.2, ':').2 else Partition(info, ':').2;
    Net(if at.1 then Some(user.0) else None, if at.1 && user.1 then Some(user.2) else None, LowerHost(host), port)
  }

  /** `hostname`: lower case, except behind a percent sign. */
  function LowerHost(host: string): string {
    var zone := Partition(host, '%');
    if zone.1 then Lower(zone.0) + "%" + zone.2 else Lower(host)
  }

  /** `port`: None for no port; an error for text that is no port number. */
  function PortOf(text: string): Option<Option<nat>> {
    if text == "" then Some(None)
    else if AllDigits(text) && ToNat(text) <= 65535 then Some(Some(ToNat(text)))
    else None
  }

  /** `_decode`. */
  function Decode(pl: Platform, s: string): Option<string> {
    var d := Unquote(s);
    if pl.utf8(d) && Clear(d) then Some(d) else None
  }

  function PairOf(pl: Platform, text: string): Option<(string, string)> {
    var eq := Partition(text, '=');
    var key, value := UnquotePlus(eq.0), UnquotePlus(eq.2);
    if eq.1 && pl.utf8(key) && pl.utf8(value) then Some((key, value)) else None
  }

  /** `parse_qsl` with strict parsing. */
  function PairsOf(pl: Platform, texts: seq<string>): Option<seq<(string, string)>> {
    if texts == [] then Some([]) else
      var first, rest := PairOf(pl, texts[0]), PairsOf(pl, texts[1..]);
      if first.None? || rest.None? then None else Some([first.value] + rest.value)
  }

  const PARAMETERS := {"sslmode", "sslrootcert", "connect_timeout", "host", "port", "user"}

  /** The dictionary of parameters: known ones, each once, without control characters. */
  function Params(pairs: seq<(string, string)>): Option<map<string, string>> {
    if pairs == [] then Some(map[]) else
      var before, p := Params(pairs[..|pairs| - 1]), pairs[|pairs| - 1];
      if before.None? || !Clear(p.0) || !Clear(p.1) || p.0 in before.value || p.0 !in PARAMETERS then None
      else Some(before.value[p.0 := p.1])
  }

  /** The loop over the parameters. */
  method ReadParams(pairs: seq<(string, string)>) returns (query: Option<map<string, string>>)
    ensures query == Params(pairs)
  {
    var found: map<string, string> := map[];
    for i := 0 to |pairs|
      invariant Params(pairs[..i]) == Some(found)
    {
      assert pairs[..i + 1][..i] == pairs[..i];
      var p := pairs[i];
      if !Clear(p.0) || !Clear(p.1) || p.0 in found || p.0 !in PARAMETERS {
        ParamsStop(pairs, i + 1, |pairs|);
        assert pairs[..|pairs|] == pairs;
        return None;
      }
      found := found[p.0 := p.1];
    }
    assert pairs[..|pairs|] == pairs;
    query := Some(found);
  }

  lemma {:induction false} ParamsStop(pairs: seq<(string, string)>, i: nat, k: nat)
    requires i <= k <= |pairs| && Params(pairs[..i]).None?
    ensures Params(pairs[..k]).None?
  {
    if i < k {
      ParamsStop(pairs, i, k - 1);
      assert pairs[..k][..k - 1] == pairs[..k - 1];
    }
  }

  function GetOr(m: map<string, string>, key: string, otherwise: string): string {
    if key in m then m[key] else otherwise
  }

  /** The decoded values that the checks of `parse_url` look at. */
  datatype Raw = Raw(scheme: string, database: string, username: Option<string>, password: Option<string>,
                     host: Option<string>, port: Option<nat>, query: map<string, string>)

  function RawOf(pl: Platform, url: string): Option<Raw> {
    var parts := UrlSplit(url);
    if parts.None? then None else
      var net := NetOf(parts.value.netloc);
      var port, pairs := PortOf(net.port), PairsOf(pl, Split(parts.value.query, '&'));
      if port.None? || pairs.None? || |Split(parts.value.netloc, '@')| > 2 then None else
        var path := parts.value.path;
        var query := Params(pairs.value);
        var database := if path != "" && path[0] == '/' then Decode(pl, path[1..]) else Some("");
        var username := if net.username.Some? then Decode(pl, net.username.value) else Some("");
        var password := if net.password.Some? then Decode(pl, net.password.value) else Some("");
        var host := Decode(pl, net.host);
        if query.None? || database.None? || username.None? || password.None? || (net.host != "" && host.None?) then None
        else Some(Raw(parts.value.scheme, database.value, if net.username.Some? then username else None,
                      if net.password.Some? then password else None, if net.host != "" then host else None, port.value,
                        query.value))
  }

  predicate UrlText(url: string) {
    && url != "" && Bytes(url) && |url| <= MAX_URL && Clear(url) && '#' !in url && GoodEscapes(url)
    && forall i :: 0 <= i < |url| ==> !White(url[i])
  }

  /** The port number: from the location or from the query, never from both, and 5432 when there is none. */
  function PortNumber(raw: Raw): Option<nat> {
    var text := GetOr(raw.query, "port", "");
    if "port" in raw.query then
      if raw.host.Some? || raw.port.Some? || !(1 <= |text| <= 5) || !AllDigits(text) then None else Some(ToNat(text))
    else Some(if raw.port.Some? then raw.port.value else 5432)
  }

  /** The checks of `parse_url` and the connection they let through. */
  function Build(pl: Platform, mode: Mode, caArgument: string, raw: Raw): Option<Connection> {
    var username := if raw.username.Some? then raw.username.value else GetOr(raw.query, "user", "");
    var host := if raw.host.Some? then raw.host.value else GetOr(raw.query, "host", "");
    var port := PortNumber(raw);
    var sslmode, ca := GetOr(raw.query, "sslmode", "prefer"), GetOr(raw.query, "sslrootcert", "");
    var caFile := if caArgument != "" then caArgument else ca;
    var timeout := GetOr(raw.query, "connect_timeout", "10");
    if raw.scheme !in {"postgres", "postgresql"} || !DatabaseName(raw.database) then None
    else if username == "" || |username| > 63 || (raw.username.Some? && "user" in raw.query) then None
    else if raw.password.None? || raw.password.value == "" then None
    else if (raw.host.Some? && "host" in raw.query) || port.None? || !(1 <= port.value <= 65535) then None
    else if !HostOk(pl, host, mode) || (ca != "" && caArgument != "" && ca != caArgument) then None
    else if !SslOk(mode, sslmode, caFile) || !CaOk(pl, caFile) || !Timeout(timeout) then None
    else Some(Connection(mode, host, port.value, raw.database, username, raw.password.value, sslmode, caFile,
      ToNat(timeout)))
  }

  /** `parse_url`; None is any of its errors. */
  function ParseUrl(pl: Platform, url: string, mode: Mode, caArgument: string): Option<Connection> {
    if !UrlText(url) then None else
      match RawOf(pl, url)
      case None => None
      case Some(raw) => Build(pl, mode, caArgument, raw)
  }
}
