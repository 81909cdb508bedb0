// Percent-encoding (section 2.1 of RFC 3986) and the query form on top of it, on text as its
// UTF-8 bytes: every character here stands for one byte.

module Encoding {
  import opened Texts

  predicate Bytes(s: string) {
    forall i :: 0 <= i < |s| ==> s[i] < '\U{100}'
  }

  predicate Alnum(c: char) {
    Digit(c) || 'A' <= c <= 'Z' || 'a' <= c <= 'z'
  }

  /** Section 2.3 of RFC 3986. */
  predicate Unreserved(c: char) {
    Alnum(c) || c == '-' || c == '.' || c == '_' || c == '~'
  }

  const HEX_DIGITS: string := "0123456789ABCDEF"

  function HexChar(n: nat): char
    requires n < 16
  {
    HEX_DIGITS[n]
  }

  predicate HexDigit(c: char) {
    Digit(c) || 'A' <= c <= 'F' || 'a' <= c <= 'f'
  }

  function HexValue(c: char): (n: nat)
    requires HexDigit(c)
    ensures n < 16
  {
    if Digit(c) then c as nat - '0' as nat else if c <= 'F' then c as nat - 'A' as nat + 10
      else c as nat - 'a' as nat + 10
  }

  /** One byte as `quote` writes it. */
  function Escape(c: char): string
    requires c < '\U{100}'
  {
    if Unreserved(c) then [c] else ['%', HexChar(c as nat / 16), HexChar(c as nat % 16)]
  }

  /** `quote(s, safe='')`. */
  function Quote(s: string): string
    requires Bytes(s)
  {
    if s == "" then "" else Escape(s[0]) + Quote(s[1..])
  }

  predicate Escaped(s: string) {
    |s| >= 3 && s[0] == '%' && HexDigit(s[1]) && HexDigit(s[2])
  }

  /** `unquote`: an escape becomes its byte, anything else stays. */
  function Unquote(s: string): string {
    if s == "" then ""
    else if Escaped(s) then [(16 * HexValue(s[1]) + HexValue(s[2])) as char] + Unquote(s[3..])
    else [s[0]] + Unquote(s[1..])
  }

  /** No percent sign without two hexadecimal digits behind it. */
  predicate GoodEscapes(s: string) {
    forall i :: 0 <= i < |s| && s[i] == '%' ==> i + 2 < |s| && HexDigit(s[i + 1]) && HexDigit(s[i + 2])
  }

  /** Only unreserved characters and escapes. */
  predicate Token(s: string) {
    forall i :: 0 <= i < |s| ==> Unreserved(s[i]) || s[i] == '%'
  }

  lemma EscapeMeaning(c: char, tail: string)
    requires c < '\U{100}'
    ensures Unquote(Escape(c) + tail) == [c] + Unquote(tail)
    ensures Token(Escape(c)) && GoodEscapes(Escape(c))
  {
    var s := Escape(c) + tail;
    if Unreserved(c) {
      assert s[0] == c && s[1..] == tail;
    } else {
      var h, l := c as nat / 16, c as nat % 16;
      assert s[0] == '%' && s[1] == HexChar(h) && s[2] == HexChar(l) && s[3..] == tail;
      HexBack(h);
      HexBack(l);
    }
  }

  lemma HexBack(n: nat)
    requires n < 16
    ensures HexDigit(HexChar(n)) && HexValue(HexChar(n)) == n
  {
  }

  /** Decoding undoes encoding, for every text. */
  lemma {:induction false} UnquoteQuote(s: string)
    requires Bytes(s)
    ensures Unquote(Quote(s)) == s && Token(Quote(s)) && GoodEscapes(Quote(s))
  {
    if s != "" {
      UnquoteQuote(s[1..]);
      EscapeMeaning(s[0], Quote(s[1..]));
      GoodJoined(Escape(s[0]), Quote(s[1..]));
    }
  }

  lemma GoodJoined(a: string, b: string)
    requires GoodEscapes(a) && GoodEscapes(b)
    ensures GoodEscapes(a + b)
  {
    forall i | 0 <= i < |a + b| && (a + b)[i] == '%'
      ensures i + 2 < |a + b| && HexDigit((a + b)[i + 1]) && HexDigit((a + b)[i + 2]) {
      if i < |a| {
        assert a[i] == '%';
      } else {
        assert b[i - |a|] == '%';
      }
    }
  }

  lemma {:induction false} QuotePlain(s: string)
    requires forall i :: 0 <= i < |s| ==> Unreserved(s[i])
    ensures Bytes(s) && Quote(s) == s
  {
    if s != "" {
      QuotePlain(s[1..]);
      assert s == [s[0]] + s[1..];
    }
  }

  /** How a byte is written: letters, digits and four marks stay, and anything else is a percent sign and two upper-case
      hexadecimal digits. */
  lemma EscapeForm(c: char)
    requires c < '\U{100}'
    ensures if 'A' <= c <= 'Z' || 'a' <= c <= 'z' || '0' <= c <= '9' || c == '-' || c == '.' || c == '_' || c == '~'
            then Escape(c) == [c]
            else exists h, l :: 0 <= h < 16 && 0 <= l < 16 && c as int == 16 * h + l
                   && Escape(c) == "%" + ["0123456789ABCDEF"[h]] + ["0123456789ABCDEF"[l]]
  {
    if !Unreserved(c) {
      var h, l := c as int / 16, c as int % 16;
      assert c as int == 16 * h + l && HexChar(h) == "0123456789ABCDEF"[h] && HexChar(l) == "0123456789ABCDEF"[l];
      assert Escape(c) == "%" + ["0123456789ABCDEF"[h]] + ["0123456789ABCDEF"[l]];
    }
  }

  /** Both cases of a hexadecimal digit are read, each as its value. */
  lemma HexValueForm(c: char)
    ensures HexDigit(c) <==> exists n :: 0 <= n < 16 && (c == "0123456789ABCDEF"[n] || c == "0123456789abcdef"[n])
    ensures HexDigit(c) ==> c == "0123456789ABCDEF"[HexValue(c)] || c == "0123456789abcdef"[HexValue(c)]
  {
    if HexDigit(c) {
      assert c == "0123456789ABCDEF"[HexValue(c)] || c == "0123456789abcdef"[HexValue(c)];
    }
  }

  // ----- Queries -----

  function Swapped(s: string, from: char, to: char): string {
    if s == "" then "" else [if s[0] == from then to else s[0]] + Swapped(s[1..], from, to)
  }

  /** `quote_plus`: a space becomes a plus sign. */
  function QuotePlus(s: string): string
    requires Bytes(s)
  {
    if s == "" then "" else (if s[0] == ' ' then "+" else Escape(s[0])) + QuotePlus(s[1..])
  }

  function UnquotePlus(s: string): string {
    Unquote(Swapped(s, '+', ' '))
  }

  predicate FormToken(s: string) {
    forall i :: 0 <= i < |s| ==> Unreserved(s[i]) || s[i] == '%' || s[i] == '+'
  }

  lemma {:induction false} SwappedAt(s: string, from: char, to: char)
    ensures |Swapped(s, from, to)| == |s|
    ensures forall i :: 0 <= i < |s| ==> Swapped(s, from, to)[i] == if s[i] == from then to else s[i]
  {
    if s != "" {
      SwappedAt(s[1..], from, to);
      assert forall i :: 0 < i < |s| ==> s[i] == s[1..][i - 1];
    }
  }

  lemma SwappedJoined(a: string, b: string, from: char, to: char)
    ensures Swapped(a + b, from, to) == Swapped(a, from, to) + Swapped(b, from, to)
  {
    hide Swapped;
    SwappedAt(a, from, to);
    SwappedAt(b, from, to);
    SwappedAt(a + b, from, to);
  }

  lemma {:induction false} SwappedNone(s: string, from: char, to: char)
    requires from !in s
    ensures Swapped(s, from, to) == s
  {
    if s != "" {
      SwappedNone(s[1..], from, to);
      assert s[0] in s && s == [s[0]] + s[1..];
    }
  }

  lemma {:induction false} UnquotePlusQuotePlus(s: string)
    requires Bytes(s)
    ensures UnquotePlus(QuotePlus(s)) == s && FormToken(QuotePlus(s)) && GoodEscapes(QuotePlus(s))
  {
    if s != "" {
      UnquotePlusQuotePlus(s[1..]);
      PlusHead(s[0], QuotePlus(s[1..]));
      EscapeMeaning(s[0], "");
      GoodJoined(if s[0] == ' ' then "+" else Escape(s[0]), QuotePlus(s[1..]));
    }
  }

  lemma PlusHead(c: char, tail: string)
    requires c < '\U{100}'
    ensures UnquotePlus((if c == ' ' then "+" else Escape(c)) + tail) == [c] + UnquotePlus(tail)
  {
    var head, t := if c == ' ' then "+" else Escape(c), Swapped(tail, '+', ' ');
    SwappedJoined(head, tail, '+', ' ');
    EscapeMeaning(c, t);
    if c == ' ' {
      assert Swapped(head, '+', ' ') == " ";
      assert (" " + t)[1..] == t;
    } else {
      SwappedNone(head, '+', ' ');
    }
  }

  // ----- Partition -----

  /** `s.partition(c)`. */
  function Partition(s: string, c: char): (string, bool, string) {
    if s == "" then ("", false, "")
    else if s[0] == c then ("", true, s[1..])
    else
      var r := Partition(s[1..], c);
      ([s[0]] + r.0, r.1, r.2)
  }

  lemma {:induction false} PartitionAt(head: string, c: char, tail: string)
    requires c !in head
    ensures Partition(head + [c] + tail, c) == (head, true, tail)
  {
    var s := head + [c] + tail;
    if head == "" {
      assert s[1..] == tail;
    } else {
      assert head[0] in head && s[1..] == head[1..] + [c] + tail;
      PartitionAt(head[1..], c, tail);
      assert head == [head[0]] + head[1..];
    }
  }

  lemma {:induction false} PartitionNone(s: string, c: char)
    requires c !in s
    ensures Partition(s, c) == (s, false, "")
  {
    if s != "" {
      assert s[0] in s && s == [s[0]] + s[1..];
      PartitionNone(s[1..], c);
    }
  }
}
