// Python text helpers: `split`, `join`, decimal numerals, and the ordering of tuples and strings.

module Texts {

  // ----- White space -----

  /** What `isspace` says of an ASCII character. */
  predicate White(c: char) {
    '\t' <= c <= '\r' || '\U{1c}' <= c <= ' '
  }

  /** The same for any character: those that `strip` removes. */
  predicate Space(c: char) {
    || White(c) || c == '\U{85}' || c == '\U{a0}' || c == '\U{1680}' || '\U{2000}' <= c <= '\U{200a}'
    || c == '\U{2028}' || c == '\U{2029}' || c == '\U{202f}' || c == '\U{205f}' || c == '\U{3000}'
  }

  /** The same by their codes. */
  lemma SpaceCodes(c: char)
    ensures White(c) <==> c as int in {9, 10, 11, 12, 13, 28, 29, 30, 31, 32}
    ensures Space(c) <==>
            White(c) || c as int in {133, 160, 5760, 8192, 8193, 8194, 8195, 8196, 8197, 8198, 8199, 8200, 8201, 8202,
                                     8232, 8233, 8239, 8287, 12288}
  {
  }

  // ----- Splitting and joining -----

  /** `text.split(sep)` for a one-character separator: always at least one part. */
  function Split(text: string, sep: char): (parts: seq<string>)
    ensures parts != []
  {
    if text == "" then [""]
    else
      var rest := Split(text[1..], sep);
      if text[0] == sep then [""] + rest else [[text[0]] + rest[0]] + rest[1..]
  }

  function Join(parts: seq<string>, sep: char): string
    requires parts != []
  {
    if |parts| == 1 then parts[0] else parts[0] + [sep] + Join(parts[1..], sep)
  }

  lemma {:induction false} JoinSplit(text: string, sep: char)
    ensures Join(Split(text, sep), sep) == text
    ensures forall part :: part in Split(text, sep) ==> sep !in part
  {
    if text != "" {
      JoinSplit(text[1..], sep);
      var rest := Split(text[1..], sep);
      if text[0] == sep {
        assert ([""] + rest)[1..] == rest;
      } else {
        var first := [text[0]] + rest[0];
        assert ([first] + rest[1..])[1..] == rest[1..];
        assert rest[0] in rest;
        forall part | part in [first] + rest[1..] ensures sep !in part {
          assert part == first || part in rest;
        }
      }
    }
  }

  lemma {:induction false} SplitPlain(text: string, sep: char)
    requires sep !in text
    ensures Split(text, sep) == [text]
  {
    if text != "" {
      SplitPlain(text[1..], sep);
      assert text[0] in text && text == [text[0]] + text[1..];
    }
  }

  lemma {:induction false} SplitAtSeparator(head: string, sep: char, tail: string)
    requires sep !in head
    ensures Split(head + [sep] + tail, sep) == [head] + Split(tail, sep)
  {
    var text := head + [sep] + tail;
    if head == "" {
      assert text[1..] == tail;
    } else {
      assert text[1..] == head[1..] + [sep] + tail;
      SplitAtSeparator(head[1..], sep, tail);
      assert head[0] in head;
      assert [head[0]] + head[1..] == head;
      assert ([head[1..]] + Split(tail, sep))[1..] == Split(tail, sep);
    }
  }

  lemma {:induction false} SplitJoin(parts: seq<string>, sep: char)
    requires parts != [] && forall part :: part in parts ==> sep !in part
    ensures Split(Join(parts, sep), sep) == parts
  {
    if |parts| == 1 {
      SplitPlain(parts[0], sep);
    } else {
      SplitJoin(parts[1..], sep);
      SplitAtSeparator(parts[0], sep, Join(parts[1..], sep));
      assert parts == [parts[0]] + parts[1..];
    }
  }

  // ----- Decimal numerals -----

  predicate Digit(c: char) {
    '0' <= c <= '9'
  }

  /** `text.isdigit()` on ASCII text. */
  predicate AllDigits(text: string) {
    text != "" && forall i :: 0 <= i < |text| ==> Digit(text[i])
  }

  /** `0|[1-9][0-9]*`. */
  predicate Numeral(text: string) {
    AllDigits(text) && (|text| == 1 || text[0] != '0')
  }

  function Value(digit: char): nat
    requires Digit(digit)
  {
    digit as nat - '0' as nat
  }

  function ToNat(text: string): nat
    requires forall i :: 0 <= i < |text| ==> Digit(text[i])
  {
    if text == "" then 0 else 10 * ToNat(text[..|text| - 1]) + Value(text[|text| - 1])
  }

  function FromNat(n: nat): string {
    if n < 10 then [('0' as nat + n) as char] else FromNat(n / 10) + [('0' as nat + n % 10) as char]
  }

  lemma {:induction false} FromNatMeaning(n: nat)
    ensures Numeral(FromNat(n)) && ToNat(FromNat(n)) == n
    ensures n > 0 ==> FromNat(n)[0] != '0'
  {
    if n < 10 {
      assert FromNat(n)[..0] == "";
    } else {
      FromNatMeaning(n / 10);
      var s := FromNat(n / 10);
      assert FromNat(n)[..|s|] == s;
    }
  }

  lemma {:induction false} AppendDigit(n: nat, digit: char)
    requires n > 0 && Digit(digit)
    ensures FromNat(10 * n + Value(digit)) == FromNat(n) + [digit]
  {
    var all := 10 * n + Value(digit);
    assert all / 10 == n && all % 10 == Value(digit);
  }

  lemma {:induction false} ToNatMeaning(text: string)
    requires Numeral(text)
    ensures FromNat(ToNat(text)) == text
    ensures text[0] != '0' ==> ToNat(text) > 0
  {
    var k := |text| - 1;
    var last := Value(text[k]);
    if k == 0 {
      assert ToNat(text) == last by {
        assert text[..0] == "";
      }
    } else {
      ToNatMeaning(text[..k]);
      assert ToNat(text) == 10 * ToNat(text[..k]) + last;
      AppendDigit(ToNat(text[..k]), text[k]);
      assert text == text[..k] + [text[k]];
    }
  }

  // ----- Orders -----

  ghost predicate StrictTotal<T(!new)>(less: (T, T) -> bool) {
    && (forall x :: !less(x, x))
    && (forall x, y, z :: less(x, y) && less(y, z) ==> less(x, z))
    && (forall x, y :: x == y || less(x, y) || less(y, x))
  }

  /** Python's order on tuples and strings: the first difference decides, and a proper prefix is smaller. */
  predicate Lex<T(==)>(less: (T, T) -> bool, a: seq<T>, b: seq<T>) {
    b != [] && (a == [] || less(a[0], b[0]) || (a[0] == b[0] && Lex(less, a[1..], b[1..])))
  }

  /** Both start with the same `i` items, and then `a` ends or has the smaller item. */
  ghost predicate DiffersAt<T>(less: (T, T) -> bool, a: seq<T>, b: seq<T>, i: nat) {
    i <= |a| && i < |b| && a[..i] == b[..i] && (i == |a| || less(a[i], b[i]))
  }

  ghost predicate Before<T(!new)>(less: (T, T) -> bool, a: seq<T>, b: seq<T>) {
    exists i: nat :: DiffersAt(less, a, b, i)
  }

  lemma {:induction false} LexMeaning<T(!new)>(less: (T, T) -> bool, a: seq<T>, b: seq<T>)
    ensures Lex(less, a, b) <==> Before(less, a, b)
  {
    if a == [] || b == [] || less(a[0], b[0]) {
      assert b != [] ==> DiffersAt(less, a, b, 0);
    } else if a[0] == b[0] {
      LexMeaning(less, a[1..], b[1..]);
      if i: nat :| DiffersAt(less, a[1..], b[1..], i) {
        assert a[..i + 1] == [a[0]] + a[1..][..i] && b[..i + 1] == [b[0]] + b[1..][..i];
        assert DiffersAt(less, a, b, i + 1);
      }
      if i: nat :| DiffersAt(less, a, b, i) && i > 0 {
        DiffersLater(less, a, b, i);
      }
    } else {
      forall i: nat ensures !DiffersAt(less, a, b, i) {
        if DiffersAt(less, a, b, i) && i > 0 {
          DiffersLater(less, a, b, i);
        }
      }
    }
  }

  lemma DiffersLater<T(!new)>(less: (T, T) -> bool, a: seq<T>, b: seq<T>, i: nat)
    requires DiffersAt(less, a, b, i) && i > 0
    ensures a != [] && a[0] == b[0] && DiffersAt(less, a[1..], b[1..], i - 1)
  {
    assert a[..i][0] == b[..i][0];
    assert a[1..][..i - 1] == a[..i][1..] && b[1..][..i - 1] == b[..i][1..];
  }

  lemma {:induction false} LexIrreflexive<T(!new)>(less: (T, T) -> bool, a: seq<T>)
    requires StrictTotal(less)
    ensures !Lex(less, a, a)
  {
    if a != [] {
      LexIrreflexive(less, a[1..]);
    }
  }

  lemma {:induction false} LexTransitive<T(!new)>(less: (T, T) -> bool, a: seq<T>, b: seq<T>, c: seq<T>)
    requires StrictTotal(less) && Lex(less, a, b) && Lex(less, b, c)
    ensures Lex(less, a, c)
  {
    if a != [] && a[0] == b[0] == c[0] {
      LexTransitive(less, a[1..], b[1..], c[1..]);
    }
  }

  lemma {:induction false} LexTotal<T(!new)>(less: (T, T) -> bool, a: seq<T>, b: seq<T>)
    requires StrictTotal(less)
    ensures a == b || Lex(less, a, b) || Lex(less, b, a)
  {
    if a != [] && b != [] && a[0] == b[0] {
      LexTotal(less, a[1..], b[1..]);
      assert a == [a[0]] + a[1..] && b == [b[0]] + b[1..];
    }
  }

  lemma LexStrictTotal<T(!new)>(less: (T, T) -> bool)
    requires StrictTotal(less)
    ensures StrictTotal((a, b) => Lex(less, a, b))
  {
    forall a ensures !Lex(less, a, a) {
      LexIrreflexive(less, a);
    }
    forall a, b, c | Lex(less, a, b) && Lex(less, b, c) ensures Lex(less, a, c) {
      LexTransitive(less, a, b, c);
    }
    forall a, b ensures a == b || Lex(less, a, b) || Lex(less, b, a) {
      LexTotal(less, a, b);
    }
  }
}
