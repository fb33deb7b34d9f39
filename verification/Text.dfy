/** Text handling shared by the token format, the encrypted fields and the key preimages. */
module Text {
  import opened Wrappers

  /** Decimal digits of a number, as Rust's `{}` prints an unsigned integer. */
  function Decimal(n: nat): (s: string)
    ensures |s| > 0
    ensures forall k :: 0 <= k < |s| ==> '0' <= s[k] <= '9'
  {
    if n < 10 then ['0' + n as char] else Decimal(n / 10) + ['0' + (n % 10) as char]
  }

  lemma {:induction false} DecimalInjective(m: nat, n: nat)
    requires Decimal(m) == Decimal(n)
    ensures m == n
  {
    var a, b := Decimal(m), Decimal(n);
    assert a[|a| - 1] == '0' + (m % 10) as char;
    assert b[|b| - 1] == '0' + (n % 10) as char;
    assert m % 10 == n % 10;
    if m < 10 || n < 10 {
      assert |a| == 1 <==> m < 10;
      assert |b| == 1 <==> n < 10;
    } else {
      assert a[..|a| - 1] == Decimal(m / 10);
      assert b[..|b| - 1] == Decimal(n / 10);
      DecimalInjective(m / 10, n / 10);
    }
  }

  /** The number that a text of decimal digits stands for. */
  function Value(s: string): nat
    requires forall k :: 0 <= k < |s| ==> '0' <= s[k] <= '9'
  {
    if s == [] then 0 else 10 * Value(s[..|s| - 1]) + (s[|s| - 1] - '0') as nat
  }

  /** The digits stand for the number, without a leading zero. */
  lemma {:induction false} DecimalReads(n: nat)
    ensures Value(Decimal(n)) == n && (Decimal(n)[0] == '0' ==> n == 0)
  {
    var s := Decimal(n);
    if n < 10 {
      assert s[..0] == [];
    } else {
      DecimalReads(n / 10);
      assert s[..|s| - 1] == Decimal(n / 10);
    }
  }

  /** Decimal text of a signed integer. */
  function SignedDecimal(n: int): string {
    if n < 0 then "-" + Decimal(-n) else Decimal(n)
  }

  /** Everything before the first `c`, or the whole text. */
  function Head(s: string, c: char): (h: string)
    ensures c !in h
    ensures h <= s
    ensures |h| < |s| ==> s[|h|] == c
  {
    if s == [] || s[0] == c then [] else [s[0]] + Head(s[1..], c)
  }

  /** Rust's `split_once`: the text before and after the first `c`. */
  function SplitOnce(s: string, c: char): (r: Option<(string, string)>)
    ensures r.Some? <==> c in s
    ensures r.Some? ==> c !in r.value.0 && s == r.value.0 + [c] + r.value.1
  {
    var h := Head(s, c);
    if |h| < |s| then Some((h, s[|h| + 1..])) else
      assert h == s;
      None
  }

  /** Rust's `split`: the pieces between the separators. */
  function Split(s: string, c: char): (parts: seq<string>)
    ensures |parts| >= 1
    ensures forall k :: 0 <= k < |parts| ==> c !in parts[k]
    decreases |s|
  {
    var h := Head(s, c);
    if |h| < |s| then [h] + Split(s[|h| + 1..], c) else [s]
  }

  lemma HeadOfPiece(h: string, t: string, c: char)
    requires c !in h
    ensures Head(h, c) == h
    ensures Head(h + [c] + t, c) == h
  {
    if h == [] {
    } else {
      HeadOfPiece(h[1..], t, c);
      assert (h + [c] + t)[1..] == h[1..] + [c] + t;
    }
  }

  /** Two texts whose first pieces hold no separator agree on the pieces and on the rest. */
  lemma SplitUnique(a: string, s: string, b: string, t: string, c: char)
    requires c !in a && c !in b
    requires a + [c] + s == b + [c] + t
    ensures a == b && s == t
  {
    HeadOfPiece(a, s, c);
    HeadOfPiece(b, t, c);
    assert s == (a + [c] + s)[|a| + 1..];
    assert t == (b + [c] + t)[|b| + 1..];
  }

  lemma SplitOnceOfPieces(a: string, b: string, c: char)
    requires c !in a
    ensures SplitOnce(a + [c] + b, c) == Some((a, b))
  {
    HeadOfPiece(a, b, c);
    assert (a + [c] + b)[|a| + 1..] == b;
  }

  lemma SplitWhole(s: string, c: char)
    requires c !in s
    ensures Split(s, c) == [s]
  {
    HeadOfPiece(s, [], c);
  }

  lemma SplitFirst(h: string, rest: string, c: char)
    requires c !in h
    ensures Split(h + [c] + rest, c) == [h] + Split(rest, c)
  {
    HeadOfPiece(h, rest, c);
    assert (h + [c] + rest)[|h| + 1..] == rest;
  }

  lemma SplitOfThree(x: string, y: string, z: string, c: char)
    requires c !in x && c !in y && c !in z
    ensures Split(x + [c] + (y + [c] + z), c) == [x, y, z]
  {
    SplitFirst(x, y + [c] + z, c);
    SplitFirst(y, z, c);
    SplitWhole(z, c);
  }

  /** A text splits at its first separator, if it has one. */
  lemma SplitCases(s: string, c: char) returns (rest: string)
    ensures |Split(s, c)| == 1 ==> s == Split(s, c)[0]
    ensures |Split(s, c)| > 1 ==>
              && Split(s, c)[1..] == Split(rest, c)
              && s == Split(s, c)[0] + [c] + rest
  {
    var h := Head(s, c);
    rest := s;
    if |h| < |s| {
      rest := s[|h| + 1..];
      SplitFirst(h, rest, c);
      assert s == h + [c] + rest;
    } else {
      SplitWhole(s, c);
    }
  }

  /** Splitting into three pieces loses nothing but the two separators. */
  lemma SplitJoins(s: string, c: char)
    requires |Split(s, c)| == 3
    ensures var p := Split(s, c); s == p[0] + [c] + (p[1] + [c] + p[2])
  {
    var rest := SplitCases(s, c);
    var last := SplitCases(rest, c);
    var _ := SplitCases(last, c);
  }
}
