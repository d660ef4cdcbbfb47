/** Numbers as text: `%d`, `%0wd` and fixed-width hexadecimal.

Keys embed block numbers, log indexes, token ids, country codes and addresses as text. The
text determines the number, contains no separator, and zero padding makes text order and
numeric order coincide as long as the number fits the width.
*/
module Numerals {
  import opened KeyOrder

  predicate IsDigit(c: char) { '0' <= c <= '9' }

  predicate AllDigits(s: string) { forall i :: 0 <= i < |s| ==> IsDigit(s[i]) }

  function Digit(d: nat): (c: char)
    requires d < 10
    ensures IsDigit(c) && c as int == '0' as int + d
  {
    ('0' as int + d) as char
  }

  /** `%0wd`: at least `w` decimal digits, padded with zeros on the left. */
  function Padded(n: nat, w: nat): (s: string)
    ensures s != [] && AllDigits(s)
    decreases n + w
  {
    if n < 10 && w <= 1 then [Digit(n)]
    else Padded(n / 10, if w == 0 then 0 else w - 1) + [Digit(n % 10)]
  }

  /** `%d`. */
  function Decimal(n: nat): (s: string)
    ensures s != [] && AllDigits(s)
  {
    Padded(n, 1)
  }

  /** The number a digit string stands for. */
  function Number(s: string): nat
    requires AllDigits(s)
  {
    if s == [] then 0
    else 10 * Number(s[..|s| - 1]) + (s[|s| - 1] as int - '0' as int)
  }

  /** Reading the text back gives the number, whatever the width. */
  lemma {:induction false} PaddedRoundTrip(n: nat, w: nat)
    ensures Number(Padded(n, w)) == n
    decreases n + w
  {
    var s := Padded(n, w);
    if n < 10 && w <= 1 {
      assert s[..|s| - 1] == [];
    } else {
      var v := if w == 0 then 0 else w - 1;
      PaddedRoundTrip(n / 10, v);
      assert s[..|s| - 1] == Padded(n / 10, v);
    }
  }

  function Pow10(w: nat): nat {
    if w == 0 then 1 else 10 * Pow10(w - 1)
  }

  /** A number that fits is printed with exactly the requested width. */
  lemma {:induction false} PaddedWidth(n: nat, w: nat)
    requires 1 <= w && n < Pow10(w)
    ensures |Padded(n, w)| == w
  {
    if w > 1 { PaddedWidth(n / 10, w - 1); }
  }

  /** A number that does not fit is printed with more digits. */
  lemma {:induction false} PaddedTooWide(n: nat, w: nat)
    requires n >= Pow10(w)
    ensures |Padded(n, w)| > w
    decreases n + w
  {
    if w >= 1 && (n >= 10 || w > 1) {
      PaddedTooWide(n / 10, w - 1);
    }
  }

  /** Texts of one width sort as their numbers do. */
  lemma {:induction false} SameWidthOrder(s: string, t: string)
    requires AllDigits(s) && AllDigits(t) && |s| == |t|
    ensures Less(s, t) <==> Number(s) < Number(t)
    decreases |s|
  {
    if s != [] {
      var m := |s| - 1;
      SameWidthOrder(s[..m], t[..m]);
      SameWidthOrder(t[..m], s[..m]);
      LessTotal(s[..m], t[..m]);
      LessOnLast(s[..m], t[..m], s[m], t[m]);
      assert s == s[..m] + [s[m]] && t == t[..m] + [t[m]];
    }
  }

  lemma {:induction false} LessOnLast(a: string, b: string, x: char, y: char)
    requires |a| == |b|
    ensures Less(a + [x], b + [y]) <==> Less(a, b) || (a == b && x < y)
  {
    if a != [] {
      LessOnLast(a[1..], b[1..], x, y);
      assert (a + [x])[1..] == a[1..] + [x] && (b + [y])[1..] == b[1..] + [y];
      assert a == [a[0]] + a[1..] && b == [b[0]] + b[1..];
    }
  }

  /** Equal-length heads decide the order before the tails are looked at. */
  lemma {:induction false} LessOnHead(a: string, b: string, x: string, y: string)
    requires |a| == |b|
    ensures Less(a + x, b + y) <==> Less(a, b) || (a == b && Less(x, y))
  {
    if a == [] {
      assert a + x == x && b + y == y;
    } else {
      LessOnHead(a[1..], b[1..], x, y);
      assert (a + x)[1..] == a[1..] + x && (b + y)[1..] == b[1..] + y;
      assert a == [a[0]] + a[1..] && b == [b[0]] + b[1..];
    }
  }

  /** A separator that does not occur in the first part makes a joined text unambiguous. */
  lemma {:induction false} SplitUnique(a: string, b: string, x: string, y: string)
    requires ':' !in a && ':' !in b
    requires a + ":" + x == b + ":" + y
    ensures a == b && x == y
  {
    var s, t := a + ":" + x, b + ":" + y;
    assert s[|a|] == ':' && t[|b|] == ':';
    assert forall i :: 0 <= i < |a| ==> s[i] == a[i] != ':';
    assert forall i :: 0 <= i < |b| ==> t[i] == b[i] != ':';
    assert |a| == |b|;
    assert a == s[..|a|] == t[..|b|] == b;
    assert x == s[|a| + 1..] == t[|b| + 1..] == y;
  }

  lemma {:induction false} PaddedInjective(m: nat, n: nat, w: nat)
    requires Padded(m, w) == Padded(n, w)
    ensures m == n
  {
    PaddedRoundTrip(m, w);
    PaddedRoundTrip(n, w);
  }

  // ---------- hexadecimal ----------

  function HexDigit(d: nat): (c: char)
    requires d < 16
    ensures c != ':'
    ensures c as int == if d < 10 then '0' as int + d else 'a' as int + d - 10
  {
    if d < 10 then Digit(d) else ('a' as int + (d - 10)) as char
  }

  function Pow16(w: nat): (p: nat)
    ensures p > 0
  {
    if w == 0 then 1 else 16 * Pow16(w - 1)
  }

  lemma {:induction false} Pow16Sum(v: nat, w: nat)
    ensures Pow16(v + w) == Pow16(v) * Pow16(w)
  {
    if v > 0 {
      Pow16Sum(v - 1, w);
      Grouped(16, Pow16(v - 1), Pow16(w));
    }
  }

  lemma Grouped(a: nat, b: nat, c: nat)
    ensures (a * b) * c == a * (b * c)
  {
  }

  /** Exactly `w` hexadecimal digits. */
  function HexDigits(n: nat, w: nat): (s: string)
    ensures |s| == w && ':' !in s
  {
    if w == 0 then [] else HexDigits(n / 16, w - 1) + [HexDigit(n % 16)]
  }

  /** Numbers that fit are told apart by their digits. */
  lemma {:induction false} HexInjective(m: nat, n: nat, w: nat)
    requires m < Pow16(w) && n < Pow16(w)
    requires HexDigits(m, w) == HexDigits(n, w)
    ensures m == n
  {
    if w > 0 {
      var s, t := HexDigits(m, w), HexDigits(n, w);
      assert s[..w - 1] == HexDigits(m / 16, w - 1) && t[..w - 1] == HexDigits(n / 16, w - 1);
      assert s[w - 1] == HexDigit(m % 16) && t[w - 1] == HexDigit(n % 16);
      HexInjective(m / 16, n / 16, w - 1);
      assert m == 16 * (m / 16) + m % 16 && n == 16 * (n / 16) + n % 16;
    }
  }

  /** The number a text of hexadecimal digits stands for. */
  function HexNumber(s: string): nat {
    if s == [] then 0 else 16 * HexNumber(s[..|s| - 1]) + HexValue(s[|s| - 1])
  }

  function HexValue(c: char): nat {
    if '0' <= c <= '9' then c as nat - '0' as nat
    else if 'a' <= c <= 'f' then 10 + c as nat - 'a' as nat
    else 0
  }

  lemma {:induction false} HexRoundTrip(n: nat, w: nat)
    requires n < Pow16(w)
    ensures HexNumber(HexDigits(n, w)) == n
  {
    if w > 0 {
      HexRoundTrip(n / 16, w - 1);
      assert HexDigits(n, w)[..w - 1] == HexDigits(n / 16, w - 1);
    }
  }
}
