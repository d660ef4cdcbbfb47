/** The key space of the store.

Every row lives under a text key built from a namespace prefix and the identifying fields.
`Key` names a row by its fields and `Encode` builds its text. The main facts: two rows never
share a text although several namespaces are prefixes of others, the keys of a prefix scan are
exactly the intended rows, and keys that carry a position sort by position.
*/
module Keys {
  import opened KeyOrder
  import opened Numerals

  /** Token ids are decimal digit strings. */
  predicate IsToken(s: string) { s != "" && AllDigits(s) }

  type Token = s: string | IsToken(s) witness "0"

  /** Addresses are hexadecimal strings of fixed width, with no separator in them. */
  predicate IsAddr(s: string) { |s| == 42 && s[0] == '0' && s[1] == 'x' && ':' !in s }

  type Addr = s: string | IsAddr(s) witness "0x" + HexDigits(0, 40)

  /** A token id or an address that may be absent, the empty text standing for none. */
  type OptToken = s: string | s == "" || IsToken(s) witness ""
  type OptAddr = s: string | s == "" || IsAddr(s) witness ""

  datatype Key =
    | MetaKey(token: Token)
    | HolderKey(token: Token, addr: Addr)
    | HolderAddrKey(addr: Addr, token: Token)
    | EventKey(block: nat, index: nat)
    | CursorKey
    | GenericKey(block: nat, index: nat)
    | GeTokenKey(token: Token, block: nat, index: nat)
    | GeAddrKey(addr: Addr, block: nat, index: nat)
    | AssetKey(token: Token)
    | IdentityKey(wallet: Addr)
    | CountryKey(country: nat, wallet: Addr)
    | FreezeKey(wallet: Addr, scope: OptToken)
  {
    function Encode(): Bytes {
      match this
      case MetaKey(t) => "t:meta:" + t
      case HolderKey(t, a) => HolderPrefix(t) + a
      case HolderAddrKey(a, t) => HolderAddrPrefix(a) + t
      case EventKey(b, i) => EVENT_PREFIX + Position(b, i)
      case CursorKey => "cursor"
      case GenericKey(b, i) => GENERIC_PREFIX + Position(b, i)
      case GeTokenKey(t, b, i) => GeTokenPrefix(t) + Position(b, i)
      case GeAddrKey(a, b, i) => GeAddrPrefix(a) + Position(b, i)
      case AssetKey(t) => "a:meta:" + t
      case IdentityKey(w) => "i:" + w
      case CountryKey(c, w) => CountryPrefix(c) + w
      case FreezeKey(w, s) => "f:" + w + ":" + (if s == "" then "global" else s)
    }
  }

  const EVENT_PREFIX := "e:"
  const GENERIC_PREFIX := "ge:"

  function HolderPrefix(t: Token): Bytes { "t:holder:" + t + ":" }
  function HolderAddrPrefix(a: Addr): Bytes { "h:addr:" + a + ":" }
  function GeTokenPrefix(t: Token): Bytes { "ge:token:" + t + ":" }
  function GeAddrPrefix(a: Addr): Bytes { "ge:addr:" + a + ":" }
  function CountryPrefix(c: nat): Bytes { "i:country:" + Decimal(c) + ":" }

  const BLOCK_WIDTH := 12
  const INDEX_WIDTH := 6

  /** Block and log index as they appear at the end of a key. */
  function Position(block: nat, index: nat): Bytes {
    Padded(block, BLOCK_WIDTH) + ":" + Padded(index, INDEX_WIDTH)
  }

  // ---------- one row, one key ----------

  /** The texts of keys without a position. */
  lemma NameTexts(t: Token, a: Addr)
    ensures MetaKey(t).Encode() == "t:meta:" + t
    ensures HolderKey(t, a).Encode() == "t:holder:" + t + ":" + a
    ensures HolderAddrKey(a, t).Encode() == "h:addr:" + a + ":" + t
    ensures CursorKey.Encode() == "cursor"
    ensures AssetKey(t).Encode() == "a:meta:" + t
    ensures IdentityKey(a).Encode() == "i:" + a
    ensures FreezeKey(a, "").Encode() == "f:" + a + ":" + "global"
    ensures FreezeKey(a, t).Encode() == "f:" + a + ":" + t
  {
  }

  /** The texts of some keys with numbers in them. */
  lemma NumberTexts(t: Token, a: Addr)
    ensures EventKey(12, 345).Encode() == "e:" + "000000000012:000345"
    ensures GenericKey(12, 345).Encode() == "ge:" + "000000000012:000345"
    ensures GeTokenKey(t, 12, 345).Encode() == "ge:token:" + t + ":" + "000000000012:000345"
    ensures GeAddrKey(a, 12, 345).Encode() == "ge:addr:" + a + ":" + "000000000012:000345"
    ensures CountryKey(276, a).Encode() == "i:country:" + "276" + ":" + a
  {
    PositionText();
    SmallNumbers();
  }

  lemma PositionText()
    ensures Position(12, 345) == "000000000012:000345"
  {
    SmallNumbers();
    assert Padded(12, BLOCK_WIDTH) == "000000000012" && Padded(345, INDEX_WIDTH) == "000345";
  }

  lemma SmallNumbers()
    ensures Padded(12, 12) == "000000000012" && Padded(345, 6) == "000345" && Decimal(276) == "276"
  {
    PaddedZero(10);
    PaddedZero(3);
    assert Padded(1, 11) == Padded(0, 10) + "1" && Padded(12, 12) == Padded(1, 11) + "2";
    assert Padded(3, 4) == Padded(0, 3) + "3" && Padded(34, 5) == Padded(3, 4) + "4";
    assert Padded(345, 6) == Padded(34, 5) + "5";
    assert Padded(2, 0) == "2" && Padded(27, 0) == Padded(2, 0) + "7" && Padded(276, 1) == Padded(27, 0) + "6";
  }

  lemma {:induction false} PaddedZero(w: nat)
    requires w > 0
    ensures Padded(0, w) == seq(w, _ => '0')
  {
    if w > 1 { PaddedZero(w - 1); }
  }

  /** The namespace of a text, read off a few fixed characters. */
  function Namespace(s: Bytes): nat {
    if |s| < 4 then 0
    else match s[0]
      case 't' => if s[2] == 'm' then 1 else 2
      case 'h' => 3
      case 'e' => 4
      case 'c' => 5
      case 'g' => if s[3] == 't' then 7 else if s[3] == 'a' then 8 else 6
      case 'a' => 9
      case 'i' => if s[2] == 'c' then 11 else 10
      case 'f' => 12
      case _ => 0
  }

  lemma NamespaceOf(k: Key)
    ensures Namespace(k.Encode()) ==
      match k
      case MetaKey(_) => 1 case HolderKey(_, _) => 2 case HolderAddrKey(_, _) => 3
      case EventKey(_, _) => 4 case CursorKey => 5 case GenericKey(_, _) => 6
      case GeTokenKey(_, _, _) => 7 case GeAddrKey(_, _, _) => 8 case AssetKey(_) => 9
      case IdentityKey(_) => 10 case CountryKey(_, _) => 11 case FreezeKey(_, _) => 12
  {
    match k
    case EventKey(b, i) => assert IsDigit(Padded(b, 12)[0]);
    case GenericKey(b, i) => assert IsDigit(Padded(b, 12)[0]);
    case _ =>
  }

  lemma NoSeparator(s: string)
    requires AllDigits(s)
    ensures ':' !in s
  {
  }

  /** The position text determines block and log index, even beyond the padded width. */
  lemma PositionInjective(b: nat, i: nat, c: nat, j: nat)
    requires Position(b, i) == Position(c, j)
    ensures b == c && i == j
  {
    NoSeparator(Padded(b, 12));
    NoSeparator(Padded(c, 12));
    SplitUnique(Padded(b, 12), Padded(c, 12), Padded(i, 6), Padded(j, 6));
    PaddedInjective(b, c, 12);
    PaddedInjective(i, j, 6);
  }

  lemma CancelPrefix(p: Bytes, x: Bytes, y: Bytes)
    requires p + x == p + y
    ensures x == y
  {
    assert x == (p + x)[|p|..] == (p + y)[|p|..] == y;
  }

  /** Namespace prefix, a field without separator, then the rest: both parts are determined. */
  lemma CancelField(p: Bytes, a: Bytes, b: Bytes, x: Bytes, y: Bytes)
    requires ':' !in a && ':' !in b
    requires p + a + ":" + x == p + b + ":" + y
    ensures a == b && x == y
  {
    assert p + a + ":" + x == p + (a + ":" + x) && p + b + ":" + y == p + (b + ":" + y);
    CancelPrefix(p, a + ":" + x, b + ":" + y);
    SplitUnique(a, b, x, y);
  }

  /** Two rows never share a key, within a namespace or across namespaces. */
  lemma EncodeInjective(k: Key, l: Key)
    requires k.Encode() == l.Encode()
    ensures k == l
  {
    NamespaceOf(k);
    NamespaceOf(l);
    match k
    case MetaKey(t) => CancelPrefix("t:meta:", t, l.token);
    case HolderKey(t, a) => CancelField("t:holder:", t, l.token, a, l.addr);
    case HolderAddrKey(a, t) => CancelField("h:addr:", a, l.addr, t, l.token);
    case EventKey(b, i) =>
      CancelPrefix(EVENT_PREFIX, Position(b, i), Position(l.block, l.index));
      PositionInjective(b, i, l.block, l.index);
    case CursorKey =>
    case GenericKey(b, i) =>
      CancelPrefix(GENERIC_PREFIX, Position(b, i), Position(l.block, l.index));
      PositionInjective(b, i, l.block, l.index);
    case GeTokenKey(t, b, i) =>
      CancelField("ge:token:", t, l.token, Position(b, i), Position(l.block, l.index));
      PositionInjective(b, i, l.block, l.index);
    case GeAddrKey(a, b, i) =>
      CancelField("ge:addr:", a, l.addr, Position(b, i), Position(l.block, l.index));
      PositionInjective(b, i, l.block, l.index);
    case AssetKey(t) => CancelPrefix("a:meta:", t, l.token);
    case IdentityKey(w) => CancelPrefix("i:", w, l.wallet);
    case CountryKey(c, w) =>
      CancelField("i:country:", Decimal(c), Decimal(l.country), w, l.wallet);
      PaddedInjective(c, l.country, 1);
    case FreezeKey(w, s) =>
      var x, y := if s == "" then "global" else s, if l.scope == "" then "global" else l.scope;
      CancelField("f:", w, l.wallet, x, y);
      assert !IsDigit("global"[0]);
  }

  // ---------- what a prefix scan meets ----------

  lemma SharedPrefixField(p: Bytes, a: Bytes, b: Bytes, y: Bytes)
    requires ':' !in a && ':' !in b
    requires p + a + ":" <= p + b + ":" + y
    ensures a == b
  {
    var s := p + b + ":" + y;
    var x := s[|p + a + ":"|..];
    assert s == p + a + ":" + x;
    CancelField(p, a, b, x, y);
  }

  lemma HolderScan(t: Token, k: Key)
    ensures HolderPrefix(t) <= k.Encode() <==> k.HolderKey? && k.token == t
  {
    if HolderPrefix(t) <= k.Encode() {
      assert Namespace(k.Encode()) == 2;
      NamespaceOf(k);
      SharedPrefixField("t:holder:", t, k.token, k.addr);
    }
  }

  lemma PortfolioScan(a: Addr, k: Key)
    ensures HolderAddrPrefix(a) <= k.Encode() <==> k.HolderAddrKey? && k.addr == a
  {
    if HolderAddrPrefix(a) <= k.Encode() {
      assert Namespace(k.Encode()) == 3;
      NamespaceOf(k);
      SharedPrefixField("h:addr:", a, k.addr, k.token);
    }
  }

  lemma EventScan(k: Key)
    ensures EVENT_PREFIX <= k.Encode() <==> k.EventKey?
  {
    NamespaceOf(k);
    assert k.EventKey? || |k.Encode()| >= 4;
    assert EVENT_PREFIX <= k.Encode() ==> k.Encode()[0] == 'e';
  }

  /** The scan of "ge:" also meets both secondary indexes. */
  lemma GenericScan(k: Key)
    ensures GENERIC_PREFIX <= k.Encode() <==> k.GenericKey? || k.GeTokenKey? || k.GeAddrKey?
  {
    NamespaceOf(k);
    if GENERIC_PREFIX <= k.Encode() { assert k.Encode()[0] == 'g'; }
  }

  lemma GeTokenScan(t: Token, k: Key)
    ensures GeTokenPrefix(t) <= k.Encode() <==> k.GeTokenKey? && k.token == t
  {
    if GeTokenPrefix(t) <= k.Encode() {
      assert Namespace(k.Encode()) == 7;
      NamespaceOf(k);
      SharedPrefixField("ge:token:", t, k.token, Position(k.block, k.index));
    }
  }

  lemma GeAddrScan(a: Addr, k: Key)
    ensures GeAddrPrefix(a) <= k.Encode() <==> k.GeAddrKey? && k.addr == a
  {
    if GeAddrPrefix(a) <= k.Encode() {
      assert Namespace(k.Encode()) == 8;
      NamespaceOf(k);
      SharedPrefixField("ge:addr:", a, k.addr, Position(k.block, k.index));
    }
  }

  lemma CountryScan(c: nat, k: Key)
    ensures CountryPrefix(c) <= k.Encode() <==> k.CountryKey? && k.country == c
  {
    if CountryPrefix(c) <= k.Encode() {
      assert Namespace(k.Encode()) == 11;
      NamespaceOf(k);
      SharedPrefixField("i:country:", Decimal(c), Decimal(k.country), k.wallet);
      PaddedInjective(c, k.country, 1);
    }
  }

  // ---------- key order is chronological order ----------

  predicate Earlier(b: nat, i: nat, c: nat, j: nat) { b < c || (b == c && i < j) }

  /** While block and log index fit their padded width, text order is chronological order. */
  lemma PositionOrder(b: nat, i: nat, c: nat, j: nat)
    requires b < Pow10(BLOCK_WIDTH) && c < Pow10(BLOCK_WIDTH)
    requires i < Pow10(INDEX_WIDTH) && j < Pow10(INDEX_WIDTH)
    ensures Less(Position(b, i), Position(c, j)) <==> Earlier(b, i, c, j)
  {
    var p, q, x, y := Padded(b, 12), Padded(c, 12), Padded(i, 6), Padded(j, 6);
    PaddedWidth(b, 12);
    PaddedWidth(c, 12);
    PaddedWidth(i, 6);
    PaddedWidth(j, 6);
    PaddedRoundTrip(b, 12);
    PaddedRoundTrip(c, 12);
    PaddedRoundTrip(i, 6);
    PaddedRoundTrip(j, 6);
    assert p + ":" + x == p + (":" + x) && q + ":" + y == q + (":" + y);
    LessOnHead(p, q, ":" + x, ":" + y);
    LessAfterPrefix(":", x, y);
    SameWidthOrder(p, q);
    SameWidthOrder(x, y);
  }

  /** Transfer events and generic events sort by (block, log index). */
  lemma EventKeyOrder(b: nat, i: nat, c: nat, j: nat)
    requires b < Pow10(BLOCK_WIDTH) && c < Pow10(BLOCK_WIDTH)
    requires i < Pow10(INDEX_WIDTH) && j < Pow10(INDEX_WIDTH)
    ensures Less(EventKey(b, i).Encode(), EventKey(c, j).Encode()) <==> Earlier(b, i, c, j)
    ensures Less(GenericKey(b, i).Encode(), GenericKey(c, j).Encode()) <==> Earlier(b, i, c, j)
  {
    PositionOrder(b, i, c, j);
    LessAfterPrefix(EVENT_PREFIX, Position(b, i), Position(c, j));
    LessAfterPrefix(GENERIC_PREFIX, Position(b, i), Position(c, j));
  }

  lemma {:induction false} NumberBound(s: string)
    requires AllDigits(s)
    ensures Number(s) < Pow10(|s|)
  {
    if s != "" { NumberBound(s[..|s| - 1]); }
  }

  /** Every block past the padded width sorts before the last block that fits it. */
  lemma WideBlockSortsEarly(b: nat, i: nat, j: nat)
    requires b >= Pow10(BLOCK_WIDTH)
    ensures Less(EventKey(b, i).Encode(), EventKey(Pow10(BLOCK_WIDTH) - 1, j).Encode())
    ensures Less(GenericKey(b, i).Encode(), GenericKey(Pow10(BLOCK_WIDTH) - 1, j).Encode())
  {
    WidePosition(b, i, j);
    LessAfterPrefix(EVENT_PREFIX, Position(b, i), Position(Pow10(BLOCK_WIDTH) - 1, j));
    LessAfterPrefix(GENERIC_PREFIX, Position(b, i), Position(Pow10(BLOCK_WIDTH) - 1, j));
  }

  /** The first twelve digits of such a block number are at most the twelve nines. */
  lemma {:induction false} WideHead(b: nat)
    requires b >= Pow10(BLOCK_WIDTH)
    ensures var p, q := Padded(b, BLOCK_WIDTH), Padded(Pow10(BLOCK_WIDTH) - 1, BLOCK_WIDTH);
      && |p| > 12 == |q| && IsDigit(p[12])
      && (Less(p[..12], q) || p[..12] == q)
  {
    var c := Pow10(12) - 1;
    var p, q := Padded(b, 12), Padded(c, 12);
    PaddedTooWide(b, 12);
    PaddedWidth(c, 12);
    PaddedRoundTrip(c, 12);
    NumberBound(p[..12]);
    SameWidthOrder(q, p[..12]);
    LessTotal(p[..12], q);
  }

  lemma WidePosition(b: nat, i: nat, j: nat)
    requires b >= Pow10(BLOCK_WIDTH)
    ensures Less(Position(b, i), Position(Pow10(BLOCK_WIDTH) - 1, j))
  {
    WideHead(b);
    WideTail(Padded(b, BLOCK_WIDTH), Padded(Pow10(BLOCK_WIDTH) - 1, BLOCK_WIDTH),
             Padded(i, INDEX_WIDTH), Padded(j, INDEX_WIDTH));
  }

  lemma {:induction false} WideTail(p: string, q: string, x: string, y: string)
    requires |p| > 12 == |q| && IsDigit(p[12]) && (Less(p[..12], q) || p[..12] == q)
    ensures Less(p + ":" + x, q + ":" + y)
  {
    var u, v := p[12..] + ":" + x, ":" + y;
    assert p + ":" + x == p[..12] + u && q + ":" + y == q + v;
    LessOnHead(p[..12], q, u, v);
  }

  /** Events of an earlier block sort before those of a later one. */
  ghost predicate SortsAhead(b: nat, c: nat) {
    && Less(EventKey(b, 0).Encode(), EventKey(c, 0).Encode())
    && Less(GenericKey(b, 0).Encode(), GenericKey(c, 0).Encode())
  }

  /** Keys are chronological for all blocks below a bound exactly when the bound fits the width. */
  lemma KeyOrderBound(bound: nat)
    ensures bound <= Pow10(BLOCK_WIDTH) <==>
      forall b: nat, c: nat :: b < c < bound ==> SortsAhead(b, c)
  {
    if bound <= Pow10(BLOCK_WIDTH) {
      forall b: nat, c: nat | b < c < bound ensures SortsAhead(b, c) {
        EventKeyOrder(b, 0, c, 0);
      }
    } else {
      WideBlockOutOfOrder();
    }
  }

  lemma WideBlockOutOfOrder()
    ensures !SortsAhead(Pow10(BLOCK_WIDTH) - 1, Pow10(BLOCK_WIDTH))
  {
    var c := Pow10(BLOCK_WIDTH);
    WideBlockSortsEarly(c, 0, 0);
    LessAsymmetric(EventKey(c, 0).Encode(), EventKey(c - 1, 0).Encode());
  }
}
