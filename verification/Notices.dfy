/** What the contracts announce about wallets and assets, and the records that handling it leaves.

The announcements are given by their own numbers and encoded as event logs. From an empty store
the freeze records, identities and asset records are functions of those numbers alone.
*/
module Notices {
  import opened Numerals
  import opened Keys
  import opened Rows
  import opened Plans
  import opened Abi
  import opened Logs
  import opened Replay
  import opened Identities
  import opened Freezes

  /** An announcement; `moved` are the tokens registered at a recovery, which its log does not carry. */
  datatype Notice =
    | Froze(wallet: nat, frozen: bool)
    | FrozeAsset(token: nat, wallet: nat, frozen: bool)
    | HeldPart(token: nat, wallet: nat, amount: nat)
    | LockedUntil(token: nat, wallet: nat, expiry: nat)
    | BoundTo(wallet: nat, identity: nat, country: nat)
    | Unbound(wallet: nat)
    | RecoveredTo(lost: nat, next: nat, agent: nat, moved: set<nat>)
    | Registered(token: nat, issuer: nat, profile: nat)
    | NamedUri(token: nat, uri: seq<Byte>)
    | PausedBy(token: nat, who: nat)
    | UnpausedBy(token: nat, who: nat)

  /** Its numbers have the widths that the event declares. */
  predicate Possible(x: Notice) {
    match x
    case Froze(w, _) => w < ADDRESSES
    case FrozeAsset(_, w, _) => w < ADDRESSES
    case HeldPart(_, w, n) => w < ADDRESSES && n < WORDS
    case LockedUntil(_, w, e) => w < ADDRESSES && e < TWO64
    case BoundTo(w, id, c) => w < ADDRESSES && id < ADDRESSES && c < 0x1_0000
    case Unbound(w) => w < ADDRESSES
    case RecoveredTo(lost, next, agent, _) =>
      lost < ADDRESSES && next < ADDRESSES && agent < ADDRESSES && lost != next
    case Registered(_, issuer, p) => issuer < ADDRESSES && p < 0x1_0000_0000
    case NamedUri(_, uri) => |uri| + 64 < TWO64
    case PausedBy(_, who) => who < ADDRESSES
    case UnpausedBy(_, who) => who < ADDRESSES
  }

  function Truth(b: bool): nat { if b then 1 else 0 }

  predicate Is(l: Log, sig: Signature, args: seq<nat>, data: seq<Byte>) {
    l.sig == sig && l.args == args && l.data == data
  }

  /** The log of an announcement: indexed parameters as topics, the others as encoded data. */
  predicate Emits(l: Log, x: Notice) {
    match x
    case Froze(w, b) => Is(l, WalletFrozen, [w], WordBytes(Truth(b), 32))
    case FrozeAsset(t, w, b) => Is(l, AssetFrozen, [t, w], WordBytes(Truth(b), 32))
    case HeldPart(t, w, n) => Is(l, PartialFreeze, [t, w], WordBytes(n, 32))
    case LockedUntil(t, w, e) => Is(l, LockupSet, [t, w], WordBytes(e, 32))
    case BoundTo(w, id, c) => Is(l, IdentityBound, [w, id], WordBytes(c, 32))
    case Unbound(w) => Is(l, IdentityUnbound, [w], [])
    case RecoveredTo(lost, next, agent, _) => Is(l, WalletRecovered, [lost, next, agent], [])
    case Registered(t, issuer, p) => Is(l, AssetRegistered, [t, issuer], WordBytes(p, 32))
    case NamedUri(t, uri) => Is(l, URI, [t], EncodeString(uri))
    case PausedBy(t, who) => Is(l, AssetPaused, [t, who], [])
    case UnpausedBy(t, who) => Is(l, AssetUnpaused, [t, who], [])
  }

  /** A block's announcement, or any log of another kind. */
  datatype Entry = Entry(notice: Option<Notice>, block: nat)

  predicate Entered(l: Log, e: Entry) {
    && l.block == e.block
    && match e.notice
       case Some(x) => Possible(x) && Emits(l, x)
       case None => !IsIdentity(l.sig) && !IsAsset(l.sig) && !IsFreeze(l.sig)
  }

  /** The logs are the emission of the entries. */
  ghost predicate Heard(logs: seq<Log>, es: seq<Entry>) {
    |logs| == |es| && forall i :: 0 <= i < |logs| ==> Entered(logs[i], es[i])
  }

  lemma HeardInit(logs: seq<Log>, es: seq<Entry>)
    requires Heard(logs, es) && logs != []
    ensures Heard(logs[..|logs| - 1], es[..|es| - 1])
    ensures Entered(logs[|logs| - 1], es[|es| - 1])
  {
  }

  lemma {:induction false} OneWord(n: nat)
    requires n < WORDS
    ensures Word(WordBytes(n, 32), 0) == n && |WordBytes(n, 32)| == 32
  {
    assert WordBytes(n, 32) + [] == WordBytes(n, 32);
    FirstWord(n, []);
  }

  lemma SmallWord(n: nat)
    requires n < TWO64
    ensures n < WORDS && n % TWO64 == n
  {
    LongWords();
  }

  // ---------- freeze records ----------

  /** A wallet as a whole, or its holding of one token. */
  type Scope = Option<nat>

  function ScopeText(s: Scope): OptToken { match s case None => "" case Some(t) => TokenText(t) }

  lemma SameScope(s: Scope, r: Scope)
    ensures ScopeText(s) == ScopeText(r) <==> s == r
  {
    if s.Some? && r.Some? { SameToken(s.value, r.value); }
  }

  /** The wallet and scope that a freeze announcement is about. */
  function Subject(x: Notice): Option<(nat, Scope)> {
    match x
    case Froze(w, _) => Some((w, None))
    case FrozeAsset(t, w, _) => Some((w, Some(t)))
    case HeldPart(t, w, _) => Some((w, Some(t)))
    case LockedUntil(t, w, _) => Some((w, Some(t)))
    case _ => None
  }

  function TouchIn(x: Notice): Touch
    requires Subject(x).Some?
  {
    match x
    case Froze(_, b) => Flag(b)
    case FrozeAsset(_, _, b) => Flag(b)
    case HeldPart(_, _, n) => Held(Decimal(n))
    case LockedUntil(_, _, e) => Lockup(e)
  }

  predicate About(e: Entry, w: nat, s: Scope) { e.notice.Some? && Subject(e.notice.value) == Some((w, s)) }

  /** The touches that the entries announce for one wallet and scope. */
  function Told(es: seq<Entry>, w: nat, s: Scope): seq<Touch> {
    if es == [] then []
    else
      var e, prior := es[|es| - 1], Told(es[..|es| - 1], w, s);
      if About(e, w, s) then prior + [TouchIn(e.notice.value)] else prior
  }

  /** A freeze log is about the wallet and scope announced. */
  lemma ScopeRead(l: Log, e: Entry)
    requires Entered(l, e)
    ensures ScopeOf(l) ==
      if e.notice.Some? && Subject(e.notice.value).Some?
      then var (w, s) := Subject(e.notice.value).value; Some((AddrText(w), ScopeText(s)))
      else None
  {
    if e.notice.Some? { NoticeScope(l, e.notice.value); } else { ScopeNone(l); }
  }

  lemma NoticeScope(l: Log, x: Notice)
    requires Emits(l, x)
    ensures ScopeOf(l) ==
      if Subject(x).Some? then Some((AddrText(Subject(x).value.0), ScopeText(Subject(x).value.1))) else None
  {
    if x.Froze? {
      ScopeWide(l, x.wallet);
    } else if x.FrozeAsset? || x.HeldPart? || x.LockedUntil? {
      ScopeToken(l, x.token, x.wallet);
    } else {
      ScopeNone(l);
    }
  }

  lemma ScopeWide(l: Log, w: nat)
    requires l.sig == WalletFrozen && l.args == [w]
    ensures ScopeOf(l) == Some((AddrText(w), ""))
  {
  }

  lemma ScopeToken(l: Log, t: nat, w: nat)
    requires IsFreeze(l.sig) && l.sig != WalletFrozen && l.args == [t, w]
    ensures ScopeOf(l) == Some((AddrText(w), TokenText(t)))
  {
  }

  lemma ScopeNone(l: Log)
    requires !IsFreeze(l.sig)
    ensures ScopeOf(l) == None
  {
  }

  lemma TouchRead(l: Log, x: Notice)
    requires Possible(x) && Emits(l, x) && ScopeOf(l).Some? && Subject(x).Some?
    ensures TouchOf(l) == TouchIn(x)
  {
    if x.HeldPart? {
      HeldRead(l, x.amount);
    } else if x.LockedUntil? {
      LockupRead(l, x.expiry);
    } else {
      FlagRead(l, x.frozen);
    }
  }

  lemma FlagRead(l: Log, b: bool)
    requires ScopeOf(l).Some? && (l.sig == WalletFrozen || l.sig == AssetFrozen)
    requires l.data == WordBytes(Truth(b), 32)
    ensures TouchOf(l) == Flag(b)
  {
    SmallWord(Truth(b));
    OneWord(Truth(b));
  }

  lemma {:induction false} HeldRead(l: Log, n: nat)
    requires ScopeOf(l).Some? && l.sig == PartialFreeze && l.data == WordBytes(n, 32) && n < WORDS
    ensures TouchOf(l) == Held(Decimal(n))
  {
    OneWord(n);
  }

  lemma {:induction false} LockupRead(l: Log, e: nat)
    requires ScopeOf(l).Some? && l.sig == LockupSet && l.data == WordBytes(e, 32) && e < TWO64
    ensures TouchOf(l) == Lockup(e)
  {
    SmallWord(e);
    OneWord(e);
  }

  lemma AboutRead(l: Log, e: Entry, w: nat, s: Scope)
    requires Entered(l, e) && w < ADDRESSES
    ensures ScopeOf(l) == Some((AddrText(w), ScopeText(s))) <==> About(e, w, s)
  {
    ScopeRead(l, e);
    if e.notice.Some? && Subject(e.notice.value).Some? {
      var (v, r) := Subject(e.notice.value).value;
      SameAddress(v, w);
      SameScope(r, s);
    }
  }

  lemma {:induction false} TouchesTold(logs: seq<Log>, es: seq<Entry>, w: nat, s: Scope)
    requires Heard(logs, es) && w < ADDRESSES
    ensures Touches(logs, AddrText(w), ScopeText(s)) == Told(es, w, s)
  {
    if logs != [] {
      var l, e := logs[|logs| - 1], es[|es| - 1];
      HeardInit(logs, es);
      TouchesTold(logs[..|logs| - 1], es[..|es| - 1], w, s);
      AboutRead(l, e, w, s);
      if About(e, w, s) { TouchRead(l, e.notice.value); }
    }
  }

  /** From an empty store, the freeze record of a wallet and scope holds the last flag announced for them,
      and the last amount and lockup announced since that flag. */
  lemma {:induction false} FreezeByNumbers(logs: seq<Log>, es: seq<Entry>, w: nat, s: Scope)
    requires AllReadable(logs) && Heard(logs, es) && w < ADDRESSES
    ensures var xs := Told(es, w, s);
      FreezeOf(HandleAll(map[], logs), AddrText(w), ScopeText(s)) ==
        if xs == [] then None
        else Some(FreezeState(AddrText(w), ScopeText(s), LastFlag(xs), AmountSince(xs), LockupSince(xs)))
  {
    TouchesTold(logs, es, w, s);
    FreezeClosedForm(logs, AddrText(w), ScopeText(s));
  }

  // ---------- what the contracts keep ----------

  /** Flag, amount and lockup as the contract stores them, each under a slot of its own. */
  datatype Hold = Hold(frozen: bool, amount: nat, expiry: nat)

  const NOTHING := Hold(false, 0, 0)

  /** What a recovery leaves with the new wallet: whatever the lost one had goes over its own. */
  function Taken(own: Hold, lost: Hold): Hold {
    Hold(own.frozen || lost.frozen,
         if lost.amount != 0 then lost.amount else own.amount,
         if lost.expiry != 0 then lost.expiry else own.expiry)
  }

  /** A recovery moves the wallet-wide flag, and everything on the tokens registered by then. */
  predicate Moves(x: Notice, s: Scope) { x.RecoveredTo? && (s.Some? ==> s.value in x.moved) }


  /** A freeze announcement sets its own slot. */
  function Slotted(own: Hold, x: Notice): Hold
    requires Subject(x).Some?
  {
    match x
    case HeldPart(_, _, n) => own.(amount := n)
    case LockedUntil(_, _, e) => own.(expiry := e)
    case _ => own.(frozen := x.frozen)
  }

  /** The contract's storage for a wallet and scope. */
  function Kept(es: seq<Entry>, w: nat, s: Scope): Hold {
    if es == [] then NOTHING
    else
      var init, own := es[..|es| - 1], Kept(es[..|es| - 1], w, s);
      match es[|es| - 1].notice
      case None => own
      case Some(x) =>
        if Subject(x) == Some((w, s)) then Slotted(own, x)
        else if Moves(x, s) && w == x.next then Taken(own, Kept(init, x.lost, s))
        else if Moves(x, s) && w == x.lost then NOTHING
        else own
  }

  /** An amount as recorded; none recorded stands for zero. */
  predicate AmountIs(text: string, n: nat) { text == Decimal(n) || (text == "" && n == 0) }

  /** The record says what the contract keeps. */
  predicate Faithful(tb: Table, w: nat, s: Scope, h: Hold) {
    match FreezeOf(tb, AddrText(w), ScopeText(s))
    case None => h == NOTHING
    case Some(f) => f.frozen == h.frozen && AmountIs(f.amount, h.amount) && f.lockup == h.expiry
  }

  /** The announcement leaves a faithful record faithful: a flag must come when nothing is held in part or
      locked up, and a recovery must find nothing to move that the new wallet does not have already. */
  predicate Harmless(init: seq<Entry>, x: Notice, w: nat, s: Scope) {
    var own := Kept(init, w, s);
    if Subject(x) == Some((w, s)) then
      x.Froze? || x.FrozeAsset? ==> own.amount == 0 && own.expiry == 0
    else if Moves(x, s) && w == x.next then
      var lost := Kept(init, x.lost, s);
      && (lost.frozen ==> own.frozen)
      && (lost.amount == 0 || lost.amount == own.amount)
      && (lost.expiry == 0 || lost.expiry == own.expiry)
    else Moves(x, s) && w == x.lost ==> own == NOTHING
  }

  lemma AmountOne(text: string, m: nat, n: nat)
    requires AmountIs(text, m) && AmountIs(text, n)
    ensures m == n
  {
    PaddedRoundTrip(m, 1);
    PaddedRoundTrip(n, 1);
  }

  lemma FaithfulOne(tb: Table, w: nat, s: Scope, h: Hold, k: Hold)
    requires Faithful(tb, w, s, h)
    ensures Faithful(tb, w, s, k) <==> h == k
  {
    var f := FreezeOf(tb, AddrText(w), ScopeText(s));
    if f.Some? && Faithful(tb, w, s, k) { AmountOne(f.value.amount, h.amount, k.amount); }
  }

  /** A log leaves the record faithful exactly when what it announces is harmless. */
  lemma {:induction false} HarmlessExactly(tb: Table, l: Log, es: seq<Entry>, w: nat, s: Scope)
    requires Typed(tb) && w < ADDRESSES && es != [] && Entered(l, es[|es| - 1])
    requires Faithful(tb, w, s, Kept(es[..|es| - 1], w, s))
    ensures Faithful(ApplyAll(tb, LogWrites(tb, l)), w, s, Kept(es, w, s)) <==>
      (es[|es| - 1].notice.Some? ==> Harmless(es[..|es| - 1], es[|es| - 1].notice.value, w, s))
  {
    var e, own := es[|es| - 1], Kept(es[..|es| - 1], w, s);
    var after := ApplyAll(tb, LogWrites(tb, l));
    AboutRead(l, e, w, s);
    LogTouches(tb, l, AddrText(w), ScopeText(s));
    if About(e, w, s) {
      TouchRead(l, e.notice.value);
      SlotKept(es, w, s);
      TouchKeeps(FreezeOf(tb, AddrText(w), ScopeText(s)), e.notice.value, w, s, tb, after, own);
    } else {
      OthersKept(es, w, s);
      FaithfulOne(after, w, s, own, Kept(es, w, s));
    }
  }

  lemma {:induction false} SlotKept(es: seq<Entry>, w: nat, s: Scope)
    requires es != [] && About(es[|es| - 1], w, s)
    ensures Kept(es, w, s) == Slotted(Kept(es[..|es| - 1], w, s), es[|es| - 1].notice.value)
  {
  }

  /** What is not about a wallet and scope changes what is kept for them only where a recovery moves it. */
  lemma {:induction false} OthersKept(es: seq<Entry>, w: nat, s: Scope)
    requires es != [] && !About(es[|es| - 1], w, s)
    ensures Kept(es, w, s) == Kept(es[..|es| - 1], w, s) <==>
      (es[|es| - 1].notice.Some? ==> Harmless(es[..|es| - 1], es[|es| - 1].notice.value, w, s))
  {
  }

  /** The touch of an announcement keeps amount and lockup in the contract and not in the record. */
  lemma TouchKeeps(f: Option<FreezeState>, x: Notice, w: nat, s: Scope, tb: Table, after: Table, own: Hold)
    requires Subject(x) == Some((w, s)) && Faithful(tb, w, s, own)
    requires f == FreezeOf(tb, AddrText(w), ScopeText(s))
    requires FreezeOf(after, AddrText(w), ScopeText(s)) == Some(Touched(f, AddrText(w), ScopeText(s), TouchIn(x)))
    ensures Faithful(after, w, s, Slotted(own, x)) <==>
      (x.Froze? || x.FrozeAsset? ==> own.amount == 0 && own.expiry == 0)
  {
    PaddedRoundTrip(own.amount, 1);
  }

  /** Every announcement was harmless where it came. */
  predicate AllHarmless(es: seq<Entry>, w: nat, s: Scope) {
    es == [] ||
    (var init, e := es[..|es| - 1], es[|es| - 1];
     AllHarmless(init, w, s) && (e.notice.Some? ==> Harmless(init, e.notice.value, w, s)))
  }

  /** The record was faithful after every log. */
  predicate FaithfulThroughout(logs: seq<Log>, es: seq<Entry>, w: nat, s: Scope)
    requires |logs| == |es|
  {
    && Faithful(HandleAll(map[], logs), w, s, Kept(es, w, s))
    && (logs == [] || FaithfulThroughout(logs[..|logs| - 1], es[..|es| - 1], w, s))
  }

  /** From an empty store, a freeze record says what the contract keeps, after every log, exactly when every
      announcement was harmless where it came. */
  lemma {:induction false} FaithfulExactly(logs: seq<Log>, es: seq<Entry>, w: nat, s: Scope)
    requires AllReadable(logs) && Heard(logs, es) && w < ADDRESSES
    ensures FaithfulThroughout(logs, es, w, s) <==> AllHarmless(es, w, s)
  {
    if logs != [] {
      var init, l := logs[..|logs| - 1], logs[|logs| - 1];
      HeardInit(logs, es);
      FaithfulExactly(init, es[..|es| - 1], w, s);
      HandledTyped(map[], init);
      if FaithfulThroughout(init, es[..|es| - 1], w, s) {
        HarmlessExactly(HandleAll(map[], init), l, es, w, s);
      }
    }
  }

  /** A wallet-wide flag has nothing beside it, so only recoveries can make its record unfaithful. */
  lemma {:induction false} WideHarmless(es: seq<Entry>, w: nat)
    requires forall e :: e in es && e.notice.Some? ==> !e.notice.value.RecoveredTo?
    ensures AllHarmless(es, w, None) && Kept(es, w, None).amount == 0 && Kept(es, w, None).expiry == 0
  {
    if es != [] {
      assert es[|es| - 1] in es;
      WideHarmless(es[..|es| - 1], w);
    }
  }

  /** Part of a holding is frozen and then a flag set: the contract keeps both, the record the flag. */
  lemma {:induction false} FlagForgets(logs: seq<Log>, es: seq<Entry>, t: nat, w: nat, n: nat, b: bool)
    requires AllReadable(logs) && Heard(logs, es) && w < ADDRESSES && n > 0
    requires |es| == 2 && es[0].notice == Some(HeldPart(t, w, n)) && es[1].notice == Some(FrozeAsset(t, w, b))
    ensures Kept(es, w, Some(t)) == Hold(b, n, 0)
    ensures FreezeOf(HandleAll(map[], logs), AddrText(w), TokenText(t)) ==
      Some(FreezeState(AddrText(w), TokenText(t), b, "", 0))
    ensures !Faithful(HandleAll(map[], logs), w, Some(t), Kept(es, w, Some(t)))
  {
    HeldThenFlag(es, t, w, n, b);
    assert FreezeOf(HandleAll(map[], logs), AddrText(w), ScopeText(Some(t))) ==
      Some(FreezeState(AddrText(w), ScopeText(Some(t)), b, "", 0)) by {
      FreezeByNumbers(logs, es, w, Some(t));
    }
    ZeroAmount(n);
  }

  /** A decimal text is not empty. */
  lemma ZeroAmount(n: nat)
    ensures AmountIs("", n) <==> n == 0
  {
  }

  lemma {:induction false} HeldThenFlag(es: seq<Entry>, t: nat, w: nat, n: nat, b: bool)
    requires |es| == 2 && es[0].notice == Some(HeldPart(t, w, n)) && es[1].notice == Some(FrozeAsset(t, w, b))
    ensures var xs := Told(es, w, Some(t));
      xs != [] && LastFlag(xs) == b && AmountSince(xs) == "" && LockupSince(xs) == 0
    ensures Kept(es, w, Some(t)) == Hold(b, n, 0)
  {
    var first := es[..1];
    assert first[..0] == [] && first[0] == es[0];
    HeldAlone(first, t, w, n);
  }

  lemma {:induction false} HeldAlone(es: seq<Entry>, t: nat, w: nat, n: nat)
    requires |es| == 1 && es[0].notice == Some(HeldPart(t, w, n))
    ensures Told(es, w, Some(t)) == [Held(Decimal(n))] && Kept(es, w, Some(t)) == Hold(false, n, 0)
  {
    assert es[..0] == [];
  }

  // ---------- identities ----------

  /** The identity a wallet is bound to, its country and the block of the binding. */
  datatype Tie = Tie(identity: nat, country: nat, block: nat)

  function TieOf(es: seq<Entry>, w: nat): Option<Tie> {
    if es == [] then None
    else
      var init, e := es[..|es| - 1], es[|es| - 1];
      match e.notice
      case None => TieOf(init, w)
      case Some(x) =>
        if x.BoundTo? && x.wallet == w then Some(Tie(x.identity, x.country, e.block))
        else if x.Unbound? && x.wallet == w then None
        else if x.RecoveredTo? && x.lost == w then None
        else if x.RecoveredTo? && x.next == w && TieOf(init, x.lost).Some? then
          Some(TieOf(init, x.lost).value.(block := e.block))
        else TieOf(init, w)
  }

  function IdentityText(w: nat, t: Option<Tie>): Option<Identity> {
    match t
    case None => None
    case Some(t) => Some(Identity(AddrText(w), AddrText(t.identity), t.country, t.block))
  }

  /** The change an identity log is read as. */
  function ChangeIn(e: Entry): Option<Change> {
    match e.notice
    case None => None
    case Some(x) =>
      match x
      case BoundTo(w, id, c) => Some(Bind(Identity(AddrText(w), AddrText(id), c, e.block)))
      case Unbound(w) => Some(Unbind(AddrText(w)))
      case RecoveredTo(lost, next, _, _) => Some(Recover(AddrText(lost), AddrText(next), e.block))
      case _ => None
  }

  lemma ChangeRead(l: Log, e: Entry)
    requires Entered(l, e)
    ensures ChangeOf(l) == ChangeIn(e)
  {
    if e.notice.None? {
      assert !IsIdentity(l.sig);
    } else if e.notice.value.BoundTo? {
      BindRead(l, e.notice.value.wallet, e.notice.value.identity, e.notice.value.country);
    } else if e.notice.value.Unbound? || e.notice.value.RecoveredTo? {
      LeaveRead(l, e.notice.value);
    } else {
      NoChange(l, e.notice.value);
    }
  }

  lemma {:induction false} BindRead(l: Log, w: nat, id: nat, c: nat)
    requires l.sig == IdentityBound && l.args == [w, id] && l.data == WordBytes(c, 32) && c < 0x1_0000
    ensures ChangeOf(l) == Some(Bind(Identity(AddrText(w), AddrText(id), c, l.block)))
  {
    SmallWord(c);
    OneWord(c);
    InRange(c, 0x1_0000);
  }

  lemma LeaveRead(l: Log, x: Notice)
    requires Emits(l, x) && (x.Unbound? || x.RecoveredTo?)
    ensures ChangeOf(l) == Some(
      if x.Unbound? then Unbind(AddrText(x.wallet)) else Recover(AddrText(x.lost), AddrText(x.next), l.block))
  {
    if x.Unbound? { UnbindRead(l, x.wallet); } else { RecoverRead(l, x.lost, x.next, x.agent); }
  }

  lemma UnbindRead(l: Log, w: nat)
    requires l.sig == IdentityUnbound && l.args == [w]
    ensures ChangeOf(l) == Some(Unbind(AddrText(w)))
  {
  }

  lemma RecoverRead(l: Log, lost: nat, next: nat, agent: nat)
    requires l.sig == WalletRecovered && l.args == [lost, next, agent]
    ensures ChangeOf(l) == Some(Recover(AddrText(lost), AddrText(next), l.block))
  {
  }

  lemma NoChange(l: Log, x: Notice)
    requires Emits(l, x) && !x.BoundTo? && !x.Unbound? && !x.RecoveredTo?
    ensures ChangeOf(l) == None
  {
  }

  /** Identities as the numbers have them for every wallet. */
  ghost predicate TiesHeld(tb: Table, es: seq<Entry>) {
    forall w :: 0 <= w < ADDRESSES ==> IdentityOf(tb, AddrText(w)) == IdentityText(w, TieOf(es, w))
  }

  lemma ChangeTies(tb: Table, es: seq<Entry>, w: nat)
    requires es != [] && TiesHeld(tb, es[..|es| - 1]) && w < ADDRESSES
    requires es[|es| - 1].notice.Some? && Possible(es[|es| - 1].notice.value)
    requires ChangeIn(es[|es| - 1]).Some?
    ensures IdentityOf(ApplyAll(tb, ChangeWrites(tb, ChangeIn(es[|es| - 1]).value)), AddrText(w)) ==
      IdentityText(w, TieOf(es, w))
  {
    var x := es[|es| - 1].notice.value;
    if x.BoundTo? {
      SameAddress(x.wallet, w);
      BindApplied(tb, ChangeIn(es[|es| - 1]).value.id, 0, AddrText(w));
    } else if x.Unbound? {
      SameAddress(x.wallet, w);
      UnbindApplied(tb, AddrText(x.wallet), 0, AddrText(w));
    } else {
      SameAddress(x.lost, w);
      SameAddress(x.next, w);
      SameAddress(x.lost, x.next);
      RecoveryTies(tb, es, x, w);
    }
  }

  lemma RecoveryTies(tb: Table, es: seq<Entry>, x: Notice, w: nat)
    requires es != [] && TiesHeld(tb, es[..|es| - 1]) && w < ADDRESSES
    requires es[|es| - 1].notice == Some(x) && x.RecoveredTo? && Possible(x)
    requires AddrText(x.lost) == AddrText(w) <==> x.lost == w
    requires AddrText(x.next) == AddrText(w) <==> x.next == w
    requires AddrText(x.lost) != AddrText(x.next)
    ensures IdentityOf(ApplyAll(tb, RecoverWrites(tb, AddrText(x.lost), AddrText(x.next), es[|es| - 1].block)), AddrText(w)) ==
      IdentityText(w, TieOf(es, w))
  {
    if IdentityOf(tb, AddrText(x.lost)).Some? {
      RecoverCarriesExactly(tb, AddrText(x.lost), AddrText(x.next), es[|es| - 1].block);
    }
  }

  /** From an empty store, a wallet's identity, country and binding block are those that the announcements
      have for its number: the last binding, unless it was unbound or recovered from since, or that of the
      wallet it was recovered from. */
  lemma {:induction false} IdentityByNumbers(logs: seq<Log>, es: seq<Entry>)
    requires Heard(logs, es)
    ensures TiesHeld(HandleAll(map[], logs), es)
  {
    if logs != [] {
      var init, l, e := logs[..|logs| - 1], logs[|logs| - 1], es[|es| - 1];
      var tb := HandleAll(map[], init);
      HeardInit(logs, es);
      IdentityByNumbers(init, es[..|es| - 1]);
      ChangeRead(l, e);
      forall w | 0 <= w < ADDRESSES
        ensures IdentityOf(ApplyAll(tb, LogWrites(tb, l)), AddrText(w)) == IdentityText(w, TieOf(es, w))
      {
        LogChanges(tb, l, 0, AddrText(w));
        if ChangeIn(e).Some? { ChangeTies(tb, es, w); }
      }
    }
  }

  // ---------- assets ----------

  /** Issuer, profile and block of the last registration of a token. */
  function RegistrationOf(es: seq<Entry>, t: nat): Option<(nat, nat, nat)> {
    if es == [] then None
    else
      var e := es[|es| - 1];
      if e.notice.Some? && e.notice.value.Registered? && e.notice.value.token == t
      then Some((e.notice.value.issuer, e.notice.value.profile, e.block))
      else RegistrationOf(es[..|es| - 1], t)
  }

  /** The last announced URI of a token since it was registered. */
  function UriOf(es: seq<Entry>, t: nat): seq<Byte> {
    if es == [] then []
    else
      var e := es[|es| - 1];
      if e.notice.Some? && e.notice.value.NamedUri? && e.notice.value.token == t then e.notice.value.uri
      else if e.notice.Some? && e.notice.value.Registered? && e.notice.value.token == t then []
      else UriOf(es[..|es| - 1], t)
  }

  /** A token is paused when the last pause, unpause or registration of it was a pause. */
  function PausedNow(es: seq<Entry>, t: nat): bool {
    if es == [] then false
    else
      var e := es[|es| - 1];
      if e.notice.Some? && e.notice.value.PausedBy? && e.notice.value.token == t then true
      else if e.notice.Some? && e.notice.value.UnpausedBy? && e.notice.value.token == t then false
      else if e.notice.Some? && e.notice.value.Registered? && e.notice.value.token == t then false
      else PausedNow(es[..|es| - 1], t)
  }

  predicate OnAsset(e: Entry, t: nat) {
    e.notice.Some? &&
    match e.notice.value
    case Registered(u, _, _) => u == t
    case NamedUri(u, _) => u == t
    case PausedBy(u, _) => u == t
    case UnpausedBy(u, _) => u == t
    case _ => false
  }

  function AssetText(es: seq<Entry>, t: nat): AssetConfig {
    match RegistrationOf(es, t)
    case None => AssetConfig(TokenText(t), "", 0, UriOf(es, t), PausedNow(es, t), 0)
    case Some(r) => AssetConfig(TokenText(t), AddrText(r.0), r.1, UriOf(es, t), PausedNow(es, t), r.2)
  }

  /** The row an asset log writes. */
  function AssetRow(tb: Table, l: Log): Value
    requires IsAsset(l.sig) && |l.args| >= RecordNeeds(l.sig)
  {
    AssetKeys(tb, l);
    RecordWrites(tb, l)[0].val
  }

  /** A log rewrites the asset it is about, and no other. */
  lemma {:induction false} AssetLogged(tb: Table, l: Log, t: Token)
    requires Typed(tb)
    ensures var k, after := AssetKey(t), ApplyAll(tb, LogWrites(tb, l));
      if IsAsset(l.sig) && |l.args| >= RecordNeeds(l.sig) && TokenText(l.args[0]) == t
      then k in after && after[k] == AssetRow(tb, l)
      else Agree(after, tb, k)
  {
    if LedgerOp(l).Some? || l.sig == ForcedTransfer || l.sig == NoTopics {
      LedgerSig(l);
      TokenSpares(tb, l, t);
    } else {
      LogSplit(tb, l);
      RestSpares(l, AssetKey(t));
      TailSpares(tb, RecordPart(tb, l), Rest(l), AssetKey(t));
      AssetRecord(tb, l, t);
    }
  }

  lemma LedgerSig(l: Log)
    requires LedgerOp(l).Some? || l.sig == ForcedTransfer || l.sig == NoTopics
    ensures !IsAsset(l.sig)
  {
  }

  lemma {:induction false} MoneySpares(tb: Table, ws: seq<Write>, k: Key)
    requires forall i :: 0 <= i < |ws| ==> MoneyKey(ws[i].key) || ws[i].key == CursorKey
    requires !MoneyKey(k) && k != CursorKey
    ensures Agree(ApplyAll(tb, ws), tb, k)
  {
    ApplyElsewhere(tb, ws, k);
  }

  lemma {:induction false} TokenSpares(tb: Table, l: Log, t: Token)
    requires LedgerOp(l).Some? || l.sig == ForcedTransfer || l.sig == NoTopics
    ensures Agree(ApplyAll(tb, LogWrites(tb, l)), tb, AssetKey(t))
  {
    TokenLogKeys(tb, l);
    MoneySpares(tb, LogWrites(tb, l), AssetKey(t));
  }

  lemma {:induction false} TailSpares(tb: Table, u: seq<Write>, v: seq<Write>, k: Key)
    requires Spares(v, k)
    ensures Agree(ApplyAll(tb, u + v), ApplyAll(tb, u), k)
  {
    ApplyConcat(tb, u, v);
    ApplyElsewhere(ApplyAll(tb, u), v, k);
  }

  lemma {:induction false} AssetRecord(tb: Table, l: Log, t: Token)
    requires Typed(tb)
    ensures var k, after := AssetKey(t), ApplyAll(tb, RecordPart(tb, l));
      if IsAsset(l.sig) && |l.args| >= RecordNeeds(l.sig) && TokenText(l.args[0]) == t
      then k in after && after[k] == AssetRow(tb, l)
      else Agree(after, tb, k)
  {
    if IsAsset(l.sig) && |l.args| >= RecordNeeds(l.sig) {
      AssetOne(tb, l);
      OneWrite(tb, RecordWrites(tb, l)[0]);
    } else {
      NoAsset(tb, l, t);
      ApplyElsewhere(tb, RecordPart(tb, l), AssetKey(t));
    }
  }

  lemma AssetOne(tb: Table, l: Log)
    requires Typed(tb) && IsAsset(l.sig) && |l.args| >= RecordNeeds(l.sig)
    ensures |RecordWrites(tb, l)| == 1 && RecordPart(tb, l) == [RecordWrites(tb, l)[0]]
    ensures RecordWrites(tb, l)[0].Put? && RecordWrites(tb, l)[0].key == AssetKey(TokenText(l.args[0]))
  {
    AssetFits(tb, TokenText(l.args[0]));
  }

  lemma NoAsset(tb: Table, l: Log, t: Token)
    requires !IsAsset(l.sig) || |l.args| < RecordNeeds(l.sig)
    ensures Spares(RecordPart(tb, l), AssetKey(t))
  {
  }

  /** The asset record an announcement is read as. */
  lemma AssetRead(tb: Table, l: Log, x: Notice)
    requires Possible(x) && Emits(l, x) && IsAsset(l.sig)
    ensures |l.args| >= RecordNeeds(l.sig) && RecordWrites(tb, l) == [AssetWrite(
      if x.Registered? then AssetConfig(TokenText(x.token), AddrText(x.issuer), x.profile, [], false, l.block)
      else if x.NamedUri? then AssetOf(tb, TokenText(x.token)).(uri := x.uri)
      else AssetOf(tb, TokenText(x.token)).(paused := x.PausedBy?))]
  {
    if x.Registered? {
      RegistrationRead(tb, l, x.token, x.issuer, x.profile);
    } else if x.NamedUri? {
      UriRead(tb, l, x.token, x.uri);
    }
  }

  lemma {:induction false} RegistrationRead(tb: Table, l: Log, t: nat, issuer: nat, p: nat)
    requires Is(l, AssetRegistered, [t, issuer], WordBytes(p, 32)) && p < 0x1_0000_0000
    ensures RecordWrites(tb, l) ==
      [AssetWrite(AssetConfig(TokenText(t), AddrText(issuer), p, [], false, l.block))]
  {
    SmallWord(p);
    OneWord(p);
    InRange(p, 0x1_0000_0000);
  }

  lemma UriRead(tb: Table, l: Log, t: nat, uri: seq<Byte>)
    requires Is(l, URI, [t], EncodeString(uri)) && |uri| + 64 < TWO64
    ensures RecordWrites(tb, l) == [AssetWrite(AssetOf(tb, TokenText(t)).(uri := uri))]
  {
    StringRoundTrip(uri);
  }

  lemma AssetAbout(l: Log, e: Entry, t: nat)
    requires Entered(l, e)
    ensures OnAsset(e, t) <==>
      IsAsset(l.sig) && |l.args| >= RecordNeeds(l.sig) && TokenText(l.args[0]) == TokenText(t)
  {
    if e.notice.Some? {
      var x := e.notice.value;
      if x.Registered? || x.NamedUri? || x.PausedBy? || x.UnpausedBy? {
        AssetTopic(l, x);
        SameToken(x.token, t);
      } else {
        NotOfAsset(l, x);
      }
    }
  }

  lemma AssetTopic(l: Log, x: Notice)
    requires Emits(l, x) && (x.Registered? || x.NamedUri? || x.PausedBy? || x.UnpausedBy?)
    ensures IsAsset(l.sig) && |l.args| >= RecordNeeds(l.sig) && l.args[0] == x.token
  {
  }

  lemma NotOfAsset(l: Log, x: Notice)
    requires Emits(l, x) && !x.Registered? && !x.NamedUri? && !x.PausedBy? && !x.UnpausedBy?
    ensures !IsAsset(l.sig)
  {
  }

  lemma AssetNext(es: seq<Entry>, t: nat)
    requires es != []
    ensures var e, prior := es[|es| - 1], AssetText(es[..|es| - 1], t);
      AssetText(es, t) ==
        if !OnAsset(e, t) then prior
        else if e.notice.value.Registered? then
          AssetConfig(TokenText(t), AddrText(e.notice.value.issuer), e.notice.value.profile, [], false, e.block)
        else if e.notice.value.NamedUri? then prior.(uri := e.notice.value.uri)
        else prior.(paused := e.notice.value.PausedBy?)
  {
  }

  lemma {:induction false} AssetStep(tb: Table, l: Log, es: seq<Entry>, t: nat)
    requires Typed(tb) && es != [] && Entered(l, es[|es| - 1])
    requires AssetOf(tb, TokenText(t)) == AssetText(es[..|es| - 1], t)
    ensures AssetOf(ApplyAll(tb, LogWrites(tb, l)), TokenText(t)) == AssetText(es, t)
  {
    var e := es[|es| - 1];
    AssetAbout(l, e, t);
    AssetNext(es, t);
    AssetLogged(tb, l, TokenText(t));
    if OnAsset(e, t) { AssetRead(tb, l, e.notice.value); }
  }

  /** From an empty store, the record of a token holds the issuer, profile and block of its last
      registration, its last URI since then, and whether it is paused. */
  lemma {:induction false} AssetByNumbers(logs: seq<Log>, es: seq<Entry>, t: nat)
    requires AllReadable(logs) && Heard(logs, es)
    ensures AssetOf(HandleAll(map[], logs), TokenText(t)) == AssetText(es, t)
  {
    if logs != [] {
      var init := logs[..|logs| - 1];
      HeardInit(logs, es);
      AssetByNumbers(init, es[..|es| - 1], t);
      HandledTyped(map[], init);
      AssetStep(HandleAll(map[], init), logs[|logs| - 1], es, t);
    }
  }
}
