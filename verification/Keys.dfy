/**
 * How a live position is recognised as a row of the table: by resolved symbol on an exchange,
 * by ticket or by (symbol, magic) slot on a trading platform.
 */
module Keys {
  import opened Wrappers
  import opened CycleStatus
  import opened Repository
  import Reconcile

  // ----- the symbol an exchange trades a signal's symbol under

  /** Upper case, for the ASCII letters symbols are written in. */
  function Upper(s: string): (r: string)
    ensures |r| == |s|
  {
    seq(|s|, i requires 0 <= i < |s| => if 'a' <= s[i] <= 'z' then s[i] - 'a' + 'A' else s[i])
  }

  /** `s.split(":")[-1]`. */
  function AfterLastColon(s: string): string {
    if s == [] then []
    else if s[|s| - 1] == ':' then []
    else AfterLastColon(s[..|s| - 1]) + [s[|s| - 1]]
  }

  function WithoutSlashes(s: string): string {
    if s == [] then []
    else WithoutSlashes(s[..|s| - 1]) + (if s[|s| - 1] == '/' then [] else [s[|s| - 1]])
  }

  predicate EndsWith(s: string, suffix: string) {
    |suffix| <= |s| && s[|s| - |suffix|..] == suffix
  }

  function WithoutPerpetual(s: string): string {
    if EndsWith(s, ".P") then s[..|s| - 2] else s
  }

  function Cleaned(base: string): string {
    WithoutPerpetual(WithoutSlashes(AfterLastColon(Upper(base))))
  }

  function GetSymbol(base: string, quote: string): string {
    var s := Cleaned(base);
    if EndsWith(s, quote) then s
    else if EndsWith(s, "USD") then s[..|s| - 3] + quote
    else s + quote
  }

  /** A quote asset such as USDT: upper case, no separator, nothing a perpetual suffix could be cut from. */
  ghost predicate QuoteAsset(quote: string) {
    quote != "" && quote != "P" && !EndsWith(quote, ".P") && Plain(quote)
  }

  ghost predicate Plain(s: string) {
    forall i :: 0 <= i < |s| ==> !('a' <= s[i] <= 'z') && s[i] != ':' && s[i] != '/'
  }

  lemma {:induction false} CleaningPlain(s: string)
    requires Plain(s)
    ensures Upper(s) == s && AfterLastColon(s) == s && WithoutSlashes(s) == s
  {
    if s != [] {
      CleaningPlain(s[..|s| - 1]);
    }
  }

  lemma {:induction false} CleaningIsPlain(s: string)
    requires forall i :: 0 <= i < |s| ==> !('a' <= s[i] <= 'z')
    ensures Plain(WithoutSlashes(AfterLastColon(s)))
  {
    NoColon(s);
    NoSlash(AfterLastColon(s));
  }

  lemma {:induction false} NoColon(s: string)
    requires forall i :: 0 <= i < |s| ==> !('a' <= s[i] <= 'z')
    ensures forall i :: 0 <= i < |AfterLastColon(s)| ==> !('a' <= AfterLastColon(s)[i] <= 'z') && AfterLastColon(s)[i] != ':'
  {
    if s != [] { NoColon(s[..|s| - 1]); }
  }

  lemma {:induction false} NoSlash(s: string)
    requires forall i :: 0 <= i < |s| ==> !('a' <= s[i] <= 'z') && s[i] != ':'
    ensures Plain(WithoutSlashes(s))
  {
    if s != [] { NoSlash(s[..|s| - 1]); }
  }

  lemma CommonSuffix(s: string, quote: string)
    requires EndsWith(s, quote) && quote != ""
    ensures EndsWith(s, ".P") ==> quote == "P" || EndsWith(quote, ".P")
  {
    if EndsWith(s, ".P") {
      var n, q := |s|, |quote|;
      assert s[n - 2..][0] == '.' && s[n - 2..][1] == 'P';
      assert s[n - q..][q - 1] == s[n - 1];
      if q == 1 {
        assert quote == "P";
      } else {
        assert s[n - q..][q - 2] == s[n - 2];
        assert quote[q - 2..] == ".P";
      }
    }
  }

  lemma CleanedIsPlain(base: string)
    ensures Plain(Cleaned(base))
  {
    CleaningIsPlain(Upper(base));
  }

  lemma PlainAppend(s: string, n: nat, quote: string)
    requires n <= |s| && Plain(s) && Plain(quote)
    ensures Plain(s[..n] + quote) && EndsWith(s[..n] + quote, quote)
  {
  }

  lemma ResolvedIsQuoted(base: string, quote: string)
    requires QuoteAsset(quote)
    ensures Plain(GetSymbol(base, quote)) && EndsWith(GetSymbol(base, quote), quote)
  {
    var s := Cleaned(base);
    CleanedIsPlain(base);
    PlainAppend(s, |s|, quote);
    assert s[..|s|] == s;
    if EndsWith(s, "USD") { PlainAppend(s, |s| - 3, quote); }
  }

  /** A symbol resolves to itself exactly when it is already in the exchange's form and in the quote asset. */
  lemma ResolvesToItselfIff(symbol: string, quote: string)
    requires QuoteAsset(quote)
    ensures GetSymbol(symbol, quote) == symbol <==> Plain(symbol) && EndsWith(symbol, quote)
  {
    ResolvedIsQuoted(symbol, quote);
    if Plain(symbol) && EndsWith(symbol, quote) {
      CleaningPlain(symbol);
      CommonSuffix(symbol, quote);
    }
  }

  /** Resolving twice is resolving once, so every row a signal opens stays matched by its own position. */
  lemma ResolvingIsIdempotent(base: string, quote: string)
    requires QuoteAsset(quote)
    ensures GetSymbol(GetSymbol(base, quote), quote) == GetSymbol(base, quote)
  {
    ResolvedIsQuoted(base, quote);
    ResolvesToItselfIff(GetSymbol(base, quote), quote);
  }

  // ----- the spellings of one symbol

  /** The same letters, some of them perhaps small. */
  predicate SameLetters(y: string, x: string) {
    |y| == |x| && forall i :: 0 <= i < |x| ==> y[i] == x[i] || ('A' <= x[i] <= 'Z' && y[i] == x[i] - 'A' + 'a')
  }

  lemma UpperOf(y: string, x: string)
    requires SameLetters(y, x) && Plain(x)
    ensures Upper(y) == x
  {
  }

  lemma UpperAppend(a: string, b: string)
    ensures Upper(a + b) == Upper(a) + Upper(b)
  {
  }

  lemma {:induction false} ColonCuts(a: string, b: string)
    requires forall i :: 0 <= i < |b| ==> b[i] != ':'
    ensures AfterLastColon(a + ":" + b) == b
  {
    var s := a + ":" + b;
    if b == "" {
      assert s[|s| - 1] == ':';
    } else {
      var n := |b| - 1;
      assert s[..|s| - 1] == a + ":" + b[..n];
      ColonCuts(a, b[..n]);
    }
  }

  lemma {:induction false} SlashGoes(a: string, b: string)
    ensures WithoutSlashes(a + "/" + b) == WithoutSlashes(a) + WithoutSlashes(b)
  {
    var s := a + "/" + b;
    if b == "" {
      assert s[|s| - 1] == '/' && s[..|s| - 1] == a;
    } else {
      var n := |b| - 1;
      assert s[..|s| - 1] == a + "/" + b[..n] && s[|s| - 1] == b[n];
      SlashGoes(a, b[..n]);
    }
  }

  lemma CleanedIs(y: string, plain: string)
    requires Upper(y) == plain && Plain(plain)
    ensures Cleaned(y) == WithoutPerpetual(plain)
  {
    CleaningPlain(plain);
  }

  lemma CleanedBehindVenue(y: string, venue: string, plain: string)
    requires Upper(y) == venue + ":" + plain && Plain(plain)
    ensures Cleaned(y) == WithoutPerpetual(plain)
  {
    ColonCuts(venue, plain);
    CleaningPlain(plain);
  }

  lemma UpperBehindVenue(venue: string, y: string)
    ensures Upper(venue + ":" + y) == Upper(venue) + ":" + Upper(y)
  {
    UpperAppend(venue + ":", y);
    UpperAppend(venue, ":");
  }

  lemma PerpetualGoes(small: string, x: string)
    requires SameLetters(small, x) && Plain(x)
    ensures Upper(small + ".P") == x + ".P" && Plain(x + ".P") && WithoutPerpetual(x + ".P") == x
  {
    UpperOf(small, x);
    UpperAppend(small, ".P");
    assert Upper(".P") == ".P";
    assert (x + ".P")[|x|..] == ".P" && (x + ".P")[..|x|] == x;
  }

  function Spelled(small: string, perpetual: bool): string { if perpetual then small + ".P" else small }

  /** However a plain symbol is written, with a venue, in small letters, as a perpetual, it cleans to itself. */
  lemma SpellingCleans(venue: string, small: string, x: string, perpetual: bool)
    requires SameLetters(small, x) && Plain(x) && !EndsWith(x, ".P")
    ensures Cleaned(Spelled(small, perpetual)) == x && Cleaned(venue + ":" + Spelled(small, perpetual)) == x
  {
    var plain := Spelled(x, perpetual);
    UpperOf(small, x);
    if perpetual { PerpetualGoes(small, x); }
    UpperBehindVenue(venue, Spelled(small, perpetual));
    CleanedIs(Spelled(small, perpetual), plain);
    CleanedBehindVenue(venue + ":" + Spelled(small, perpetual), Upper(venue), plain);
  }

  /**
   * What a symbol trades under: itself when it is already in the quote asset, its base in the quote asset when it is
   * in dollars, and otherwise with the quote asset behind it; the same for every spelling of it.
   */
  lemma SymbolIs(venue: string, small: string, x: string, perpetual: bool, quote: string)
    requires SameLetters(small, x) && Plain(x) && !EndsWith(x, ".P")
    ensures var y := Spelled(small, perpetual);
      && GetSymbol(venue + ":" + y, quote) == GetSymbol(y, quote)
      && (EndsWith(x, quote) ==> GetSymbol(y, quote) == x)
      && (forall base :: x == base + "USD" && !EndsWith(x, quote) ==> GetSymbol(y, quote) == base + quote)
      && ((forall base :: x != base + "USD") && !EndsWith(x, quote) ==> GetSymbol(y, quote) == x + quote)
  {
    SpellingCleans(venue, small, x, perpetual);
    if EndsWith(x, "USD") { assert x == x[..|x| - 3] + "USD"; }
    forall base | x == base + "USD" ensures EndsWith(x, "USD") && x[..|x| - 3] == base { }
  }

  lemma UpperFixes(s: string)
    requires forall i :: 0 <= i < |s| ==> !('a' <= s[i] <= 'z')
    ensures Upper(s) == s
  {
  }

  lemma SlashedIsPlain(a: string, b: string, slashed: string)
    requires Plain(a) && Plain(b) && slashed == a + "/" + b
    ensures forall i :: 0 <= i < |slashed| ==> !('a' <= slashed[i] <= 'z') && slashed[i] != ':'
    ensures Plain(a + b)
  {
  }

  lemma SlashCleans(a: string, b: string, slashed: string, plain: string)
    requires Plain(a) && Plain(b) && slashed == a + "/" + b && plain == a + b
    ensures Cleaned(slashed) == WithoutPerpetual(plain) && Cleaned(plain) == WithoutPerpetual(plain)
  {
    SlashedIsPlain(a, b, slashed);
    UpperFixes(plain);
    CleanedIs(plain, plain);
    UpperFixes(slashed);
    NoColonToCut(slashed);
    CleaningPlain(a);
    CleaningPlain(b);
    SlashGoes(a, b);
  }

  /** A slash between base and quote makes no difference. */
  lemma SlashIsDropped(a: string, b: string, quote: string)
    requires Plain(a) && Plain(b)
    ensures GetSymbol(a + "/" + b, quote) == GetSymbol(a + b, quote)
  {
    SlashCleans(a, b, a + "/" + b, a + b);
  }

  lemma {:induction false} NoColonToCut(s: string)
    requires forall i :: 0 <= i < |s| ==> s[i] != ':'
    ensures AfterLastColon(s) == s
  {
    if s != "" { NoColonToCut(s[..|s| - 1]); }
  }

  // ----- crypto rows and positions

  datatype ExchangePosition = ExchangePosition(symbol: string, volume: real)

  function CryptoLive(p: ExchangePosition): Reconcile.LivePosition { Reconcile.LivePosition(p.symbol, {p.symbol}) }

  /** `resolve` is the executor's symbol lookup. */
  function CryptoRow(r: Row, resolve: string -> string): Reconcile.OpenRow {
    Reconcile.OpenRow(r.refSource, Some({resolve(r.symbol)}))
  }

  function CryptoRows(rows: seq<Row>, resolve: string -> string): seq<Reconcile.OpenRow> {
    var open := Open(rows, EveryOpen());
    seq(|open|, i requires 0 <= i < |open| => CryptoRow(open[i], resolve))
  }

  function CryptoPositions(live: seq<ExchangePosition>): seq<Reconcile.LivePosition> {
    seq(|live|, i requires 0 <= i < |live| => CryptoLive(live[i]))
  }

  const Manual := "MANUAL"

  function ManualRow(p: ExchangePosition, id: Ref, now: int): Row {
    Row(id, id, Manual, p.symbol, None, p.volume, None, Opened, None, Pending, None, now)
  }

  /** The row a position is imported as is recognised as that position exactly when its symbol resolves to itself. */
  lemma ImportIsTrackedIff(p: ExchangePosition, id: Ref, now: int, resolve: string -> string)
    ensures CryptoLive(p).keys * CryptoRow(ManualRow(p, id, now), resolve).keys.value != {} <==> resolve(p.symbol) == p.symbol
  {
    var key := resolve(p.symbol);
    assert key == p.symbol ==> key in {p.symbol} * {key};
  }

  /** Otherwise the imported row is closed by the next two scans while its position is live, and imported again. */
  lemma UnstableSymbolIsClosedWhileLive(scans: seq<Reconcile.Scan>, p: ExchangePosition, id: Ref, now: int, resolve: string -> string)
    requires resolve(p.symbol) != p.symbol
    requires var scan := Reconcile.Looked([CryptoLive(p)], [CryptoRow(ManualRow(p, id, now), resolve)]); scans == [scan, scan]
    ensures id in Reconcile.Closed(scans, 1) && p.symbol in Reconcile.Imported(scans, 1)
  {
    var scan, row, key := scans[0], CryptoRow(ManualRow(p, id, now), resolve), resolve(p.symbol);
    assert row in scan.rows && CryptoLive(p) in scan.live;
    assert Reconcile.LiveKeys(scan.live) == {p.symbol};
    assert row.keys.GetOr({}) == {key} && key in {key};
    assert Reconcile.TrackedKeys(scan.rows) == {key};
    assert Reconcile.StaleOver(scans)[0] == Reconcile.Stale(scan) && Reconcile.UntrackedOver(scans)[0] == Reconcile.Untracked(scan);
  }

  lemma ForeignQuoteIsUnstable()
    ensures QuoteAsset("USDT") && GetSymbol("BTCUSDC", "USDT") != "BTCUSDC"
  {
    ResolvesToItselfIff("BTCUSDC", "USDT");
  }

  // ----- untracked positions

  ghost predicate Untracked(rows: seq<Row>, p: ExchangePosition, resolve: string -> string) {
    forall i :: 0 <= i < |rows| && Active(rows[i]) ==> resolve(rows[i].symbol) != p.symbol
  }

  /** What the reconciler calls untracked is a position no open row resolves to. */
  lemma UntrackedIff(rows: seq<Row>, live: seq<ExchangePosition>, p: ExchangePosition, resolve: string -> string)
    requires p in live
    ensures p.symbol in Reconcile.UntrackedIds(CryptoRows(rows, resolve), CryptoPositions(live)) <==> Untracked(rows, p, resolve)
  {
    var positions := CryptoPositions(live);
    TrackedIff(rows, p, resolve);
    var k :| 0 <= k < |live| && live[k] == p;
    assert positions[k] in positions && positions[k] == CryptoLive(p);
    forall q | q in positions && q.id == p.symbol ensures q.keys == {p.symbol} {
      var i :| 0 <= i < |positions| && positions[i] == q;
    }
  }

  lemma TrackedIff(rows: seq<Row>, p: ExchangePosition, resolve: string -> string)
    ensures p.symbol in Reconcile.TrackedKeys(CryptoRows(rows, resolve)) <==> !Untracked(rows, p, resolve)
  {
    var open, keyed := Open(rows, EveryOpen()), CryptoRows(rows, resolve);
    OpenIff(rows, EveryOpen());
    if p.symbol in Reconcile.TrackedKeys(keyed) {
      var r :| r in keyed && p.symbol in r.keys.GetOr({});
      var i :| 0 <= i < |keyed| && keyed[i] == r;
      assert open[i] in open && open[i] in rows;
    } else {
      forall i | 0 <= i < |rows| && Active(rows[i]) ensures resolve(rows[i].symbol) != p.symbol {
        assert rows[i] in open;
        var k :| 0 <= k < |open| && open[k] == rows[i];
        assert keyed[k] in keyed && keyed[k].keys.GetOr({}) == {resolve(rows[i].symbol)};
      }
    }
  }

  // ----- platform tickets and slots

  function Digit(d: nat): char
    requires d < 10
  {
    '0' + d as char
  }

  /** The decimal text of a number. */
  function TextOf(n: int): string
    decreases if n < 0 then 1 else 0, if n < 0 then -n else n
  {
    if n < 0 then "-" + TextOf(-n)
    else if n < 10 then [Digit(n)]
    else TextOf(n / 10) + [Digit(n % 10)]
  }

  predicate IsDigits(s: string) { forall i :: 0 <= i < |s| ==> '0' <= s[i] <= '9' }

  function ValueOf(s: string): int {
    if s == "" then 0 else 10 * ValueOf(s[..|s| - 1]) + (s[|s| - 1] as int - '0' as int)
  }

  lemma {:induction false} TextOfNat(n: nat)
    ensures TextOf(n) != "" && IsDigits(TextOf(n)) && ValueOf(TextOf(n)) == n
  {
    if n >= 10 {
      TextOfNat(n / 10);
      assert TextOf(n)[..|TextOf(n)| - 1] == TextOf(n / 10);
    } else {
      assert TextOf(n)[..0] == "";
    }
  }

  lemma TextOfInt(n: int)
    ensures TextOf(n) != "" && (n < 0 <==> TextOf(n)[0] == '-')
    ensures n >= 0 ==> ValueOf(TextOf(n)) == n
    ensures n < 0 ==> ValueOf(TextOf(n)[1..]) == -n
  {
    TextOfNat(if n < 0 then -n else n);
  }

  lemma TextIsInjective(m: int, n: int)
    requires TextOf(m) == TextOf(n)
    ensures m == n
  {
    TextOfInt(m);
    TextOfInt(n);
  }

  lemma TextHasNoColon(n: int)
    ensures forall i :: 0 <= i < |TextOf(n)| ==> TextOf(n)[i] != ':'
  {
    TextOfNat(if n < 0 then -n else n);
  }

  function RefText(ref: Ref): string {
    match ref
    case Ticket(n) => TextOf(n)
    case Tag(text) => text
  }

  function TicketKey(text: string): string { "ticket:" + text }
  function SlotKey(symbol: string, magic: int): string { "slot:" + symbol + ":" + TextOf(magic) }
  function SymbolKey(symbol: string): string { "symbol:" + symbol }

  datatype PlatformPosition = PlatformPosition(ticket: int, symbol: string, magic: int)

  function ForexLiveKeys(p: PlatformPosition): set<string> {
    {TicketKey(TextOf(p.ticket)), SlotKey(p.symbol, p.magic), SymbolKey(p.symbol)}
  }

  /** `symbol` is the row's resolved one, `magic` its strategy's, when the map still knows it. */
  function ForexRowKeys(r: Row, symbol: string, magic: Option<int>): set<string> {
    {TicketKey(RefText(r.refId)), TicketKey(RefText(r.refSource)),
     if magic.Some? then SlotKey(symbol, magic.value) else SymbolKey(symbol)}
  }

  lemma {:induction false} LastColonSplits(a: string, b: string, x: string, y: string)
    requires a + ":" + x == b + ":" + y
    requires (forall i :: 0 <= i < |x| ==> x[i] != ':') && (forall i :: 0 <= i < |y| ==> y[i] != ':')
    ensures a == b && x == y
  {
    var s := a + ":" + x;
    assert s[|a|] == ':' && s[|b|] == ':';
    assert forall i :: |a| < i < |s| ==> s[i] == x[i - |a| - 1];
    assert forall i :: |b| < i < |s| ==> s[i] == y[i - |b| - 1];
    assert s[..|a|] == a && s[..|b|] == b && s[|a| + 1..] == x && s[|b| + 1..] == y;
  }

  lemma SlotIsInjective(s: string, m: int, t: string, n: int)
    requires SlotKey(s, m) == SlotKey(t, n)
    ensures s == t && m == n
  {
    TextHasNoColon(m);
    TextHasNoColon(n);
    LastColonSplits("slot:" + s, "slot:" + t, TextOf(m), TextOf(n));
    assert ("slot:" + s)[5..] == s && ("slot:" + t)[5..] == t;
    TextIsInjective(m, n);
  }

  lemma KindsDiffer(a: string, b: string, m: int, c: string)
    ensures TicketKey(a) != SlotKey(b, m) && TicketKey(a) != SymbolKey(c) && SlotKey(b, m) != SymbolKey(c)
  {
    assert TicketKey(a)[0] == 't' && SlotKey(b, m)[0] == 's' && SymbolKey(c)[0] == 's';
    assert SlotKey(b, m)[1] == 'l' && SymbolKey(c)[1] == 'y';
  }

  /** The ticket, the slot, or for an unmapped strategy the bare symbol: nothing else ever matches. */
  predicate Recognised(r: Row, symbol: string, magic: Option<int>, p: PlatformPosition) {
    || RefText(r.refId) == TextOf(p.ticket)
    || RefText(r.refSource) == TextOf(p.ticket)
    || (p.symbol == symbol && (magic.Some? ==> magic.value == p.magic))
  }

  lemma ForexKeysMatchIff(r: Row, symbol: string, magic: Option<int>, p: PlatformPosition)
    ensures ForexRowKeys(r, symbol, magic) !! ForexLiveKeys(p) <==> !Recognised(r, symbol, magic, p)
  {
    var ticket, slot, name := TicketKey(TextOf(p.ticket)), SlotKey(p.symbol, p.magic), SymbolKey(p.symbol);
    var id, source := RefText(r.refId), RefText(r.refSource);
    var own := if magic.Some? then SlotKey(symbol, magic.value) else SymbolKey(symbol);
    KindsDiffer(id, p.symbol, p.magic, p.symbol);
    KindsDiffer(source, p.symbol, p.magic, p.symbol);
    KindsDiffer(TextOf(p.ticket), symbol, magic.GetOr(0), symbol);
    KindsDiffer("", p.symbol, p.magic, symbol);
    KindsDiffer("", symbol, magic.GetOr(0), p.symbol);
    assert TicketKey(id)[7..] == id && TicketKey(source)[7..] == source && ticket[7..] == TextOf(p.ticket);
    assert SymbolKey(symbol)[7..] == symbol && name[7..] == p.symbol;
    if magic.Some? && own == slot { SlotIsInjective(symbol, magic.value, p.symbol, p.magic); }
    assert ForexRowKeys(r, symbol, magic) == {TicketKey(id), TicketKey(source), own};
    assert Recognised(r, symbol, magic, p) ==> TicketKey(id) == ticket || TicketKey(source) == ticket || own == slot || own == name;
    assert ForexLiveKeys(p) == {ticket, slot, name};
  }

  /**
   * A mapped row is stale exactly when its ticket is gone and its slot is empty: with several positions
   * per slot, a missed close stays hidden while a sibling of the same strategy and symbol is live.
   */
  lemma ForexStaleIff(r: Row, symbol: string, magic: int, live: seq<PlatformPosition>, keyed: seq<Reconcile.LivePosition>)
    requires |keyed| == |live| && forall k :: 0 <= k < |live| ==> keyed[k].keys == ForexLiveKeys(live[k])
    ensures Reconcile.IsStale(Reconcile.OpenRow(r.refSource, Some(ForexRowKeys(r, symbol, Some(magic)))), Reconcile.LiveKeys(keyed))
      <==> forall k :: 0 <= k < |live| ==> !Recognised(r, symbol, Some(magic), live[k])
  {
    var keys, all := ForexRowKeys(r, symbol, Some(magic)), Reconcile.LiveKeys(keyed);
    assert SlotKey(symbol, magic) in keys;
    forall k | 0 <= k < |live| ensures keys !! ForexLiveKeys(live[k]) <==> !Recognised(r, symbol, Some(magic), live[k]) {
      ForexKeysMatchIff(r, symbol, Some(magic), live[k]);
    }
    forall key | key in all ensures exists k :: 0 <= k < |live| && key in ForexLiveKeys(live[k]) {
      var p :| p in keyed && key in p.keys;
    }
    forall k | 0 <= k < |live| ensures ForexLiveKeys(live[k]) <= all {
      assert keyed[k] in keyed;
    }
  }
}
