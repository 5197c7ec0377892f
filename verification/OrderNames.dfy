/**
 The keys the order manager derives for its orders, which the paper broker takes
 as order ids: a strategy's name, the contract's symbol, what the order is for
 and the trade id, joined by dashes.
 */
module OrderNames {
  import opened Types
  import opened OrderIndex
  import opened OrderReuse

  function Join(ts: seq<string>): string
    requires ts != []
  {
    if |ts| == 1 then ts[0] else ts[0] + "-" + Join(ts[1..])
  }

  predicate Dashless(t: string) { '-' !in t }

  predicate AllDashless(ts: seq<string>) {
    forall k :: 0 <= k < |ts| ==> Dashless(ts[k])
  }

  lemma ShorterToken(a: string, x: string, b: string, y: string)
    requires Dashless(b) && |a| < |b|
    ensures a + "-" + x != b + "-" + y
  {
    assert (a + "-" + x)[|a|] == '-' && (b + "-" + y)[|a|] == b[|a|];
  }

  lemma FirstToken(a: string, x: string, b: string, y: string)
    requires Dashless(a) && Dashless(b) && a + "-" + x == b + "-" + y
    ensures a == b && x == y
  {
    var s, t := a + "-" + x, b + "-" + y;
    if |a| < |b| { ShorterToken(a, x, b, y); }
    if |b| < |a| { ShorterToken(b, y, a, x); }
    assert a == s[..|a|] && b == t[..|a|];
    assert x == s[|a| + 1..] && y == t[|a| + 1..];
  }

  lemma JoinHasDash(ts: seq<string>)
    requires |ts| > 1
    ensures !Dashless(Join(ts))
  {
    assert Join(ts)[|ts[0]|] == '-';
  }

  /** A text has only one reading as dashless tokens. */
  lemma {:induction false} JoinReads(a: seq<string>, b: seq<string>)
    requires a != [] && b != [] && AllDashless(a) && AllDashless(b) && Join(a) == Join(b)
    ensures a == b
  {
    if |a| > 1 && |b| > 1 {
      FirstToken(a[0], Join(a[1..]), b[0], Join(b[1..]));
      JoinReads(a[1..], b[1..]);
      assert a == [a[0]] + a[1..] && b == [b[0]] + b[1..];
    } else if |a| > 1 {
      JoinHasDash(a);
    } else if |b| > 1 {
      JoinHasDash(b);
    }
  }

  lemma {:induction false} JoinConcat(a: seq<string>, b: seq<string>)
    requires a != [] && b != []
    ensures Join(a + b) == Join(a) + "-" + Join(b)
  {
    if |a| == 1 {
      assert (a + b)[1..] == b;
    } else {
      assert (a + b)[1..] == a[1..] + b;
      JoinConcat(a[1..], b);
    }
  }

  // ---------------------------------------------------------------- the keys

  /** What an order is for: an entry signal, an intent, a close, the stop of an entry, or a stop update. */
  datatype Use =
    | SignalEntry(side: string)
    | IntentOf(role: string, side: string)
    | CloseFor(reason: string)
    | StopAfterSignal(side: string)
    | StopAfterIntent(side: string)
    | StopUpdated

  datatype OrderName = OrderName(s: StrategyId, i: Instrument, trade: Option<TradeId>, use: Use)

  /** How a strategy is named in its orders' keys. */
  type Naming = StrategyId -> string

  function RoleNamed(role: string): Role {
    if role == "entry" then Entry
    else if role == "close" then Close
    else if role == "protective_stop" then ProtectiveStop
    else OtherRole(role)
  }

  function RoleOf(use: Use): Role {
    match use
    case SignalEntry(_) => Entry
    case IntentOf(role, _) => RoleNamed(role)
    case CloseFor(_) => Close
    case _ => ProtectiveStop
  }

  function MeaningOf(n: OrderName): Meaning { Meaning((n.s, n.i, n.trade), RoleOf(n.use)) }

  function Traded(trade: Option<TradeId>): seq<string> { if trade.Some? then [trade.value] else [] }

  function EntryTokens(named: Naming, n: OrderName): seq<string> {
    [named(n.s), n.i.symbol] + UseTokens(named, n) + Traded(n.trade)
  }

  function UseTokens(named: Naming, n: OrderName): seq<string> {
    match n.use
    case SignalEntry(side) => [side]
    case IntentOf(role, side) => [role, side]
    case CloseFor(reason) => ["close", reason]
    case StopAfterSignal(side) => ["protective", "stop", named(n.s), n.i.symbol, side] + Traded(n.trade)
    case StopAfterIntent(side) => ["protective", "stop", named(n.s), n.i.symbol, "entry", side] + Traded(n.trade)
    case StopUpdated => ["protective", "stop", "update"]
  }

  function KeyText(named: Naming, n: OrderName): string { Join(EntryTokens(named, n)) }

  predicate IsSide(side: string) { side == "long" || side == "short" }

  /** Names, symbols, roles, reasons and trade ids free of dashes, and no role that reads like a side or a stop. */
  predicate Proper(named: Naming, n: OrderName) {
    && Dashless(named(n.s)) && Dashless(n.i.symbol)
    && (n.trade.Some? ==> Dashless(n.trade.value) && n.trade.value != "")
    && (match n.use
        case SignalEntry(side) => IsSide(side)
        case IntentOf(role, side) => Dashless(role) && IsSide(side) && !IsSide(role) && role != "protective"
        case CloseFor(reason) => Dashless(reason)
        case StopAfterSignal(side) => IsSide(side)
        case StopAfterIntent(side) => IsSide(side)
        case StopUpdated => true)
  }

  lemma WordsDashless()
    ensures AllDashless(["close", "protective", "stop", "entry", "update", "long", "short"])
  {
  }

  lemma UseDashless(named: Naming, n: OrderName)
    requires Proper(named, n)
    ensures AllDashless(UseTokens(named, n))
  {
    WordsDashless();
    var words := ["close", "protective", "stop", "entry", "update", "long", "short"];
    assert words[0] == "close" && words[1] == "protective" && words[2] == "stop" && words[3] == "entry";
    assert words[4] == "update" && words[5] == "long" && words[6] == "short";
    hide Dashless;
  }

  lemma TokensDashless(named: Naming, n: OrderName)
    requires Proper(named, n)
    ensures AllDashless(EntryTokens(named, n))
  {
    UseDashless(named, n);
    hide Dashless, UseTokens;
  }

  /** A proper key tells what the order is for. */
  lemma KeysTell(named: Naming, m: OrderName, n: OrderName)
    requires Proper(named, m) && Proper(named, n) && KeyText(named, m) == KeyText(named, n)
    ensures named(m.s) == named(n.s) && m.i.symbol == n.i.symbol && m.trade == n.trade && RoleOf(m.use) == RoleOf(n.use)
  {
    TokensDashless(named, m);
    TokensDashless(named, n);
    var a, b := EntryTokens(named, m), EntryTokens(named, n);
    JoinReads(a, b);
    assert a[0] == named(m.s) && a[1] == m.i.symbol && b[0] == named(n.s) && b[1] == n.i.symbol;
    ThirdToken(named, m);
    ThirdToken(named, n);
    hide EntryTokens, Proper;
    assert |a| == |b| && a[2] == b[2] && a[|a| - 1] == b[|b| - 1];
  }

  /** Length and third token tell the use apart, the last token the trade. */
  lemma ThirdToken(named: Naming, n: OrderName)
    requires Proper(named, n)
    ensures var ts, extra := EntryTokens(named, n), if n.trade.Some? then 1 else 0;
            && |ts| >= 3
            && (n.trade.Some? ==> ts[|ts| - 1] == n.trade.value)
            && (match n.use
                case SignalEntry(_) => IsSide(ts[2]) && |ts| == 3 + extra
                case IntentOf(role, _) => !IsSide(ts[2]) && ts[2] != "protective" && ts[2] == role && |ts| == 4 + extra
                case CloseFor(_) => ts[2] == "close" && |ts| == 4 + extra
                case StopAfterSignal(_) => ts[2] == "protective" && |ts| == 7 + 2 * extra
                case StopAfterIntent(_) => ts[2] == "protective" && |ts| == 8 + 2 * extra
                case StopUpdated => ts[2] == "protective" && |ts| == 5 + extra)
  {
  }

  // ---------------------------------------------------------------- families of names

  /** The names under which orders may go out. */
  type Family = OrderName -> bool

  /** Equal keys stand for the same position and role. */
  ghost predicate Telling(named: Naming, family: Family) {
    forall m, n :: family(m) && family(n) && KeyText(named, m) == KeyText(named, n) ==> MeaningOf(m) == MeaningOf(n)
  }

  /** With an entry, the stop its fill asks for. */
  ghost predicate Closed(family: Family) {
    forall n :: family(n) && RoleOf(n.use) == Entry ==> family(n.(use := StopUse(n.use)))
  }

  ghost predicate Coherent(named: Naming, family: Family) { Telling(named, family) && Closed(family) }

  ghost predicate IsKey(named: Naming, family: Family, id: OrderId) {
    exists n :: family(n) && KeyText(named, n) == id
  }

  /** What a derived key means; anything for other ids. */
  ghost function Means(named: Naming, family: Family, id: OrderId): Meaning {
    if IsKey(named, family, id) then
      var n :| family(n) && KeyText(named, n) == id;
      MeaningOf(n)
    else Meaning(("", Instrument("", "", None, None, None, None, None, 1.0), None), Entry)
  }

  ghost function MeaningsOf(named: Naming, family: Family): Meanings {
    (id: OrderId) => Means(named, family, id)
  }

  lemma MeansSome(named: Naming, family: Family, id: OrderId) returns (n: OrderName)
    requires IsKey(named, family, id)
    ensures family(n) && KeyText(named, n) == id && Means(named, family, id) == MeaningOf(n)
  {
    hide KeyText, MeaningOf;
    n :| family(n) && KeyText(named, n) == id && Means(named, family, id) == MeaningOf(n);
  }

  lemma KeyMeans(named: Naming, family: Family, n: OrderName)
    requires Telling(named, family) && family(n)
    ensures IsKey(named, family, KeyText(named, n))
    ensures Means(named, family, KeyText(named, n)) == MeaningOf(n)
  {
    var id := KeyText(named, n);
    hide KeyText;
    assert IsKey(named, family, id);
    var m := MeansSome(named, family, id);
  }

  // ---------------------------------------------------------------- one contract per symbol

  /** Among the pairs traded, strategy name and symbol determine strategy and contract. */
  ghost predicate OneContract(named: Naming, traded: set<(StrategyId, Instrument)>) {
    forall x, y :: x in traded && y in traded && named(x.0) == named(y.0) && x.1.symbol == y.1.symbol ==> x == y
  }

  /** The pairs whose strategy name and symbol have no dash. */
  function Undashed(named: Naming, traded: set<(StrategyId, Instrument)>): set<(StrategyId, Instrument)> {
    set x | x in traded && Dashless(named(x.0)) && Dashless(x.1.symbol)
  }

  predicate Allowed(named: Naming, traded: set<(StrategyId, Instrument)>, n: OrderName) {
    (n.s, n.i) in traded && Proper(named, n)
  }

  /** The proper names of the pairs traded. */
  function ProperNames(named: Naming, traded: set<(StrategyId, Instrument)>): Family {
    (n: OrderName) => Allowed(named, traded, n)
  }

  /** Every name of the pairs traded, with dashes or not. */
  function AllNames(traded: set<(StrategyId, Instrument)>): Family {
    (n: OrderName) => (n.s, n.i) in traded
  }

  lemma ProperTells(named: Naming, traded: set<(StrategyId, Instrument)>)
    requires OneContract(named, Undashed(named, traded))
    ensures Coherent(named, ProperNames(named, traded))
  {
    hide KeyText;
    var family := ProperNames(named, traded);
    forall m, n | family(m) && family(n) && KeyText(named, m) == KeyText(named, n) ensures MeaningOf(m) == MeaningOf(n) {
      KeysTell(named, m, n);
      assert (m.s, m.i) in Undashed(named, traded) && (n.s, n.i) in Undashed(named, traded);
    }
  }

  lemma KeyNotEmpty(named: Naming, n: OrderName)
    ensures KeyText(named, n) != ""
  {
  }

  // ---------------------------------------------------------------- the stop of an entry

  /** The key of the stop submitted for an entry's fill. */
  function StopKeyFor(named: Naming, s: StrategyId, i: Instrument, entry: OrderId, trade: Option<TradeId>): OrderId {
    named(s) + "-" + i.symbol + "-protective-stop-" + entry + (if trade.Some? then "-" + trade.value else "")
  }

  function StopUse(entry: Use): Use
    requires entry.SignalEntry? || entry.IntentOf?
  {
    if entry.SignalEntry? then StopAfterSignal(entry.side) else StopAfterIntent(entry.side)
  }

  /** The tokens of a stop's key around those of its entry's. */
  lemma StopTokens(named: Naming, n: OrderName)
    requires n.use.SignalEntry? || (n.use.IntentOf? && n.use.role == "entry")
    ensures EntryTokens(named, n.(use := StopUse(n.use)))
         == [named(n.s), n.i.symbol, "protective", "stop"] + EntryTokens(named, n) + Traded(n.trade)
  {
  }

  lemma Assembled(name: string, symbol: string, entry: string)
    ensures (name + "-" + symbol + "-protective-stop") + "-" + entry == name + "-" + symbol + "-protective-stop-" + entry
  {
    assert "-protective-stop" + "-" == "-protective-stop-";
  }

  /** It is the derived key of a stop when the entry's own id was a derived key. */
  lemma StopKeyIsKey(named: Naming, n: OrderName)
    requires n.use.SignalEntry? || (n.use.IntentOf? && n.use.role == "entry")
    ensures StopKeyFor(named, n.s, n.i, KeyText(named, n), n.trade) == KeyText(named, n.(use := StopUse(n.use)))
  {
    StopTokens(named, n);
    StopHead(named(n.s), n.i.symbol);
    var head, own, tail := [named(n.s), n.i.symbol, "protective", "stop"], EntryTokens(named, n), Traded(n.trade);
    hide EntryTokens, Join;
    JoinConcat(head, own);
    Assembled(named(n.s), n.i.symbol, Join(own));
    if n.trade.Some? {
      JoinConcat(head + own, tail);
      JoinOne(n.trade.value);
    } else {
      assert head + own + tail == head + own;
    }
  }

  lemma JoinOne(t: string)
    ensures Join([t]) == t
  {
  }

  lemma StopHead(name: string, symbol: string)
    ensures Join([name, symbol, "protective", "stop"]) == name + "-" + symbol + "-protective-stop"
  {
    var ts := [name, symbol, "protective", "stop"];
    assert ts[1..] == [symbol, "protective", "stop"] && ts[1..][1..] == ["protective", "stop"];
    assert ["protective", "stop"][1..] == ["stop"];
    assert Join(["protective", "stop"]) == "protective-stop";
  }
}
