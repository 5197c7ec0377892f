/** Value types shared by every component of the trading engine. */
module Types {

  datatype Option<+T> = None | Some(value: T) {
    function GetOr(default: T): T {
      match this
      case Some(v) => v
      case None => default
    }
  }

  datatype Result<+T, +E> = Success(value: T) | Failure(error: E)

  type StrategyId = string
  type OrderId = string
  type TradeId = string

  /** Contract multipliers are positive; a missing one defaults to 1. */
  type Multiplier = m: real | m > 0.0 witness 1.0

  datatype Instrument = Instrument(
    assetClass: string,
    symbol: string,
    exchange: Option<string>,
    currency: Option<string>,
    expiry: Option<Expiry>,
    strike: Option<real>,
    right: Option<string>,
    multiplier: Multiplier)

  datatype Expiry = Expiry(year: int, month: int, day: int)

  datatype Side = Long | Short

  /** The bar a replay feed delivers: integer UTC seconds, real prices. */
  datatype Bar = Bar(
    instrument: Instrument,
    timestamp: int,
    open: real,
    high: real,
    low: real,
    close: real,
    volume: real)

  datatype Fill = Fill(
    orderId: OrderId,
    instrument: Instrument,
    side: Side,
    quantity: int,
    price: real,
    timestamp: int)

  datatype OrderType = Market | Limit | Stop | StopLimit

  datatype OrderRequest = OrderRequest(
    instrument: Instrument,
    side: Side,
    quantity: int,
    orderType: OrderType,
    limitPrice: Option<real>,
    stopPrice: Option<real>,
    strategyId: StrategyId,
    idempotencyKey: OrderId,
    clientOrderId: Option<OrderId>)

  datatype Status = Pending | Open | Filled | Cancelled | Rejected

  datatype OrderStatus = OrderStatus(orderId: OrderId, status: Status)

  datatype Position = Position(
    instrument: Instrument,
    quantity: int,
    avgCost: real,
    tradeId: Option<TradeId>)

  function Abs(n: int): (r: nat)
    ensures r == n || r == -n
  {
    if n < 0 then -n else n
  }

  function AbsReal(x: real): (r: real)
    ensures r >= 0.0 && (r == x || r == -x)
  {
    if x < 0.0 then -x else x
  }

  function Min(a: int, b: int): int {
    if a <= b then a else b
  }

  /** How the portfolio, the ledger, the sizing model and the paper broker sign a fill. */
  function SignedQuantity(side: Side, quantity: int): int {
    if side.Long? then quantity else -quantity
  }

  /** Net quantity held; a missing key is flat. */
  function Held(positions: map<Instrument, int>, i: Instrument): int {
    if i in positions then positions[i] else 0
  }

  /** Adds to a dictionary position and drops the key when it becomes flat. */
  function Adjusted(positions: map<Instrument, int>, i: Instrument, quantity: int): map<Instrument, int> {
    var total := Held(positions, i) + quantity;
    if total == 0 then positions - {i} else positions[i := total]
  }

  // ---------------------------------------------------------------- money

  /** Worth of a signed quantity at a price. */
  function Value(quantity: real, price: real, multiplier: real): real {
    quantity * price * multiplier
  }

  /** Gain on a signed quantity entered at one price and left at another. */
  function Profit(quantity: real, entry: real, exit: real, multiplier: real): real {
    (exit - entry) * quantity * multiplier
  }

  function AveragePrice(p: real, a: real, q: real, b: real): real
    requires a + b != 0.0
  {
    (p * a + q * b) / (a + b)
  }

  lemma ValueAdd(a: real, b: real, price: real, m: real)
    ensures Value(a + b, price, m) == Value(a, price, m) + Value(b, price, m)
  {
    assert (a + b) * price == a * price + b * price;
  }

  lemma ValueZero(price: real, m: real)
    ensures Value(0.0, price, m) == 0.0
  {
  }

  lemma ValueNegate(a: real, price: real, m: real)
    ensures Value(-a, price, m) == -Value(a, price, m)
  {
    assert (-a) * price == -(a * price);
  }

  lemma ProfitSplit(c: real, entry: real, exit: real, m: real)
    ensures Profit(c, entry, exit, m) == Value(c, exit, m) - Value(c, entry, m)
  {
    assert (exit - entry) * c == c * exit - c * entry;
  }

  lemma WeightedAverage(p: real, a: real, q: real, b: real, m: real)
    requires a + b != 0.0
    ensures Value(a + b, AveragePrice(p, a, q, b), m) == Value(a, p, m) + Value(b, q, m)
  {
    var average := AveragePrice(p, a, q, b);
    assert (a + b) * average == p * a + q * b;
    assert (p * a + q * b) * m == p * a * m + q * b * m;
  }

  // ---------------------------------------------------------------- whole-number division

  lemma DivMod(x: int, d: int)
    requires d > 0
    ensures x == x / d * d + x % d && 0 <= x % d < d
  {
  }

  lemma QuotientUnique(q: int, r: int, k: int, s: int, d: int)
    requires d > 0 && 0 <= r < d && 0 <= s < d && q * d + r == k * d + s
    ensures q == k && r == s
  {
    assert (q - k) * d == s - r && (k - q) * d == r - s;
    if q > k {
      AtLeastOne(q - k, d);
    }
    if q < k {
      AtLeastOne(k - q, d);
    }
  }

  lemma AtLeastOne(n: int, d: int)
    requires n >= 1 && d > 0
    ensures n * d >= d
  {
  }

  lemma MultipleMod(q: int, d: int)
    requires d > 0
    ensures (q * d) % d == 0 && (q * d) / d == q
  {
    var x := q * d;
    DivMod(x, d);
    QuotientUnique(x / d, x % d, q, 0, d);
  }
}
