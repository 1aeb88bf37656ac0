/**
 The reference model of one instrument's order book: each side is ONE list of resting
 orders, best price first and earliest arrival first at equal prices.
 The level maps, queues and index of OrderBook.dfy are proved to refine it.
 */
module BookModel {
  import opened Types

  datatype RestingOrder = RestingOrder(
    orderId: Name,
    clientOrderId: Name,
    request: OrderRequest,
    remaining: real,
    sequence: nat)

  datatype Book = Book(
    instrument: Instrument,
    bids: seq<RestingOrder>,
    asks: seq<RestingOrder>,
    nextSequence: nat)

  datatype DepthLevel = DepthLevel(price: real, totalQuantity: real, orderCount: nat)

  function Price(o: RestingOrder): real {
    if o.request.price.Some? then o.request.price.value else 0.0
  }

  /** Price `p` has strict priority over price `q` among the resting orders of `side`. */
  predicate Better(side: OrderSide, p: real, q: real) {
    if side.Buy? then p > q else p < q
  }

  predicate Before(side: OrderSide, a: RestingOrder, b: RestingOrder) {
    Better(side, Price(a), Price(b)) || (Price(a) == Price(b) && a.sequence < b.sequence)
  }

  /** Price-time priority. */
  ghost predicate Ordered(side: OrderSide, s: seq<RestingOrder>) {
    forall i, j :: 0 <= i < j < |s| ==> Before(side, s[i], s[j])
  }

  predicate HasId(s: seq<RestingOrder>, id: Name) {
    exists i :: 0 <= i < |s| && s[i].orderId == id
  }

  function Orders(b: Book, side: OrderSide): seq<RestingOrder> {
    if side.Buy? then b.bids else b.asks
  }

  function WithOrders(b: Book, side: OrderSide, s: seq<RestingOrder>): Book {
    if side.Buy? then b.(bids := s) else b.(asks := s)
  }

  predicate Known(b: Book, id: Name) {
    HasId(b.bids, id) || HasId(b.asks, id)
  }

  /** Inserts `o` behind every order whose price is at least as good. */
  function Insert(side: OrderSide, s: seq<RestingOrder>, o: RestingOrder): seq<RestingOrder> {
    if s == [] then [o]
    else if Better(side, Price(o), Price(s[0])) then [o] + s
    else [s[0]] + Insert(side, s[1..], o)
  }

  /** Puts `r` in place of the first order with this id. */
  function Replace(s: seq<RestingOrder>, id: Name, r: seq<RestingOrder>): seq<RestingOrder> {
    if s == [] then []
    else if s[0].orderId == id then r + s[1..]
    else [s[0]] + Replace(s[1..], id, r)
  }

  /** The list with `r` in place of position `j`. */
  function Cut(queue: seq<RestingOrder>, j: nat, r: seq<RestingOrder>): seq<RestingOrder>
    requires j < |queue|
  {
    queue[..j] + r + queue[j + 1..]
  }

  /** What is left of `o` after `quantity` of it executed: nothing once at most the tolerance remains. */
  function Residue(o: RestingOrder, quantity: real): seq<RestingOrder> {
    var left := Max(0.0, o.remaining - quantity);
    if left <= TOLERANCE then [] else [o.(remaining := left)]
  }

  function Lookup(s: seq<RestingOrder>, id: Name): (r: Option<RestingOrder>)
    ensures r.Some? <==> HasId(s, id)
    ensures r.Some? ==> r.value in s && r.value.orderId == id
  {
    if s == [] then None
    else if s[0].orderId == id then Some(s[0])
    else
      assert HasId(s, id) <==> HasId(s[1..], id) by {
        if HasId(s, id) {
          var i :| 0 <= i < |s| && s[i].orderId == id;
          assert s[1..][i - 1].orderId == id;
        }
      }
      Lookup(s[1..], id)
  }

  function Remove(s: seq<RestingOrder>, id: Name): seq<RestingOrder> {
    Replace(s, id, [])
  }

  function Reduce(s: seq<RestingOrder>, id: Name, quantity: real): seq<RestingOrder> {
    var o := Lookup(s, id);
    if o.None? then s else Replace(s, id, Residue(o.value, quantity))
  }

  function Find(b: Book, id: Name): Option<RestingOrder> {
    if HasId(b.bids, id) then Lookup(b.bids, id) else Lookup(b.asks, id)
  }

  predicate Compatible(b: Book, request: OrderRequest, id: Name, clientId: Name, filled: real) {
    && id != Empty && clientId != Empty
    && request.instrument.instrumentId == b.instrument.instrumentId
    && request.orderType == Limit
    && request.price.Some? && request.price.value > 0.0
    && request.quantity > 0.0 && filled >= 0.0 && filled < request.quantity - TOLERANCE
    && !Known(b, id)
  }

  function Add(b: Book, request: OrderRequest, id: Name, clientId: Name, filled: real): (Book, bool) {
    if !Compatible(b, request, id, clientId, filled) then (b, false)
    else
      var o := RestingOrder(id, clientId, request, Max(0.0, request.quantity - filled), b.nextSequence);
      var b' := WithOrders(b, request.side, Insert(request.side, Orders(b, request.side), o));
      (b'.(nextSequence := b.nextSequence + 1), true)
  }

  function Cancel(b: Book, id: Name): (Book, bool) {
    if HasId(b.bids, id) then (b.(bids := Remove(b.bids, id)), true)
    else if HasId(b.asks, id) then (b.(asks := Remove(b.asks, id)), true)
    else (b, false)
  }

  function Fill(b: Book, id: Name, quantity: real): (Book, bool) {
    var o := Find(b, id);
    if quantity <= TOLERANCE || o.None? || quantity > o.value.remaining + TOLERANCE then (b, false)
    else if HasId(b.bids, id) then (b.(bids := Reduce(b.bids, id, quantity)), true)
    else (b.(asks := Reduce(b.asks, id, quantity)), true)
  }

  /** Total quantity and number of orders at each price of an ordered side, best price first. */
  function Depth(s: seq<RestingOrder>): seq<DepthLevel> {
    if s == [] then []
    else
      var rest := Depth(s[1..]);
      if rest != [] && rest[0].price == Price(s[0])
      then [DepthLevel(rest[0].price, rest[0].totalQuantity + s[0].remaining, rest[0].orderCount + 1)] + rest[1..]
      else [DepthLevel(Price(s[0]), s[0].remaining, 1)] + rest
  }

  /** What every order resting on `side` of the book of instrument `key` satisfies. */
  predicate Resting(o: RestingOrder, key: Name, side: OrderSide, nextSequence: nat) {
    && o.orderId != Empty && o.clientOrderId != Empty
    && o.request.instrument.instrumentId == key
    && o.request.side == side
    && o.request.orderType == Limit
    && o.request.price.Some? && o.request.price.value > 0.0
    && TOLERANCE < o.remaining <= o.request.quantity
    && o.sequence < nextSequence
  }

  ghost predicate Distinct(s: seq<RestingOrder>) {
    forall i, j :: 0 <= i < j < |s| ==> s[i].orderId != s[j].orderId
  }

  ghost predicate Apart(s: seq<RestingOrder>, t: seq<RestingOrder>) {
    forall x, y :: x in s && y in t ==> x.orderId != y.orderId
  }

  ghost predicate SideOk(b: Book, side: OrderSide) {
    && Ordered(side, Orders(b, side))
    && Distinct(Orders(b, side))
    && forall o :: o in Orders(b, side) ==> Resting(o, b.instrument.instrumentId, side, b.nextSequence)
  }

  /** The book invariant, on the reference model. */
  ghost predicate BookOk(b: Book) {
    match b
    case Book(_, bids, asks, _) => SideOk(b, Buy) && SideOk(b, Sell) && Apart(bids, asks)
  }

}
