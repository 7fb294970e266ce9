/** The order record of the manager and the pure effect of every request and every answer on it. */
module Orders {

  type OrderId = nat

  datatype Side = Buy | Sell

  datatype RequestKind = NoRequest | CreateOrder | ModifyOrder | CancelOrder

  datatype Status = Undefined | Working | Completed | Canceled | Rejected | OtherStatus

  /** One version of an order: what was asked, what was granted, or what is expected to hold.
      Prices are ticks, quantities lots; the fields of a version never filled in are 0. */
  datatype Version = Version(kind: RequestKind, status: Status, version: nat, price: int, quantity: int)

  const BLANK := Version(NoRequest, Undefined, 0, 0, 0)

  datatype Order = Order(
    id: OrderId,
    side: Side,
    traded: int,
    remaining: int,
    pending: Version,
    confirmed: Version,
    expected: Version,
    acceptVersion: nat,
    rejectVersion: nat,
    rejects: nat)
  {
    predicate InFlight() { pending.kind != NoRequest }

    /** An order the scan of the book does not skip. */
    predicate Live() { confirmed.status != Completed && confirmed.status != Canceled }

    /** Confirmed at least once and with nothing in flight: the only orders the manager may touch. */
    predicate Free() { confirmed.version != 0 && !InFlight() }

    function Where(): Cell { Cell(side, expected.price) }
  }

  /** A price level is identified by its side and tick index. */
  datatype Cell = Cell(side: Side, price: int)

  /** A request as sent to the gateway. A create is conditional on nothing. */
  datatype Request = Request(kind: RequestKind, id: OrderId, version: nat, conditionalOn: nat,
                             side: Side, price: int, quantity: int)

  /** An order report from the gateway. */
  datatype Report = Report(id: OrderId, side: Side, price: int, remaining: int, traded: int, lastPrice: int,
                           status: Status, stale: bool, maxAccepted: nat, maxResponse: nat)

  // ----- requests ---------------------------------------------------------------------------

  function Created(id: OrderId, c: Cell, quantity: int): Order {
    var asked := Version(CreateOrder, Undefined, 1, c.price, quantity);
    Order(id, c.side, 0, quantity, asked, BLANK, asked, 0, 0, 0)
  }

  function Modified(o: Order, price: int, quantity: int): Order {
    var asked := o.pending.(kind := ModifyOrder, version := o.pending.version + 1, price := price, quantity := quantity);
    o.(pending := asked, expected := asked)
  }

  function CancelAsked(o: Order): Order {
    var asked := o.pending.(kind := CancelOrder, version := o.pending.version + 1,
                            price := o.expected.price, quantity := 0);
    o.(pending := asked, expected := asked)
  }

  function RequestFor(o: Order): Request {
    Request(o.pending.kind, o.id, o.pending.version,
            if o.pending.kind == CreateOrder then 0 else o.confirmed.version,
            o.side, o.pending.price, o.pending.quantity)
  }

  // ----- answers ----------------------------------------------------------------------------

  function ModifyRejected(o: Order, version: nat): Order {
    o.(rejectVersion := version, rejects := o.rejects + 1,
       expected := o.confirmed, pending := o.pending.(kind := NoRequest))
  }

  function CancelRejected(o: Order): Order {
    o.(expected := o.confirmed, pending := o.pending.(kind := NoRequest))
  }

  /** The gateway says the order is gone: the confirmed version is closed, the others stay. */
  function TooLate(o: Order): Order {
    o.(confirmed := o.confirmed.(kind := NoRequest, status := Canceled, price := o.pending.price, quantity := 0))
  }

  function Confirmed(o: Order, u: Report): Order {
    var granted := o.confirmed.(status := u.status, price := u.price, quantity := u.remaining, version := u.maxAccepted);
    o.(confirmed := granted, traded := u.traded, pending := o.pending.(kind := NoRequest), expected := granted)
  }

  function Adopted(u: Report): Order {
    var granted := Version(CreateOrder, u.status, u.maxAccepted, u.price, u.remaining);
    Order(u.id, u.side, u.traded, u.remaining, BLANK.(version := u.maxResponse), granted, granted, 0, 0, 0)
  }

  // ----- the triple -------------------------------------------------------------------------

  /** What holds between the three versions of an order at all times: in flight, the request is
      what is expected; otherwise the grant is, unless the gateway said the order is gone. */
  predicate Triple(o: Order) {
    && (o.InFlight() ==> o.expected == o.pending)
    && (!o.InFlight() && o.confirmed.status != Canceled ==> o.expected == o.confirmed)
    && (o.pending.kind == CancelOrder ==> o.pending.quantity == 0)
  }
}
