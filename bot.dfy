/** The bot itself: the per-user sessions (`context.user_data`), the order
    ledger the handlers write to, and the messages sent so far. Each Telegram
    handler is a method that runs the matching session step, applies its
    order writes to the ledger one `update_order` at a time and sends its
    replies. */
module Bot {
  import opened Text
  import opened Json
  import opened Ledger
  import opened Reports
  import opened Session

  /** One line of the `/orders_last` listing. */
  datatype OrderRow = OrderRow(id: int, userId: int, payload: string, amountStars: int, status: string, date: string)

  /** What the bot sends: a dialogue reply, or one of the answers of
      `/orders_last`. */
  datatype Message =
    | Dialogue(reply: Reply)
    | NotAllowed
    | NoOrdersYet
    | OrderList(rows: seq<OrderRow>)

  function Addressed(user: int, rs: seq<Reply>): (r: seq<(int, Message)>)
    ensures |r| == |rs| && forall i :: 0 <= i < |rs| ==> r[i] == (user, Dialogue(rs[i]))
  {
    seq(|rs|, i requires 0 <= i < |rs| => (user, Dialogue(rs[i])))
  }

  /** A step's writes to its own order leave every other order as it was. */
  lemma OwnWritesFrame(orders: map<int, Order>, ws: seq<Write>, now: string, orderId: Option<int>)
    requires WritesOwnOrder(ws, orderId)
    ensures ApplyWrites(orders, ws, now).Keys == orders.Keys
    ensures forall id :: id in orders && Some(id) != orderId ==> ApplyWrites(orders, ws, now)[id] == orders[id]
  {
    ApplyWritesFrame(orders, ws, now, 0);
    forall id | id in orders && Some(id) != orderId
      ensures ApplyWrites(orders, ws, now)[id] == orders[id]
    {
      ApplyWritesFrame(orders, ws, now, id);
    }
  }

  // ------------------------------------------------------------------
  // /orders_last

  /** `int(ADMIN_ID)`, or 0 when it does not convert. */
  function AdminNumber(adminId: string, toInt: string -> Option<int>): int {
    match toInt(adminId)
    case Some(n) => n
    case None => 0
  }

  /** Only the configured admin may list orders; with no (or a zero) admin
      id everyone may. */
  predicate MayListOrders(user: int, adminId: string, toInt: string -> Option<int>) {
    AdminNumber(adminId, toInt) == 0 || user == AdminNumber(adminId, toInt)
  }

  /** The date part of an ISO timestamp: the text before its first 'T', all
      of it when there is none, and empty for an empty one. */
  function DatePart(created: string): (r: string)
    ensures r <= created && 'T' !in r
    ensures |r| < |created| ==> created[|r|] == 'T'
  {
    if created == "" then "" else SplitOn(created, 'T')[0]
  }

  function RowOf(id: int, o: Order): OrderRow {
    OrderRow(id, o.userId, o.payload, o.amountStars, o.status, DatePart(o.createdAt))
  }

  /** The rows the query returns for the selected ids, in their order. */
  function Rows(ids: seq<int>, orders: map<int, Order>): seq<OrderRow>
    decreases |ids|
  {
    if ids == [] then []
    else
      var id := ids[|ids| - 1];
      Rows(ids[..|ids| - 1], orders) + (if id in orders then [RowOf(id, orders[id])] else [])
  }

  lemma {:induction false} RowsOfStoredIds(ids: seq<int>, orders: map<int, Order>)
    requires forall i :: 0 <= i < |ids| ==> ids[i] in orders
    ensures var r := Rows(ids, orders);
      |r| == |ids| && forall i :: 0 <= i < |ids| ==> r[i] == RowOf(ids[i], orders[ids[i]])
    decreases |ids|
  {
    if ids != [] {
      var init := ids[..|ids| - 1];
      forall i | 0 <= i < |init| ensures init[i] in orders { assert init[i] == ids[i]; }
      RowsOfStoredIds(init, orders);
    }
  }

  /** The answer of `/orders_last` with the given arguments. */
  function OrdersAnswer(user: int, args: seq<string>, toInt: string -> Option<int>, adminId: string,
                        orders: map<int, Order>, nextId: int): Message
  {
    if !MayListOrders(user, adminId, toInt) then NotAllowed
    else
      var ids := LastOrders(orders, nextId - 1, FetchLimit(args, toInt));
      if ids == [] then NoOrdersYet else OrderList(Rows(ids, orders))
  }

  /** Within the valid ids, the newest orders are empty exactly when the
      ledger is. */
  lemma LastOrdersEmptyIff(orders: map<int, Order>, nextId: int, cap: nat)
    requires nextId >= 1 && forall id :: id in orders ==> 1 <= id < nextId
    requires cap >= 1
    ensures LastOrders(orders, nextId - 1, cap) == [] <==> orders == map[]
  {
    var ids := LastOrders(orders, nextId - 1, cap);
    LastOrdersBounded(orders, nextId - 1, cap);
    if orders != map[] {
      assert exists k :: k in orders by {
        if forall k :: k !in orders { assert false; }
      }
      var id :| id in orders;
      LastOrdersComplete(orders, nextId - 1, cap, id);
    }
    if ids != [] {
      assert ids[0] in orders;
    }
  }

  /** The listed rows: the stored orders, newest first, at most `cap`, and
      no order newer than the last one listed is missing. */
  lemma ListedRows(orders: map<int, Order>, nextId: int, cap: nat)
    requires nextId >= 1 && forall id :: id in orders ==> 1 <= id < nextId
    requires LastOrders(orders, nextId - 1, cap) != []
    ensures var rows := Rows(LastOrders(orders, nextId - 1, cap), orders);
      1 <= |rows| <= cap
      && (forall i :: 0 <= i < |rows| ==> rows[i].id in orders && rows[i] == RowOf(rows[i].id, orders[rows[i].id]))
      && (forall i, j :: 0 <= i < j < |rows| ==> rows[i].id > rows[j].id)
      && (forall id :: id in orders && id > rows[|rows| - 1].id ==> exists i :: 0 <= i < |rows| && rows[i].id == id)
  {
    var ids := LastOrders(orders, nextId - 1, cap);
    LastOrdersBounded(orders, nextId - 1, cap);
    LastOrdersDescending(orders, nextId - 1, cap);
    RowsOfStoredIds(ids, orders);
    var rows := Rows(ids, orders);
    forall id | id in orders && id > rows[|rows| - 1].id
      ensures exists i :: 0 <= i < |rows| && rows[i].id == id
    {
      LastOrdersComplete(orders, nextId - 1, cap, id);
      assert id in ids;
      var i :| 0 <= i < |ids| && ids[i] == id;
      assert rows[i].id == id;
    }
  }

  /** `/orders_last`: a user other than the admin is refused; otherwise the
      newest orders are listed newest first, at most the requested number
      (5 by default, clamped to 1..50), and "no orders" is answered exactly
      when the ledger is empty. */
  lemma OrdersAnswerShape(user: int, args: seq<string>, toInt: string -> Option<int>, adminId: string,
                          orders: map<int, Order>, nextId: int)
    requires nextId >= 1 && forall id :: id in orders ==> 1 <= id < nextId
    ensures var m := OrdersAnswer(user, args, toInt, adminId, orders, nextId);
      (m == NotAllowed <==> !MayListOrders(user, adminId, toInt))
      && (m == NoOrdersYet <==> MayListOrders(user, adminId, toInt) && orders == map[])
      && (m.OrderList? ==>
            1 <= |m.rows| <= FetchLimit(args, toInt)
            && (forall i :: 0 <= i < |m.rows| ==> m.rows[i].id in orders && m.rows[i] == RowOf(m.rows[i].id, orders[m.rows[i].id]))
            && (forall i, j :: 0 <= i < j < |m.rows| ==> m.rows[i].id > m.rows[j].id)
            && (forall id :: id in orders && id > m.rows[|m.rows| - 1].id ==> exists i :: 0 <= i < |m.rows| && m.rows[i].id == id))
  {
    var cap := FetchLimit(args, toInt);
    LastOrdersEmptyIff(orders, nextId, cap);
    if LastOrders(orders, nextId - 1, cap) != [] {
      ListedRows(orders, nextId, cap);
    }
  }

  class Bot {
    /** `context.user_data` of every user who has talked to the bot. */
    var sessions: map<int, UserData>
    /** Every message sent, with the user it went to. */
    var outbox: seq<(int, Message)>
    const ledger: Ledger

    constructor(ledger: Ledger)
      ensures this.ledger == ledger && sessions == map[] && outbox == []
    {
      this.ledger := ledger;
      sessions := map[];
      outbox := [];
    }

    /** A user's session; an unknown user has an empty one. */
    function SessionOf(user: int): UserData
      reads this
    {
      if user in sessions then sessions[user] else Cleared
    }

    /** Carries out a step for `user`: each order write in turn, then the new
        session and the replies. */
    method Apply(user: int, st: Step, now: string)
      requires ledger.Valid()
      modifies this, ledger
      ensures ledger.Valid()
      ensures ledger.orders == ApplyWrites(old(ledger.orders), st.writes, now)
      ensures ledger.profiles == old(ledger.profiles) && ledger.nextId == old(ledger.nextId)
      ensures sessions == old(sessions)[user := st.data]
      ensures outbox == old(outbox) + Addressed(user, st.replies)
    {
      ghost var start := ledger.orders;
      for i := 0 to |st.writes|
        invariant ledger.orders == ApplyWrites(start, st.writes[..i], now)
        invariant ledger.profiles == old(ledger.profiles) && ledger.nextId == old(ledger.nextId)
        invariant sessions == old(sessions) && outbox == old(outbox)
      {
        var w := st.writes[i];
        ledger.UpdateOrder(w.id, w.status, w.merge, None, now);
        assert st.writes[..i + 1][..i] == st.writes[..i];
      }
      assert st.writes[..|st.writes|] == st.writes;
      ApplyWritesFrame(start, st.writes, now, 0);
      sessions := sessions[user := st.data];
      outbox := outbox + Addressed(user, st.replies);
    }

    /** `_begin_flow_after_payment`: a new order awaiting input at the
        product's price, then the session restarted on that order. */
    method BeginFlowAfterPayment(user: int, payload: string, chargeId: Option<string>, now: string) returns (orderId: int)
      requires ledger.Valid()
      modifies this, ledger
      ensures ledger.Valid()
      ensures orderId >= 1 && orderId !in old(ledger.orders) && orderId == old(ledger.nextId)
      ensures ledger.profiles == old(ledger.profiles) && ledger.nextId == orderId + 1
      ensures ledger.orders == old(ledger.orders)[orderId := Order(user, payload, AmountFor(payload), AwaitingInput, chargeId, map[], now, now)]
      ensures sessions == old(sessions)[user := BeginFlow(payload, orderId).data]
      ensures outbox == old(outbox) + Addressed(user, BeginFlow(payload, orderId).replies)
    {
      orderId := ledger.CreateOrder(user, payload, AmountFor(payload), AwaitingInput, chargeId, map[], now);
      Apply(user, BeginFlow(payload, orderId), now);
    }

    /** `text_router`: the step for the session's flow and stage; whatever
        the providers answer, only the session's own order is written. */
    method TextRouter(user: int, message: string, fullName: string, cfg: Config, world: World, now: string)
      requires ledger.Valid()
      modifies this, ledger
      ensures ledger.Valid()
      ensures var st := TextStep(old(SessionOf(user)), message, user, fullName, cfg, world);
        ledger.orders == ApplyWrites(old(ledger.orders), st.writes, now)
        && sessions == old(sessions)[user := st.data]
        && outbox == old(outbox) + Addressed(user, st.replies)
      ensures ledger.profiles == old(ledger.profiles) && ledger.nextId == old(ledger.nextId)
      ensures forall u :: u != user ==> SessionOf(u) == old(SessionOf(u))
      ensures |outbox| >= |old(outbox)| && outbox[..|old(outbox)|] == old(outbox)
      ensures forall i :: |old(outbox)| <= i < |outbox| ==> outbox[i].0 == user
      ensures ledger.orders.Keys == old(ledger.orders).Keys
      ensures forall id :: id in old(ledger.orders) && Some(id) != old(SessionOf(user)).orderId ==>
                id in ledger.orders && ledger.orders[id] == old(ledger.orders)[id]
    {
      var ud := SessionOf(user);
      var st := TextStep(ud, message, user, fullName, cfg, world);
      TextStepWritesOwnOrder(ud, message, user, fullName, cfg, world);
      OwnWritesFrame(ledger.orders, st.writes, now, ud.orderId);
      Apply(user, st, now);
    }

    /** `photo_router`: in the palm flow the last photo size is kept and
        recorded on the order, which is set back to awaiting input. */
    method PhotoRouter(user: int, photos: seq<string>, now: string)
      requires ledger.Valid()
      modifies this, ledger
      ensures ledger.Valid()
      ensures var st := PhotoStep(old(SessionOf(user)), photos);
        ledger.orders == ApplyWrites(old(ledger.orders), st.writes, now)
        && sessions == old(sessions)[user := st.data]
        && outbox == old(outbox) + Addressed(user, st.replies)
      ensures var ud := old(SessionOf(user));
        ud.flow == Some(PalmFlow) && ud.state == Some(PalmPhoto) && photos != []
        && ud.orderId.Some? && ud.orderId.value in old(ledger.orders) ==>
          ud.orderId.value in ledger.orders &&
          var o := ledger.orders[ud.orderId.value];
          o.status == AwaitingInput && "palm_photo_file_id" in o.meta
          && o.meta["palm_photo_file_id"] == JStr(photos[|photos| - 1])
      ensures ledger.profiles == old(ledger.profiles) && ledger.nextId == old(ledger.nextId)
      ensures forall u :: u != user ==> SessionOf(u) == old(SessionOf(u))
      ensures |outbox| >= |old(outbox)| && outbox[..|old(outbox)|] == old(outbox)
      ensures forall i :: |old(outbox)| <= i < |outbox| ==> outbox[i].0 == user
    {
      var ud := SessionOf(user);
      var st := PhotoStep(ud, photos);
      Apply(user, st, now);
    }

    /** `/cancel`: the session is emptied and the menu shown again. */
    method Cancel(user: int)
      requires ledger.Valid()
      modifies this, ledger
      ensures ledger.Valid()
      ensures ledger.orders == old(ledger.orders)
      ensures sessions == old(sessions)[user := Cleared]
      ensures outbox == old(outbox) + [(user, Dialogue(Welcome))]
      ensures ledger.profiles == old(ledger.profiles) && ledger.nextId == old(ledger.nextId)
      ensures forall u :: u != user ==> SessionOf(u) == old(SessionOf(u))
      ensures |outbox| >= |old(outbox)| && outbox[..|old(outbox)|] == old(outbox)
      ensures forall i :: |old(outbox)| <= i < |outbox| ==> outbox[i].0 == user
    {
      Apply(user, CancelStep(), "");
    }

    /** `/start` and `/menu`: the profile is recorded and the menu shown;
        the session is left alone. */
    method Start(user: int, fullName: string, username: string, lang: string, now: string)
      requires ledger.Valid()
      modifies this, ledger
      ensures ledger.Valid()
      ensures user in ledger.profiles && ledger.profiles[user].lastSeen == now
      ensures ledger.profiles == old(ledger.profiles)[user := Upserted(
                if user in old(ledger.profiles) then Some(old(ledger.profiles)[user]) else None, fullName, username, lang, now)]
      ensures ledger.orders == old(ledger.orders) && ledger.nextId == old(ledger.nextId) && sessions == old(sessions)
      ensures outbox == old(outbox) + [(user, Dialogue(Welcome))]
    {
      ledger.UpsertProfile(user, fullName, username, lang, now);
      outbox := outbox + [(user, Dialogue(Welcome))];
    }

    /** `/orders_last [n]`. */
    method OrdersLast(user: int, args: seq<string>, toInt: string -> Option<int>, adminId: string)
      requires ledger.Valid()
      modifies this
      ensures outbox == old(outbox) + [(user, OrdersAnswer(user, args, toInt, adminId, ledger.orders, ledger.nextId))]
      ensures sessions == old(sessions)
    {
      var admin := AdminNumber(adminId, toInt);
      if admin != 0 && user != admin {
        outbox := outbox + [(user, NotAllowed)];
        return;
      }
      var limit := FetchLimit(args, toInt);
      var ids := ledger.FetchLastOrders(limit);
      if ids == [] {
        outbox := outbox + [(user, NoOrdersYet)];
        return;
      }
      var rows: seq<OrderRow> := [];
      for i := 0 to |ids|
        invariant rows == Rows(ids[..i], ledger.orders)
      {
        var id := ids[i];
        if id in ledger.orders {
          rows := rows + [RowOf(id, ledger.orders[id])];
        }
        assert ids[..i + 1][..i] == ids[..i];
      }
      assert ids[..|ids|] == ids;
      outbox := outbox + [(user, OrderList(rows))];
    }
  }
}
