/** The SQLite store behind the bot: the `profiles` table keyed by Telegram
    user id and the `orders` table with an AUTOINCREMENT id.  The database
    becomes a class whose two tables are maps the methods reassign; the JSON
    text in `meta_json` is kept as the decoded value (`json.dumps` followed
    by `json.loads` gives back the same value).  The clock reading
    `datetime.utcnow().isoformat()` is the parameter `now`. */
module Ledger {
  import opened Text
  import opened Json

  datatype Profile = Profile(fullName: string, username: string, lang: string, createdAt: string, lastSeen: string)

  datatype Order = Order(userId: int, payload: string, amountStars: int, status: string,
                         chargeId: Option<string>, meta: map<string, Json>,
                         createdAt: string, updatedAt: string)

  /** One `update_order(id, status=…, meta_merge=…)` call as the handlers issue it. */
  datatype Write = Write(id: int, status: Option<string>, merge: map<string, Json>)

  const AwaitingInput: string := "awaiting_input"
  const Done: string := "done"

  // ------------------------------------------------------------------
  // Specification functions

  /** `meta.update(meta_merge)`: the merged keys take the new values. */
  function Merge(meta: map<string, Json>, merge: map<string, Json>): map<string, Json> {
    meta + merge
  }

  /** The row after `update_order`: status and charge id change only when
      given, the meta is merged and `updated_at` is always rewritten. */
  function Updated(o: Order, status: Option<string>, merge: map<string, Json>,
                   chargeId: Option<string>, now: string): Order {
    o.(status := if status.Some? then status.value else o.status,
       chargeId := if chargeId.Some? then chargeId else o.chargeId,
       meta := Merge(o.meta, merge),
       updatedAt := now)
  }

  /** The `orders` table after `update_order`: the UPDATE matches no row
      when the id is unknown. */
  function UpdateOrders(orders: map<int, Order>, id: int, status: Option<string>, merge: map<string, Json>,
                        chargeId: Option<string>, now: string): map<int, Order> {
    if id in orders then orders[id := Updated(orders[id], status, merge, chargeId, now)] else orders
  }

  /** The table after a batch of writes, applied in order. */
  function ApplyWrites(orders: map<int, Order>, ws: seq<Write>, now: string): map<int, Order>
    decreases |ws|
  {
    if ws == [] then orders
    else
      var w := ws[|ws| - 1];
      UpdateOrders(ApplyWrites(orders, ws[..|ws| - 1], now), w.id, w.status, w.merge, None, now)
  }

  /** The `profiles` row after `upsert_profile`. */
  function Upserted(existing: Option<Profile>, fullName: string, username: string, lang: string, now: string): Profile {
    match existing
    case Some(p) => Profile(fullName, username, lang, p.createdAt, now)
    case None => Profile(fullName, username, lang, now, now)
  }

  // ------------------------------------------------------------------
  // Properties of the specification

  /** Merging keeps every old key, adds every new key, and the new value wins. */
  lemma MergeContents(meta: map<string, Json>, merge: map<string, Json>)
    ensures Merge(meta, merge).Keys == meta.Keys + merge.Keys
    ensures forall k :: k in merge ==> Merge(meta, merge)[k] == merge[k]
    ensures forall k :: k in meta && k !in merge ==> Merge(meta, merge)[k] == meta[k]
  {
  }

  /** Repeating the same update changes nothing more. */
  lemma UpdatedIdempotent(o: Order, status: Option<string>, merge: map<string, Json>, chargeId: Option<string>, now: string)
    ensures Updated(Updated(o, status, merge, chargeId, now), status, merge, chargeId, now)
         == Updated(o, status, merge, chargeId, now)
  {
    assert Merge(Merge(o.meta, merge), merge) == Merge(o.meta, merge);
  }

  /** An update never touches who ordered what, for how much, or when. */
  lemma UpdatedKeepsIdentity(o: Order, status: Option<string>, merge: map<string, Json>, chargeId: Option<string>, now: string)
    ensures var r := Updated(o, status, merge, chargeId, now);
      r.userId == o.userId && r.payload == o.payload && r.amountStars == o.amountStars && r.createdAt == o.createdAt
      && (status.None? ==> r.status == o.status) && (chargeId.None? ==> r.chargeId == o.chargeId)
      && r.updatedAt == now && o.meta.Keys <= r.meta.Keys
  {
  }

  /** A batch of writes never adds or removes an order, and orders it does
      not name are left exactly as they were. */
  lemma {:induction false} ApplyWritesFrame(orders: map<int, Order>, ws: seq<Write>, now: string, id: int)
    ensures ApplyWrites(orders, ws, now).Keys == orders.Keys
    ensures (forall i :: 0 <= i < |ws| ==> ws[i].id != id) && id in orders ==>
              ApplyWrites(orders, ws, now)[id] == orders[id]
    decreases |ws|
  {
    if ws != [] {
      var init := ws[..|ws| - 1];
      ApplyWritesFrame(orders, init, now, id);
      if (forall i :: 0 <= i < |ws| ==> ws[i].id != id) {
        assert forall i :: 0 <= i < |init| ==> init[i].id != id by {
          forall i | 0 <= i < |init| ensures init[i].id != id { assert init[i] == ws[i]; }
        }
      }
    }
  }

  /** Writes that are all about one order, issued in order, give it the last
      status any of them sets. */
  lemma {:induction false} ApplyWritesLastStatus(orders: map<int, Order>, ws: seq<Write>, now: string, id: int, s: string)
    requires id in orders
    requires exists i :: 0 <= i < |ws| && ws[i].id == id && ws[i].status == Some(s)
                         && forall j :: i < j < |ws| ==> ws[j].status.None?
    ensures id in ApplyWrites(orders, ws, now) && ApplyWrites(orders, ws, now)[id].status == s
    decreases |ws|
  {
    ApplyWritesFrame(orders, ws, now, id);
    var init := ws[..|ws| - 1];
    var w := ws[|ws| - 1];
    ApplyWritesFrame(orders, init, now, id);
    var i :| 0 <= i < |ws| && ws[i].id == id && ws[i].status == Some(s)
             && forall j :: i < j < |ws| ==> ws[j].status.None?;
    if i < |ws| - 1 {
      assert init[i] == ws[i];
      forall j | i < j < |init| ensures init[j].status.None? { assert init[j] == ws[j]; }
      ApplyWritesLastStatus(orders, init, now, id, s);
    }
  }

  /** Upserting keeps the first-seen time of a known user and records the visit. */
  lemma UpsertedKeepsCreation(p: Profile, fullName: string, username: string, lang: string, now: string)
    ensures Upserted(Some(p), fullName, username, lang, now).createdAt == p.createdAt
    ensures Upserted(Some(p), fullName, username, lang, now).lastSeen == now
    ensures Upserted(None, fullName, username, lang, now).createdAt == now
  {
  }

  // ------------------------------------------------------------------
  // Reading the newest orders

  /** `SELECT … ORDER BY id DESC LIMIT cap` over the ids 1..hi. */
  function LastOrders(orders: map<int, Order>, hi: int, cap: nat): seq<int>
    decreases if hi < 1 then 0 else hi
  {
    if hi < 1 || cap == 0 then []
    else if hi in orders then [hi] + LastOrders(orders, hi - 1, cap - 1)
    else LastOrders(orders, hi - 1, cap)
  }

  /** The listing holds at most `cap` ids, each an existing order in 1..hi. */
  lemma {:induction false} LastOrdersBounded(orders: map<int, Order>, hi: int, cap: nat)
    ensures var r := LastOrders(orders, hi, cap);
      |r| <= cap && forall i :: 0 <= i < |r| ==> r[i] in orders && 1 <= r[i] <= hi
    decreases if hi < 1 then 0 else hi
  {
    if hi >= 1 && cap > 0 {
      if hi in orders {
        LastOrdersBounded(orders, hi - 1, cap - 1);
        var tail := LastOrders(orders, hi - 1, cap - 1);
        assert forall i :: 1 <= i < |tail| + 1 ==> ([hi] + tail)[i] == tail[i - 1];
      } else {
        LastOrdersBounded(orders, hi - 1, cap);
      }
    }
  }

  predicate StrictlyDescending(s: seq<int>) {
    forall i, j :: 0 <= i < j < |s| ==> s[i] > s[j]
  }

  /** The listing is strictly descending: newest first. */
  lemma {:induction false} LastOrdersDescending(orders: map<int, Order>, hi: int, cap: nat)
    ensures StrictlyDescending(LastOrders(orders, hi, cap))
    decreases if hi < 1 then 0 else hi
  {
    if hi >= 1 && cap > 0 {
      if hi in orders {
        LastOrdersDescending(orders, hi - 1, cap - 1);
        LastOrdersBounded(orders, hi - 1, cap - 1);
        var tail := LastOrders(orders, hi - 1, cap - 1);
        var r := LastOrders(orders, hi, cap);
        assert r == [hi] + tail;
        forall i, j | 0 <= i < j < |r| ensures r[i] > r[j] {
          assert r[j] == tail[j - 1] && tail[j - 1] <= hi - 1;
          if i == 0 {
            assert r[i] == hi;
          } else {
            assert r[i] == tail[i - 1];
          }
        }
        assert StrictlyDescending(r);
      } else {
        assert LastOrders(orders, hi, cap) == LastOrders(orders, hi - 1, cap);
        LastOrdersDescending(orders, hi - 1, cap);
      }
    }
  }

  /** No order is skipped over: an existing id in 1..hi is listed when the
      listing is short of `cap` or ends below it. */
  lemma {:induction false} LastOrdersComplete(orders: map<int, Order>, hi: int, cap: nat, id: int)
    requires id in orders && 1 <= id <= hi
    ensures var r := LastOrders(orders, hi, cap);
      |r| < cap || (r != [] && r[|r| - 1] < id) ==> id in r
    decreases if hi < 1 then 0 else hi
  {
    var r := LastOrders(orders, hi, cap);
    if cap > 0 && id < hi {
      if hi in orders {
        var tail := LastOrders(orders, hi - 1, cap - 1);
        LastOrdersComplete(orders, hi - 1, cap - 1, id);
        assert r == [hi] + tail;
        if tail != [] {
          assert r[|r| - 1] == tail[|tail| - 1];
        }
        assert id in tail ==> id in r;
      } else {
        LastOrdersComplete(orders, hi - 1, cap, id);
      }
    }
  }

  /** `/orders_last [n]`: the listing size, 5 by default or when the argument
      is not an integer, otherwise clamped to 1..50. */
  function FetchLimit(args: seq<string>, toInt: string -> Option<int>): (r: int)
    ensures 1 <= r <= 50
    ensures args == [] || toInt(args[0]).None? ==> r == 5
    ensures args != [] && toInt(args[0]).Some? && 1 <= toInt(args[0]).value <= 50 ==> r == toInt(args[0]).value
    ensures args != [] && toInt(args[0]).Some? && toInt(args[0]).value > 50 ==> r == 50
    ensures args != [] && toInt(args[0]).Some? && toInt(args[0]).value < 1 ==> r == 1
  {
    if args == [] then 5
    else match toInt(args[0])
      case None => 5
      case Some(n) => if n < 1 then 1 else if n > 50 then 50 else n
  }

  // ------------------------------------------------------------------
  // The store

  class Ledger {
    var orders: map<int, Order>
    var profiles: map<int, Profile>
    /** The next AUTOINCREMENT value: ids are never reused. */
    var nextId: int

    ghost predicate Valid()
      reads this
    {
      nextId >= 1 && forall id :: id in orders ==> 1 <= id < nextId
    }

    constructor()
      ensures Valid()
      ensures orders == map[] && profiles == map[] && nextId == 1
    {
      orders := map[];
      profiles := map[];
      nextId := 1;
    }

    /** `upsert_profile`: update the known user's names and last visit, or
        insert a new row whose creation and last visit are both `now`. */
    method UpsertProfile(userId: int, fullName: string, username: string, lang: string, now: string)
      modifies this
      ensures userId in profiles
      ensures profiles == old(profiles)[userId := Upserted(if userId in old(profiles) then Some(old(profiles)[userId]) else None,
                                                           fullName, username, lang, now)]
      ensures orders == old(orders) && nextId == old(nextId)
    {
      if userId in profiles {
        var p := profiles[userId];
        profiles := profiles[userId := Profile(fullName, username, lang, p.createdAt, now)];
      } else {
        profiles := profiles[userId := Profile(fullName, username, lang, now, now)];
      }
    }

    /** `create_order`: insert a row under a fresh id and return the id. */
    method CreateOrder(userId: int, payload: string, amountStars: int, status: string,
                       chargeId: Option<string>, meta: map<string, Json>, now: string) returns (id: int)
      requires Valid()
      modifies this
      ensures Valid()
      ensures id >= 1 && id !in old(orders) && id == old(nextId)
      ensures orders == old(orders)[id := Order(userId, payload, amountStars, status, chargeId, meta, now, now)]
      ensures profiles == old(profiles) && nextId == old(nextId) + 1
    {
      id := nextId;
      orders := orders[id := Order(userId, payload, amountStars, status, chargeId, meta, now, now)];
      nextId := nextId + 1;
    }

    /** `update_order`: read the stored meta (empty when the row is missing),
        merge, then rewrite the row if it exists. */
    method UpdateOrder(id: int, status: Option<string>, merge: map<string, Json>, chargeId: Option<string>, now: string)
      modifies this
      ensures orders == UpdateOrders(old(orders), id, status, merge, chargeId, now)
      ensures profiles == old(profiles) && nextId == old(nextId)
    {
      var meta: map<string, Json> := if id in orders then orders[id].meta else map[];
      if merge != map[] {
        meta := meta + merge;
      }
      if id in orders {
        var o := orders[id];
        var st := if status.Some? then status.value else o.status;
        var ch := if chargeId.Some? then chargeId else o.chargeId;
        assert meta == Merge(o.meta, merge);
        orders := orders[id := o.(status := st, chargeId := ch, meta := meta, updatedAt := now)];
      }
    }

    /** `fetch_last_orders`: the ids of the newest `limit` orders, newest
        first; SQLite reads a negative LIMIT as no limit. */
    method FetchLastOrders(limit: int) returns (ids: seq<int>)
      requires Valid()
      ensures ids == LastOrders(orders, nextId - 1, if limit < 0 then nextId else limit)
    {
      var cap: nat := if limit < 0 then nextId else limit;
      ids := [];
      var hi := nextId - 1;
      var left := cap;
      while hi >= 1 && left > 0
        invariant 0 <= hi
        invariant ids + LastOrders(orders, hi, left) == LastOrders(orders, nextId - 1, cap)
        decreases hi
      {
        if hi in orders {
          assert LastOrders(orders, hi, left) == [hi] + LastOrders(orders, hi - 1, left - 1);
          ids := ids + [hi];
          left := left - 1;
        }
        hi := hi - 1;
      }
      assert LastOrders(orders, hi, left) == [];
    }
  }

  /** With no limit every order is listed. */
  lemma AllOrdersListed(orders: map<int, Order>, nextId: int, id: int)
    requires nextId >= 1 && forall k :: k in orders ==> 1 <= k < nextId
    requires id in orders
    ensures id in LastOrders(orders, nextId - 1, nextId)
  {
    LastOrdersComplete(orders, nextId - 1, nextId, id);
    LastOrdersShort(orders, nextId - 1, nextId);
  }

  lemma {:induction false} LastOrdersShort(orders: map<int, Order>, hi: int, cap: nat)
    ensures |LastOrders(orders, hi, cap)| <= if hi < 1 then 0 else hi
    decreases if hi < 1 then 0 else hi
  {
    if hi >= 1 && cap > 0 {
      LastOrdersShort(orders, hi - 1, if hi in orders then cap - 1 else cap);
    }
  }
}
