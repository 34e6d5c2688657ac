/** The order repository (`OrderRepository.kt`): one document per user in the
    order collection, named by the user's id, whose `orders` field holds one
    JSON string per order. Saving appends to the stored list or, when the
    document cannot be read, creates it; updating rewrites the list with the
    orders of one id replaced; fetching decodes the whole list or nothing. */
module OrderRepo {
  import opened Common

  /** `OrderItem`; prices are abstract integers (the app uses `Double`). */
  datatype OrderItem = OrderItem(productId: string, name: string, price: int, quantity: int)

  /** `Order`. */
  datatype Order = Order(
    id: string,
    total: int,
    status: string,
    items: seq<OrderItem>,
    createdAt: int,
    shippingAddress: string)

  /** `(data["orders"] as? List<*>)?.filterIsInstance<String>() ?: emptyList()`. */
  function StoredJson(data: Data): (r: seq<string>)
    ensures !Field(data, "orders").List? ==> r == []
    ensures Field(data, "orders").List? ==> r == StringsOf(Field(data, "orders").elems)
  {
    match Field(data, "orders")
    case List(vs) => StringsOf(vs)
    case _ => []
  }

  /** A document's field map with its `orders` field set to the strings. */
  function WithOrders(data: Data, json: seq<string>): Data {
    data["orders" := List(Strs(json))]
  }

  /** A written order list reads back as written. */
  lemma StoredJsonOfWritten(data: Data, json: seq<string>)
    ensures StoredJson(WithOrders(data, json)) == json
  {
    StringsOfStrs(json);
  }

  /** `orders.map { if (it.id == updated.id) updated else it }`. */
  function ReplaceById(orders: seq<Order>, updated: Order): (r: seq<Order>)
    ensures |r| == |orders|
    ensures forall i :: 0 <= i < |r| && orders[i].id == updated.id ==> r[i] == updated
    ensures forall i :: 0 <= i < |r| && orders[i].id != updated.id ==> r[i] == orders[i]
  {
    if orders == [] then []
    else [if orders[0].id == updated.id then updated else orders[0]] + ReplaceById(orders[1..], updated)
  }

  /** An update whose id matches no order changes no order. */
  lemma ReplaceUnknownId(orders: seq<Order>, updated: Order)
    requires forall o :: o in orders ==> o.id != updated.id
    ensures ReplaceById(orders, updated) == orders
  {
    var r := ReplaceById(orders, updated);
    forall i | 0 <= i < |r| ensures r[i] == orders[i] {
      assert orders[i] in orders;
    }
  }

  /** Replacing twice is replacing once. */
  lemma ReplaceIdempotent(orders: seq<Order>, updated: Order)
    ensures ReplaceById(ReplaceById(orders, updated), updated) == ReplaceById(orders, updated)
  {
  }

  /** After the replacement every order with the id is the update. */
  lemma ReplacedOrdersAreTheUpdate(orders: seq<Order>, updated: Order)
    ensures forall o :: o in ReplaceById(orders, updated) && o.id == updated.id ==> o == updated
  {
    var r := ReplaceById(orders, updated);
    forall o | o in r && o.id == updated.id ensures o == updated {
      var i :| 0 <= i < |r| && r[i] == o;
    }
  }

  /** The codec writes each value in one way only: whatever decodes to a value
      is also that value's encoding. */
  ghost predicate Canonical<T(!new)>(c: Codec<T>) {
    forall s, x :: c.decode(s) == Some(x) ==> c.encode(x) == s
  }

  /** A list that decodes in full is re-encoded as itself by a canonical codec. */
  lemma ReencodeDecoded<T(!new)>(c: Codec<T>, ss: seq<string>)
    requires Canonical(c) && DecodeEvery(c, ss).Some?
    ensures EncodeAll(c, DecodeEvery(c, ss).value) == ss
  {
    var xs := DecodeEvery(c, ss).value;
    forall i | 0 <= i < |ss| ensures EncodeAll(c, xs)[i] == ss[i] {
      assert c.decode(ss[i]) == Some(xs[i]);
    }
  }

  /** Appending an encoding to a fully decodable list appends the value; a list
      with an undecodable entry stays undecodable. */
  lemma DecodeEveryAppend<T(!new)>(c: Codec<T>, ss: seq<string>, x: T)
    requires RoundTrips(c)
    ensures var before := DecodeEvery(c, ss);
            DecodeEvery(c, ss + [c.encode(x)]) == if before.Some? then Some(before.value + [x]) else None
  {
    var all := ss + [c.encode(x)];
    var before := DecodeEvery(c, ss);
    assert c.decode(all[|ss|]) == Some(x);
    if before.Some? {
      assert forall i :: 0 <= i < |ss| ==> all[i] == ss[i];
      var after := DecodeEvery(c, all).value;
      assert after == before.value + [x] by {
        forall i | 0 <= i < |all| ensures after[i] == (before.value + [x])[i] {
          assert Some(after[i]) == c.decode(all[i]);
          if i < |ss| {
            assert Some(before.value[i]) == c.decode(ss[i]);
          }
        }
      }
    } else {
      var i :| 0 <= i < |ss| && c.decode(ss[i]).None?;
      assert all[i] == ss[i];
    }
  }

  class OrderRepository {
    /** The `Order` JSON codec. */
    const codec: Codec<Order>
    /** False when every database call throws. */
    const reachable: bool
    /** False when `updateDocument` throws on a document that exists. */
    const updatable: bool
    /** The order collection: each user's document, by the user's id. */
    var documents: map<string, Data>

    constructor (codec: Codec<Order>, reachable: bool, updatable: bool, documents: map<string, Data>)
      ensures this.codec == codec && this.reachable == reachable && this.updatable == updatable
      ensures this.documents == documents
    {
      this.codec := codec;
      this.reachable := reachable;
      this.updatable := updatable;
      this.documents := documents;
    }

    /** The order strings stored for a user; none without a readable document. */
    function StoredFor(userId: string): seq<string>
      reads this
    {
      if reachable && userId in documents then StoredJson(documents[userId]) else []
    }

    /** `fetchOrders(userId)`: the stored orders when the document can be read
        and every entry decodes; an empty list otherwise. */
    function FetchOrders(userId: string): (r: seq<Order>)
      reads this
      ensures !reachable || userId !in documents ==> r == []
      ensures var ss := StoredFor(userId);
              (forall i :: 0 <= i < |ss| ==> codec.decode(ss[i]).Some?)
              ==> |r| == |ss| && forall i :: 0 <= i < |r| ==> codec.decode(ss[i]) == Some(r[i])
      ensures var ss := StoredFor(userId);
              !(forall i :: 0 <= i < |ss| ==> codec.decode(ss[i]).Some?) ==> r == []
    {
      if !reachable || userId !in documents then []
      else DecodeEvery(codec, StoredJson(documents[userId])).GetOr([])
    }

    /** `saveOrder(order, userId)`; `ok` is false when the exception is
        rethrown. A readable document gets the order appended to its list; a
        missing one is created holding just the order. The fallback create
        meets an existing document when only the update failed, so it never
        overwrites a stored list. */
    method SaveOrder(order: Order, userId: string) returns (ok: bool)
      modifies this`documents
      ensures reachable && userId in old(documents) && updatable ==>
                ok && documents == old(documents)[userId := WithOrders(old(documents)[userId],
                                                   StoredJson(old(documents)[userId]) + [codec.encode(order)])]
      ensures reachable && userId !in old(documents) ==>
                ok && documents == old(documents)[userId := WithOrders(map[], [codec.encode(order)])]
      ensures !reachable || (userId in old(documents) && !updatable) ==>
                !ok && documents == old(documents)
    {
      var newOrderJson := codec.encode(order);
      var appended := false;
      if reachable && userId in documents && updatable {
        var existingOrders := StoredJson(documents[userId]);
        documents := documents[userId := WithOrders(documents[userId], existingOrders + [newOrderJson])];
        appended := true;
      }
      if appended {
        ok := true;
      } else if reachable && userId !in documents {
        documents := documents[userId := WithOrders(map[], [newOrderJson])];
        ok := true;
      } else {
        ok := false;
      }
    }

    /** `updateOrder(updatedOrder, userId)`; `ok` is false when the exception is
        rethrown: no readable document, an entry that does not decode, or a
        failed update. Otherwise the list is written back with every order of
        that id replaced. */
    method UpdateOrder(updatedOrder: Order, userId: string) returns (ok: bool)
      modifies this`documents
      ensures ok <==> reachable && userId in old(documents) && updatable
                      && DecodeEvery(codec, StoredJson(old(documents)[userId])).Some?
      ensures !ok ==> documents == old(documents)
      ensures ok ==>
                var existing := DecodeEvery(codec, StoredJson(old(documents)[userId])).value;
                documents == old(documents)[userId := WithOrders(old(documents)[userId],
                                                   EncodeAll(codec, ReplaceById(existing, updatedOrder)))]
    {
      if !reachable || userId !in documents {
        return false;
      }
      var existingDoc := documents[userId];
      var existingOrders := DecodeEvery(codec, StoredJson(existingDoc));
      if existingOrders.None? || !updatable {
        return false;
      }
      var updatedOrders := ReplaceById(existingOrders.value, updatedOrder);
      documents := documents[userId := WithOrders(existingDoc, EncodeAll(codec, updatedOrders))];
      ok := true;
    }
  }

  /** A saved order is fetched after the ones fetched before it, as long as
      everything stored before decodes. */
  method SaveThenFetch(repo: OrderRepository, order: Order, userId: string)
    requires RoundTrips(repo.codec) && repo.reachable && repo.updatable
    requires DecodeEvery(repo.codec, repo.StoredFor(userId)).Some?
    modifies repo
    ensures repo.FetchOrders(userId) == old(repo.FetchOrders(userId)) + [order]
  {
    var before := repo.StoredFor(userId);
    DecodeEveryAppend(repo.codec, before, order);
    var ok := repo.SaveOrder(order, userId);
    StoredJsonOfWritten(if userId in old(repo.documents) then old(repo.documents)[userId] else map[],
                        before + [repo.codec.encode(order)]);
  }

  /** Updating an order id that no stored order has, with a canonical codec,
      writes back exactly the strings that were stored. */
  method UpdateUnknownIdRewritesSame(repo: OrderRepository, updatedOrder: Order, userId: string)
    requires Canonical(repo.codec) && repo.reachable && repo.updatable && userId in repo.documents
    requires DecodeEvery(repo.codec, repo.StoredFor(userId)).Some?
    requires forall o :: o in DecodeEvery(repo.codec, repo.StoredFor(userId)).value ==> o.id != updatedOrder.id
    modifies repo
    ensures userId in repo.documents && StoredJson(repo.documents[userId]) == old(repo.StoredFor(userId))
  {
    var before := repo.StoredFor(userId);
    ReplaceUnknownId(DecodeEvery(repo.codec, before).value, updatedOrder);
    ReencodeDecoded(repo.codec, before);
    var ok := repo.UpdateOrder(updatedOrder, userId);
    StoredJsonOfWritten(old(repo.documents)[userId], before);
  }
}
