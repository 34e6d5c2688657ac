/** The cart repository (`CartRepository.kt`): one cart document per user in
    the cart collection, whose `products` field holds one JSON string per
    line. Every edit reads the stored list, applies the merge rule, and writes
    the list back by the delete/update/create rule of `updateCartDocument`. */
module CartRepo {
  import opened Common
  import opened ProductData
  import opened Ledger
  import opened CartData

  /** A cart document: its document id and its field map. */
  datatype CartDoc = CartDoc(docId: string, data: Data)

  /** A write sent to the cart collection. */
  datatype CartWrite =
    | Deleted(docId: string)
    | Updated(docId: string, data: Data)
    | Created(docId: string, data: Data)

  /** The field map `updateCartDocument` writes: the owner and the encoded lines. */
  function CartDocumentData(codec: Codec<CartItem>, userId: string, items: seq<CartItem>): (d: Data)
    ensures d.Keys == {"userId", "products"}
    ensures d["userId"] == Str(userId) && d["products"].List?
    ensures |d["products"].elems| == |items|
  {
    map["userId" := Str(userId), "products" := List(Strs(EncodeAll(codec, items)))]
  }

  /** `Document.getCartItems()`: the string entries of `products` that decode,
      in order; anything else in the field is dropped. */
  function GetCartItems(codec: Codec<CartItem>, data: Data): (r: seq<CartItem>)
    ensures !Field(data, "products").List? ==> r == []
    ensures Field(data, "products").List? ==> |r| <= |Field(data, "products").elems|
  {
    match Field(data, "products")
    case List(vs) => DecodeAll(codec, StringsOf(vs))
    case _ => []
  }

  /** The lines stored for a user; no cart document reads as an empty cart. */
  function ItemsIn(carts: map<string, CartDoc>, codec: Codec<CartItem>, userId: string): (r: seq<CartItem>)
    ensures userId !in carts ==> r == []
  {
    if userId in carts then GetCartItems(codec, carts[userId].data) else []
  }

  /** The documents after `updateCartDocument(userId, items)`. */
  function SaveCart(carts: map<string, CartDoc>, codec: Codec<CartItem>, userId: string,
                    items: seq<CartItem>, newId: string): (r: map<string, CartDoc>)
    ensures items == [] ==> userId !in r
    ensures items != [] ==> userId in r && r[userId].data == CartDocumentData(codec, userId, items)
    ensures items != [] && userId in carts ==> r[userId].docId == carts[userId].docId
    ensures items != [] && userId !in carts ==> r[userId].docId == newId
    ensures forall u :: u != userId ==> (u in r <==> u in carts)
    ensures forall u :: u != userId && u in r ==> r[u] == carts[u]
  {
    if items == [] then carts - {userId}
    else if userId in carts then carts[userId := CartDoc(carts[userId].docId, CartDocumentData(codec, userId, items))]
    else carts[userId := CartDoc(newId, CartDocumentData(codec, userId, items))]
  }

  /** The writes `updateCartDocument(userId, items)` sends: with no lines it deletes
      an existing document and never creates one; with lines it updates the
      existing document or creates exactly one. */
  function SaveWrites(carts: map<string, CartDoc>, codec: Codec<CartItem>, userId: string,
                      items: seq<CartItem>, newId: string): (w: seq<CartWrite>)
    ensures items == [] ==> w == (if userId in carts then [Deleted(carts[userId].docId)] else [])
    ensures items != [] ==> |w| == 1 && (w[0].Created? <==> userId !in carts)
    ensures items != [] && userId in carts ==> w[0] == Updated(carts[userId].docId, CartDocumentData(codec, userId, items))
    ensures items != [] && userId !in carts ==> w[0] == Created(newId, CartDocumentData(codec, userId, items))
  {
    if items == [] then
      if userId in carts then [Deleted(carts[userId].docId)] else []
    else if userId in carts then [Updated(carts[userId].docId, CartDocumentData(codec, userId, items))]
    else [Created(newId, CartDocumentData(codec, userId, items))]
  }

  /** The repository's lookup of all requested products (`getProducts`) as a pure map. */
  function ProductsOf(productDocs: map<string, Data>, reachable: bool, ids: set<string>): (m: map<string, Product>)
    ensures m.Keys == if reachable then ids * productDocs.Keys else {}
    ensures forall id :: id in m ==> m[id] == ToProduct(id, productDocs[id])
  {
    if reachable then map id | id in ids * productDocs.Keys :: ToProduct(id, productDocs[id]) else map[]
  }

  /** What the cart repository writes it reads back, when the line codec round-trips. */
  lemma {:induction false} GetCartItemsRoundTrip(codec: Codec<CartItem>, userId: string, items: seq<CartItem>)
    requires RoundTrips(codec)
    ensures GetCartItems(codec, CartDocumentData(codec, userId, items)) == items
  {
    StringsOfStrs(EncodeAll(codec, items));
    DecodeEncodeAll(codec, items);
  }

  /** After a save, the user's stored lines are exactly the saved lines, and no other user's change. */
  lemma SaveCartReadBack(carts: map<string, CartDoc>, codec: Codec<CartItem>, userId: string,
                         items: seq<CartItem>, newId: string)
    requires RoundTrips(codec)
    ensures ItemsIn(SaveCart(carts, codec, userId, items, newId), codec, userId) == items
    ensures forall u :: u != userId ==>
              ItemsIn(SaveCart(carts, codec, userId, items, newId), codec, u) == ItemsIn(carts, codec, u)
  {
    if items != [] {
      GetCartItemsRoundTrip(codec, userId, items);
    }
  }

  /** Decoding keeps order across the stored list: the lines decoded from two
      halves of `products` are the lines of the first half, then of the second. */
  lemma GetCartItemsConcat(codec: Codec<CartItem>, data: Data, a: seq<Value>, b: seq<Value>)
    requires Field(data, "products") == List(a + b)
    ensures GetCartItems(codec, data)
            == GetCartItems(codec, map["products" := List(a)]) + GetCartItems(codec, map["products" := List(b)])
  {
    StringsOfConcat(a, b);
    DecodeAllConcat(codec, StringsOf(a), StringsOf(b));
    assert Field(map["products" := List(a)], "products") == List(a);
    assert Field(map["products" := List(b)], "products") == List(b);
  }

  /** An entry that is not a string, or a string that does not decode, yields no line. */
  lemma GetCartItemsDropsOne(codec: Codec<CartItem>, v: Value)
    requires !v.Str? || codec.decode(v.s).None?
    ensures GetCartItems(codec, map["products" := List([v])]) == []
  {
    assert Field(map["products" := List([v])], "products") == List([v]);
    assert [v][1..] == [];
    if v.Str? {
      assert StringsOf([v]) == [v.s];
      assert [v.s][1..] == [];
    }
  }

  /** The merge rule of `updateCartItem` for one stored list. */
  function MergeItem(items: seq<CartItem>, productId: string, quantity: int,
                     size: Option<string>, color: Option<string>): seq<CartItem>
  {
    Upsert(items, KeyOfItem, ItemWithQuantity, ItemKey(productId, size, color), quantity,
           Some(CartItem(productId, quantity, size, color)))
  }

  /** The outcomes of `updateCartItem` on the stored list. */
  lemma MergeItemCases(items: seq<CartItem>, productId: string, quantity: int,
                       size: Option<string>, color: Option<string>)
    ensures var i := FirstIndex(items, KeyOfItem, ItemKey(productId, size, color));
            var r := MergeItem(items, productId, quantity, size, color);
            && (i != -1 && quantity > 0 ==>
                  |r| == |items| && r[i] == items[i].(quantity := quantity)
                  && forall j :: 0 <= j < |items| && j != i ==> r[j] == items[j])
            && (i != -1 && quantity <= 0 ==> r == RemoveAt(items, i))
            && (i == -1 && quantity > 0 ==> r == items + [CartItem(productId, quantity, size, color)])
            && (i == -1 && quantity <= 0 ==> r == items)
  {
    var key := ItemKey(productId, size, color);
    var added := Some(CartItem(productId, quantity, size, color));
    var i := FirstIndex(items, KeyOfItem, key);
    if i != -1 && quantity > 0 {
      UpsertReplaces(items, KeyOfItem, ItemWithQuantity, key, quantity, added);
    } else if i != -1 {
      UpsertRemoves(items, KeyOfItem, ItemWithQuantity, key, quantity, added);
    } else {
      UpsertAbsent(items, KeyOfItem, ItemWithQuantity, key, quantity, added);
    }
  }

  /** `updateCartItem` applied twice with the same arguments leaves the list it left the first time. */
  lemma MergeItemIdempotent(items: seq<CartItem>, productId: string, quantity: int,
                            size: Option<string>, color: Option<string>)
    requires UniqueKeys(items, KeyOfItem)
    ensures var once := MergeItem(items, productId, quantity, size, color);
            MergeItem(once, productId, quantity, size, color) == once
  {
    QuantityLaws();
    UpsertIdempotent(items, KeyOfItem, ItemWithQuantity, ItemKey(productId, size, color), quantity,
                     Some(CartItem(productId, quantity, size, color)));
  }

  /** The merge keeps one line per key and leaves every line with another key as it was. */
  lemma MergeItemKeeps(items: seq<CartItem>, productId: string, quantity: int,
                       size: Option<string>, color: Option<string>)
    ensures UniqueKeys(items, KeyOfItem) ==> UniqueKeys(MergeItem(items, productId, quantity, size, color), KeyOfItem)
    ensures var key := ItemKey(productId, size, color);
            Others(MergeItem(items, productId, quantity, size, color), KeyOfItem, key) == Others(items, KeyOfItem, key)
  {
    QuantityLaws();
    var key := ItemKey(productId, size, color);
    var added := Some(CartItem(productId, quantity, size, color));
    if UniqueKeys(items, KeyOfItem) {
      UpsertKeepsUnique(items, KeyOfItem, ItemWithQuantity, key, quantity, added);
    }
    UpsertKeepsOthers(items, KeyOfItem, ItemWithQuantity, key, quantity, added);
  }

  /** The cart collection and the product collection behind the repository.
      `reachable` is false when every backend call throws; `failure` is the
      message the exception then carries. */
  class CartRepository {
    const codec: Codec<CartItem>
    const productDocs: map<string, Data>
    const reachable: bool
    const failure: string
    var carts: map<string, CartDoc>
    var writes: seq<CartWrite>

    constructor (codec: Codec<CartItem>, productDocs: map<string, Data>, reachable: bool,
                 failure: string, carts: map<string, CartDoc>)
      ensures this.codec == codec && this.productDocs == productDocs
      ensures this.reachable == reachable && this.failure == failure
      ensures this.carts == carts && writes == []
    {
      this.codec := codec;
      this.productDocs := productDocs;
      this.reachable := reachable;
      this.failure := failure;
      this.carts := carts;
      writes := [];
    }

    /** `getCartDocument(userId)?.getCartItems() ?: emptyList()`. */
    function CartItemsOf(userId: string): (r: seq<CartItem>)
      reads this
      ensures userId !in carts ==> r == []
    {
      ItemsIn(carts, codec, userId)
    }

    /** `getCartWithProducts(userId)`: the stored lines, or the backend's error. */
    function GetCartWithProducts(userId: string): (r: CartOperation)
      reads this
      ensures r.Loading? == false
      ensures r.Error? <==> !reachable
      ensures r.Success? ==> r.items == ItemsIn(carts, codec, userId)
    {
      if reachable then Success(CartItemsOf(userId)) else Error(failure)
    }

    /** `getProduct(productId)`: the decoded product document; a failure reads as null. */
    function GetProduct(productId: string): (r: Option<Product>)
      ensures r.Some? <==> reachable && productId in productDocs
      ensures r.Some? ==> r.value == ToProduct(productId, productDocs[productId]) && r.value.id == productId
    {
      if reachable && productId in productDocs then Some(ToProduct(productId, productDocs[productId])) else None
    }

    /** `getProducts(ids)`: the ids that resolve, each to its product. */
    function GetProducts(ids: set<string>): (m: map<string, Product>)
      ensures forall id :: id in m <==> id in ids && GetProduct(id).Some?
      ensures forall id :: id in m ==> Some(m[id]) == GetProduct(id)
    {
      ProductsOf(productDocs, reachable, ids)
    }

    /** `updateCartDocument(userId, items)`; `newId` stands for `ID.unique()`. */
    method UpdateCartDocument(userId: string, items: seq<CartItem>, newId: string) returns (ok: bool)
      modifies this
      ensures ok == reachable
      ensures ok ==> carts == SaveCart(old(carts), codec, userId, items, newId)
                     && writes == old(writes) + SaveWrites(old(carts), codec, userId, items, newId)
      ensures !ok ==> carts == old(carts) && writes == old(writes)
    {
      if !reachable {
        return false;
      }
      if items == [] {
        if userId in carts {
          writes := writes + [Deleted(carts[userId].docId)];
          carts := carts - {userId};
        }
      } else if userId in carts {
        var doc := CartDoc(carts[userId].docId, CartDocumentData(codec, userId, items));
        writes := writes + [Updated(doc.docId, doc.data)];
        carts := carts[userId := doc];
      } else {
        var doc := CartDoc(newId, CartDocumentData(codec, userId, items));
        writes := writes + [Created(newId, doc.data)];
        carts := carts[userId := doc];
      }
      return true;
    }

    /** `updateCartItem`: merge one line into the stored list and write the list back. */
    method UpdateCartItem(userId: string, productId: string, quantity: int,
                          size: Option<string>, color: Option<string>, newId: string)
      returns (r: CartOperation)
      modifies this
      ensures !reachable ==> r == Error(failure) && carts == old(carts) && writes == old(writes)
      ensures reachable ==>
                var items := MergeItem(old(CartItemsOf(userId)), productId, quantity, size, color);
                r == Success(items)
                && carts == SaveCart(old(carts), codec, userId, items, newId)
                && writes == old(writes) + SaveWrites(old(carts), codec, userId, items, newId)
      ensures reachable && RoundTrips(codec) ==> r.Success? && CartItemsOf(userId) == r.items
    {
      if !reachable {
        return Error(failure);
      }
      var items := UpsertInPlace(CartItemsOf(userId), KeyOfItem, ItemWithQuantity, ItemKey(productId, size, color),
                                 quantity, Some(CartItem(productId, quantity, size, color)));
      var ok := UpdateCartDocument(userId, items, newId);
      r := Success(items);
      if RoundTrips(codec) {
        SaveCartReadBack(old(carts), codec, userId, items, newId);
      }
    }

    /** `removeFromCart`: drop the first line with the key; an absent key writes nothing. */
    method RemoveFromCart(userId: string, productId: string, size: Option<string>,
                          color: Option<string>, newId: string)
      returns (r: CartOperation)
      modifies this
      ensures !reachable ==> r == Error(failure) && carts == old(carts) && writes == old(writes)
      ensures reachable ==>
                var items := old(CartItemsOf(userId));
                var i := FirstIndex(items, KeyOfItem, ItemKey(productId, size, color));
                if i == -1 then
                  r == Success(items) && carts == old(carts) && writes == old(writes)
                else
                  r == Success(RemoveAt(items, i))
                  && carts == SaveCart(old(carts), codec, userId, RemoveAt(items, i), newId)
                  && writes == old(writes) + SaveWrites(old(carts), codec, userId, RemoveAt(items, i), newId)
    {
      if !reachable {
        return Error(failure);
      }
      var items := CartItemsOf(userId);
      var i := FirstIndex(items, KeyOfItem, ItemKey(productId, size, color));
      if i != -1 {
        items := RemoveAt(items, i);
        var ok := UpdateCartDocument(userId, items, newId);
      }
      r := Success(items);
    }

    /** `clearCart(userId)`: delete the user's document if there is one. It does
        not catch; `ok` is false when the call throws. */
    method ClearCart(userId: string) returns (ok: bool)
      modifies this
      ensures ok == reachable
      ensures ok ==> carts == old(carts) - {userId}
                     && writes == old(writes) + (if userId in old(carts) then [Deleted(old(carts)[userId].docId)] else [])
      ensures !ok ==> carts == old(carts) && writes == old(writes)
    {
      if !reachable {
        return false;
      }
      if userId in carts {
        writes := writes + [Deleted(carts[userId].docId)];
        carts := carts - {userId};
      }
      return true;
    }
  }
}
