/** The cart screen's view model (`CartViewModel.kt`): an optimistic list of
    displayed lines, a map from line key to the quantity last chosen, and one
    debounced slot for the remote write that follows an edit. The 500 ms
    delay is an explicit timer event: `DebouncedUpdate` fills the slot,
    replacing (cancelling) whatever was there, and `FireUpdate` performs the
    write that is in it. */
module CartVm {
  import opened Common
  import opened ProductData
  import opened Ledger
  import opened CartData
  import opened CartRepo

  /** `CartViewModel.CartState`. */
  datatype CartState =
    | Loading
    | Success(items: seq<CartProduct>)
    | Error(message: string)

  /** The arguments of one debounced `repo.updateCartItem` call. */
  datatype PendingWrite = PendingWrite(
    userId: string,
    productId: string,
    quantity: int,
    size: Option<string>,
    color: Option<string>)

  /** `cartItems.map { it.productId }.toSet()`. */
  function ProductIds(items: seq<CartItem>): (ids: set<string>)
    ensures forall it :: it in items ==> it.productId in ids
    ensures forall id :: id in ids ==> exists it :: it in items && it.productId == id
  {
    set it | it in items :: it.productId
  }

  /** The displayed line for a stored line whose product was found. */
  function Join(it: CartItem, p: Product): CartProduct {
    CartProduct(p, it.quantity, it.selectedSize, it.selectedColor)
  }

  /** The lines `loadCart` shows: each stored line whose product was found,
      joined with that product, in stored order. */
  function Resolve(items: seq<CartItem>, productMap: map<string, Product>): (r: seq<CartProduct>)
    ensures |r| <= |items|
  {
    if items == [] then []
    else
      var it := items[|items| - 1];
      var rest := Resolve(items[..|items| - 1], productMap);
      if it.productId in productMap then rest + [Join(it, productMap[it.productId])] else rest
  }

  /** The keys of a list's elements. */
  function KeysOf<T>(items: seq<T>, keyOf: T -> string): (ks: set<string>)
    ensures forall i :: 0 <= i < |items| ==> keyOf(items[i]) in ks
  {
    if items == [] then {} else KeysOf(items[..|items| - 1], keyOf) + {keyOf(items[|items| - 1])}
  }

  /** Kotlin's `associate { keyOf(it) to valueOf(it) }`: every key of the list,
      mapped to the value of the last element with that key. */
  function Associate<T>(items: seq<T>, keyOf: T -> string, valueOf: T -> int): (m: map<string, int>)
    ensures m.Keys == KeysOf(items, keyOf)
  {
    if items == [] then map[]
    else
      var n := |items| - 1;
      Associate(items[..n], keyOf, valueOf)[keyOf(items[n]) := valueOf(items[n])]
  }

  /** The value kept for a key is the one of the last element carrying it. */
  lemma {:induction false} AssociateLastWins<T>(items: seq<T>, keyOf: T -> string, valueOf: T -> int, i: nat)
    requires i < |items|
    requires forall j :: i < j < |items| ==> keyOf(items[j]) != keyOf(items[i])
    ensures keyOf(items[i]) in Associate(items, keyOf, valueOf)
    ensures Associate(items, keyOf, valueOf)[keyOf(items[i])] == valueOf(items[i])
  {
    var n := |items| - 1;
    if i < n {
      var front := items[..n];
      assert front[i] == items[i];
      assert forall j :: i < j < |front| ==> front[j] == items[j];
      AssociateLastWins(front, keyOf, valueOf, i);
    }
  }

  /** A stored line's quantity. */
  function QuantityOf(it: CartItem): int {
    it.quantity
  }

  /** When every product resolves, no line is lost and each keeps its position. */
  lemma {:induction false} ResolveAllFound(items: seq<CartItem>, productMap: map<string, Product>)
    requires forall it :: it in items ==> it.productId in productMap
    ensures |Resolve(items, productMap)| == |items|
    ensures forall i :: 0 <= i < |items| ==>
              Resolve(items, productMap)[i] == Join(items[i], productMap[items[i].productId])
  {
    if items != [] {
      var front := items[..|items| - 1];
      assert forall it :: it in front ==> it in items;
      assert items[|items| - 1] in items;
      ResolveAllFound(front, productMap);
    }
  }

  /** Lines whose product is missing vanish, whatever their position. */
  lemma {:induction false} ResolveNoneFound(items: seq<CartItem>, productMap: map<string, Product>)
    requires forall it :: it in items ==> it.productId !in productMap
    ensures Resolve(items, productMap) == []
  {
    if items != [] {
      var front := items[..|items| - 1];
      assert forall it :: it in front ==> it in items;
      assert items[|items| - 1] in items;
      ResolveNoneFound(front, productMap);
    }
  }

  /** Resolving a list is resolving its two halves: the kept lines keep their order. */
  lemma {:induction false} ResolveConcat(a: seq<CartItem>, b: seq<CartItem>, productMap: map<string, Product>)
    ensures Resolve(a + b, productMap) == Resolve(a, productMap) + Resolve(b, productMap)
  {
    if b == [] {
      assert a + b == a;
    } else {
      var b' := b[..|b| - 1];
      assert (a + b)[..|a + b| - 1] == a + b';
      assert (a + b)[|a + b| - 1] == b[|b| - 1];
      ResolveConcat(a, b', productMap);
    }
  }

  /** The merge `updateQuantity` applies to the displayed lines; `product` is
      what `repo.getProduct(productId)` returned. */
  function MergeLine(lines: seq<CartProduct>, productId: string, quantity: int,
                     size: Option<string>, color: Option<string>, product: Option<Product>): seq<CartProduct>
  {
    Upsert(lines, KeyOfLine, LineWithQuantity, ItemKey(productId, size, color), quantity,
           NewLine(product, quantity, size, color))
  }

  /** The line `updateQuantity` appends when the product resolved. */
  function NewLine(product: Option<Product>, quantity: int, size: Option<string>, color: Option<string>)
    : Option<CartProduct>
  {
    match product
    case Some(p) => Some(CartProduct(p, quantity, size, color))
    case None => None
  }

  /** The four outcomes of `updateQuantity` on the displayed lines. */
  lemma MergeLineCases(lines: seq<CartProduct>, productId: string, quantity: int,
                       size: Option<string>, color: Option<string>, product: Option<Product>)
    requires product.Some? ==> product.value.id == productId
    ensures var key := ItemKey(productId, size, color);
            var i := FirstIndex(lines, KeyOfLine, key);
            var r := MergeLine(lines, productId, quantity, size, color, product);
            && (i != -1 && quantity > 0 ==>
                  |r| == |lines| && r[i] == lines[i].(quantity := quantity)
                  && forall j :: 0 <= j < |lines| && j != i ==> r[j] == lines[j])
            && (i != -1 && quantity <= 0 ==> r == RemoveAt(lines, i))
            && (i == -1 && quantity > 0 && product.Some? ==> r == lines + [CartProduct(product.value, quantity, size, color)])
            && (i == -1 && (quantity <= 0 || product.None?) ==> r == lines)
            && Others(r, KeyOfLine, key) == Others(lines, KeyOfLine, key)
  {
    QuantityLaws();
    var key := ItemKey(productId, size, color);
    var added := NewLine(product, quantity, size, color);
    var i := FirstIndex(lines, KeyOfLine, key);
    if i != -1 && quantity > 0 {
      UpsertReplaces(lines, KeyOfLine, LineWithQuantity, key, quantity, added);
    } else if i != -1 {
      UpsertRemoves(lines, KeyOfLine, LineWithQuantity, key, quantity, added);
    } else {
      UpsertAbsent(lines, KeyOfLine, LineWithQuantity, key, quantity, added);
    }
    UpsertKeepsOthers(lines, KeyOfLine, LineWithQuantity, key, quantity, added);
  }

  /** An event of the debounce slot: a new edit, or the delay running out. */
  datatype DebounceEvent = Scheduled(w: PendingWrite) | TimerFired

  /** The remote writes a sequence of debounce events performs, in order,
      starting from the slot `slot`. */
  function Flushed(slot: Option<PendingWrite>, events: seq<DebounceEvent>): (r: seq<PendingWrite>)
    ensures |r| <= |events|
    ensures forall x :: x in r ==> slot == Some(x) || Scheduled(x) in events
    decreases |events|
  {
    if events == [] then []
    else match events[0]
      case Scheduled(w) => Flushed(Some(w), events[1..])
      case TimerFired =>
        (match slot case Some(w) => [w] case None => []) + Flushed(None, events[1..])
  }

  /** The schedule events for a run of edits. */
  function Schedules(ws: seq<PendingWrite>): (r: seq<DebounceEvent>)
    ensures |r| == |ws|
    ensures forall k :: 0 <= k < |ws| ==> r[k] == Scheduled(ws[k])
  {
    if ws == [] then [] else [Scheduled(ws[0])] + Schedules(ws[1..])
  }

  /** A burst of edits followed by one timer: only the last edit is written,
      whatever the earlier edits' keys and whatever was pending before. */
  lemma {:induction false} FlushedCoalesces(slot: Option<PendingWrite>, ws: seq<PendingWrite>)
    requires |ws| >= 1
    ensures Flushed(slot, Schedules(ws) + [TimerFired]) == [ws[|ws| - 1]]
    decreases |ws|
  {
    var evs := Schedules(ws) + [TimerFired];
    assert evs[0] == Scheduled(ws[0]);
    assert evs[1..] == Schedules(ws[1..]) + [TimerFired];
    if |ws| == 1 {
      assert evs[1..] == [TimerFired];
      assert evs[1..][1..] == [];
    } else {
      FlushedCoalesces(Some(ws[0]), ws[1..]);
    }
  }

  /** A timer with nothing pending writes nothing, and each timer writes at most once. */
  lemma FlushedIdleTimer(events: seq<DebounceEvent>)
    ensures Flushed(None, [TimerFired] + events) == Flushed(None, events)
    ensures Flushed(None, [TimerFired, TimerFired] + events) == Flushed(None, events)
  {
    assert ([TimerFired] + events)[1..] == events;
    assert ([TimerFired, TimerFired] + events)[1..] == [TimerFired] + events;
  }

  /** The for-loop of `loadCart` that collects `validCartProducts`. */
  method ValidCartProducts(items: seq<CartItem>, productMap: map<string, Product>)
    returns (valid: seq<CartProduct>)
    ensures valid == Resolve(items, productMap)
  {
    valid := [];
    for k := 0 to |items|
      invariant valid == Resolve(items[..k], productMap)
    {
      assert items[..k + 1][..k] == items[..k];
      var it := items[k];
      if it.productId in productMap {
        valid := valid + [Join(it, productMap[it.productId])];
      }
    }
    assert items[..|items|] == items;
  }

  class CartViewModel {
    const repo: CartRepository
    /** The signed-in user's id, if any (`authRepository.authState.value?.id`). */
    const userId: Option<string>
    var state: CartState
    var localUpdates: map<string, int>
    var isLoading: bool
    /** `updateJob`: the debounced write not yet performed. */
    var pending: Option<PendingWrite>

    /** A fresh view model; the `loadCart()` of `init` is the separate `LoadCart` call. */
    constructor (repo: CartRepository, userId: Option<string>)
      ensures this.repo == repo && this.userId == userId
      ensures state == CartState.Loading && localUpdates == map[] && !isLoading && pending == None
    {
      this.repo := repo;
      this.userId := userId;
      state := CartState.Loading;
      localUpdates := map[];
      isLoading := false;
      pending := None;
    }

    /** `loadCart()`: show the lines whose product resolves and record every stored quantity. */
    method LoadCart()
      modifies this
      ensures pending == old(pending)
      ensures userId.None? ==> state == old(state) && localUpdates == old(localUpdates) && isLoading == old(isLoading)
      ensures userId.Some? ==> !isLoading
      ensures userId.Some? ==>
                match repo.GetCartWithProducts(userId.value)
                case Success(items) =>
                  state == CartState.Success(Resolve(items, repo.GetProducts(ProductIds(items))))
                  && localUpdates == Associate(items, KeyOfItem, QuantityOf)
                case Error(m) => state == CartState.Error(m) && localUpdates == old(localUpdates)
                case Loading => state == CartState.Loading && localUpdates == old(localUpdates)
    {
      if userId.Some? {
        isLoading := true;
        state := CartState.Loading;
        var result := repo.GetCartWithProducts(userId.value);
        if result.Success? {
          ShowCart(result.items);
        } else {
          state := CartState.Error(result.message);
        }
        isLoading := false;
      }
    }

    /** The `Success` branch of `loadCart`: the resolved lines and the stored quantities. */
    method ShowCart(items: seq<CartItem>)
      modifies this`state, this`localUpdates
      ensures state == CartState.Success(Resolve(items, repo.GetProducts(ProductIds(items))))
      ensures localUpdates == Associate(items, KeyOfItem, QuantityOf)
    {
      var valid := ValidCartProducts(items, repo.GetProducts(ProductIds(items)));
      state := CartState.Success(valid);
      localUpdates := Associate(items, KeyOfItem, QuantityOf);
    }

    /** `updateQuantity`: outside `Success` nothing happens; otherwise record the
        quantity, merge the displayed line and schedule the remote write. */
    method UpdateQuantity(productId: string, newQty: int, size: Option<string>, color: Option<string>)
      modifies this
      ensures isLoading == old(isLoading)
      ensures !old(state).Success? ==>
                state == old(state) && localUpdates == old(localUpdates) && pending == old(pending)
      ensures old(state).Success? ==>
                var key := ItemKey(productId, size, color);
                && localUpdates == (if newQty > 0 then old(localUpdates)[key := newQty] else old(localUpdates) - {key})
                && state == CartState.Success(MergeLine(old(state).items, productId, newQty, size, color,
                                                        repo.GetProduct(productId)))
                && pending == (if userId.Some? then Some(PendingWrite(userId.value, productId, newQty, size, color))
                               else old(pending))
    {
      if !state.Success? {
        return;
      }
      var key := ItemKey(productId, size, color);
      if newQty > 0 {
        localUpdates := localUpdates[key := newQty];
      } else {
        localUpdates := localUpdates - {key};
      }
      // the product lookup is a pure read here; its result matters only for a new line
      var product := repo.GetProduct(productId);
      var updated := UpsertInPlace(state.items, KeyOfLine, LineWithQuantity, key, newQty,
                                   NewLine(product, newQty, size, color));
      state := CartState.Success(updated);
      if userId.Some? {
        DebouncedUpdate(PendingWrite(userId.value, productId, newQty, size, color));
      }
    }

    /** `debouncedUpdate`: cancel the unfired write, if any, and schedule this one. */
    method DebouncedUpdate(w: PendingWrite)
      modifies this`pending
      ensures pending == Some(w)
    {
      pending := Some(w);
    }

    /** The debounce delay runs out: the scheduled `updateCartItem` runs and the slot empties. */
    method FireUpdate(newId: string)
      modifies this`pending, repo
      ensures pending == None
      ensures old(pending).None? ==> repo.carts == old(repo.carts) && repo.writes == old(repo.writes)
      ensures old(pending).Some? ==>
                var w := old(pending).value;
                var items := MergeItem(old(repo.CartItemsOf(w.userId)), w.productId, w.quantity, w.size, w.color);
                if repo.reachable then
                  repo.carts == SaveCart(old(repo.carts), repo.codec, w.userId, items, newId)
                  && repo.writes == old(repo.writes) + SaveWrites(old(repo.carts), repo.codec, w.userId, items, newId)
                else repo.carts == old(repo.carts) && repo.writes == old(repo.writes)
    {
      if pending.Some? {
        var w := pending.value;
        var r := repo.UpdateCartItem(w.userId, w.productId, w.quantity, w.size, w.color, newId);
      }
      pending := None;
    }

    /** `clearCart()`: delete the stored cart; the pending write, if any, is not cancelled. */
    method ClearCart()
      modifies this, repo
      ensures pending == old(pending) && isLoading == old(isLoading)
      ensures userId.None? ==>
                state == old(state) && localUpdates == old(localUpdates)
                && repo.carts == old(repo.carts) && repo.writes == old(repo.writes)
      ensures userId.Some? && repo.reachable ==>
                state == CartState.Success([]) && localUpdates == map[]
                && repo.carts == old(repo.carts) - {userId.value}
                && repo.writes == old(repo.writes)
                   + (if userId.value in old(repo.carts) then [Deleted(old(repo.carts)[userId.value].docId)] else [])
      ensures userId.Some? && !repo.reachable ==>
                state == CartState.Error("Failed to clear cart") && localUpdates == old(localUpdates)
                && repo.carts == old(repo.carts) && repo.writes == old(repo.writes)
    {
      if userId.None? {
        return;
      }
      state := CartState.Loading;
      var ok := repo.ClearCart(userId.value);
      if ok {
        state := CartState.Success([]);
        localUpdates := map[];
      } else {
        state := CartState.Error("Failed to clear cart");
      }
    }

    /** `removeFromCart`: drop the key locally and every displayed line with it,
        then ask the repository to drop the first stored line with it. */
    method RemoveFromCart(productId: string, size: Option<string>, color: Option<string>, newId: string)
      modifies this, repo
      ensures pending == old(pending) && isLoading == old(isLoading)
      ensures localUpdates == old(localUpdates) - {ItemKey(productId, size, color)}
      ensures old(state).Success? ==>
                state == CartState.Success(Others(old(state).items, KeyOfLine, ItemKey(productId, size, color)))
      ensures !old(state).Success? ==> state == old(state)
      ensures userId.None? || !repo.reachable ==> repo.carts == old(repo.carts) && repo.writes == old(repo.writes)
      ensures userId.Some? && repo.reachable ==>
                var items := old(repo.CartItemsOf(userId.value));
                var i := FirstIndex(items, KeyOfItem, ItemKey(productId, size, color));
                if i == -1 then repo.carts == old(repo.carts) && repo.writes == old(repo.writes)
                else
                  repo.carts == SaveCart(old(repo.carts), repo.codec, userId.value, RemoveAt(items, i), newId)
                  && repo.writes == old(repo.writes)
                     + SaveWrites(old(repo.carts), repo.codec, userId.value, RemoveAt(items, i), newId)
    {
      var key := ItemKey(productId, size, color);
      localUpdates := localUpdates - {key};
      if state.Success? {
        state := CartState.Success(Others(state.items, KeyOfLine, key));
      }
      if userId.Some? {
        var r := repo.RemoveFromCart(userId.value, productId, size, color, newId);
      }
    }
  }

  /** Removing a key leaves no displayed line with it and every other line as it was. */
  lemma RemoveLineDropsKey(lines: seq<CartProduct>, key: string)
    ensures forall line :: line in Others(lines, KeyOfLine, key) ==> KeyOfLine(line) != key
    ensures UniqueKeys(lines, KeyOfLine) ==>
              Others(lines, KeyOfLine, key)
              == (var i := FirstIndex(lines, KeyOfLine, key); if i == -1 then lines else RemoveAt(lines, i))
  {
    if UniqueKeys(lines, KeyOfLine) {
      OthersIsRemoveFirst(lines, KeyOfLine, key);
    }
  }
}
