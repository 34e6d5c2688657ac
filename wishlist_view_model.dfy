/** The wishlist screen's view model (`WishlistViewModel.kt`): soft delete
    with undo. Removing a product hides it at once, keeps it as a tombstone
    and starts a deletion job; undo within the delay puts it back, and a job
    whose delay runs out deletes the product remotely if its tombstone is
    still there. The 4 s delay is the explicit event `DeletionTimerFires(job)`;
    jobs are numbered so that a job that outlived its map entry can be told
    apart from the one that replaced it. */
module WishlistVm {
  import opened Common
  import opened ProductData
  import opened Ledger

  /** `WishlistState`. */
  datatype WishlistState =
    | Loading
    | Success(items: seq<Product>)
    | Error(message: string)

  /** How `repository.getWishlistItems()` ended. */
  datatype FetchOutcome = Fetched(items: seq<Product>) | FetchThrew(message: Option<string>)

  /** How `repository.clearWishlist()` ended: true, false, or an exception. */
  datatype ClearOutcome = Cleared | NotCleared | ClearThrew(message: Option<string>)

  /** A running deletion job. */
  type JobId = nat

  /** A product's id, the wishlist's key. */
  function IdOf(p: Product): string {
    p.id
  }

  /** `items.find { it.id == productId }`. */
  function Find(items: seq<Product>, productId: string): (r: Option<Product>)
    ensures r.None? <==> forall k :: 0 <= k < |items| ==> items[k].id != productId
    ensures r.Some? ==> r.value.id == productId && r.value in items
    ensures r.Some? ==> r.value == items[FirstIndex(items, IdOf, productId)]
  {
    var i := FirstIndex(items, IdOf, productId);
    if i == -1 then None else Some(items[i])
  }

  /** `items.filterNot { it.id == productId }`: no product with the id is left,
      the others keep their order. */
  function WithoutId(items: seq<Product>, productId: string): (r: seq<Product>)
    ensures forall p :: p in r ==> p in items && p.id != productId
  {
    Others(items, IdOf, productId)
  }

  /** Removing an id that is not listed changes nothing. */
  lemma WithoutAbsentId(items: seq<Product>, productId: string)
    requires Find(items, productId).None?
    ensures WithoutId(items, productId) == items
  {
    forall x | x in items ensures IdOf(x) != productId {
      var k :| 0 <= k < |items| && items[k] == x;
    }
    OthersNone(items, IdOf, productId);
  }

  /** Remove then undo puts the product back at the end, not where it was:
      with one product per id, the list after undo is the list without the
      product followed by it, which differs from the original unless the
      product was already last. */
  lemma UndoAppendsAtEnd(items: seq<Product>, i: nat)
    requires i < |items| && UniqueKeys(items, IdOf)
    ensures WithoutId(items, items[i].id) + [items[i]] == RemoveAt(items, i) + [items[i]]
    ensures i + 1 < |items| ==> WithoutId(items, items[i].id) + [items[i]] != items
  {
    FirstIndexAt(items, IdOf, items[i].id, i);
    OthersIsRemoveFirst(items, IdOf, items[i].id);
    var r := WithoutId(items, items[i].id) + [items[i]];
    if i + 1 < |items| {
      assert r[|items| - 1] == items[i];
      assert IdOf(items[i]) != IdOf(items[|items| - 1]);
    }
  }

  class WishlistViewModel {
    var state: WishlistState
    var itemVisibility: map<string, bool>
    /** The tombstones: products removed from the list but not yet deleted remotely. */
    var removedItems: map<string, Product>
    /** The latest deletion job launched for each product id. */
    var deletionJobs: map<string, JobId>
    /** The jobs waiting for their delay, each with its product id. */
    var running: map<JobId, string>
    var nextJob: JobId
    /** The `repository.removeFromWishlist(productId)` calls made, in order. */
    var remoteDeletes: seq<string>

    /** Every job in the job map is running for that product, and job numbers are fresh. */
    ghost predicate Valid()
      reads this
    {
      && (forall id :: id in deletionJobs ==>
            deletionJobs[id] in running && running[deletionJobs[id]] == id)
      && (forall j :: j in running ==> j < nextJob)
    }

    constructor ()
      ensures Valid()
      ensures state == Loading && itemVisibility == map[] && removedItems == map[]
      ensures deletionJobs == map[] && running == map[] && remoteDeletes == []
    {
      state := Loading;
      itemVisibility := map[];
      removedItems := map[];
      deletionJobs := map[];
      running := map[];
      nextJob := 0;
      remoteDeletes := [];
    }

    /** `fetchWishlistItems()`: show the fetched products and mark each one visible. */
    method FetchWishlistItems(outcome: FetchOutcome)
      requires Valid()
      modifies this`state, this`itemVisibility
      ensures Valid()
      ensures outcome.Fetched? ==> state == Success(outcome.items)
      ensures outcome.Fetched? ==>
                (forall id :: id in itemVisibility <==> id in old(itemVisibility) || exists p :: p in outcome.items && p.id == id)
                && (forall p :: p in outcome.items ==> itemVisibility[p.id])
                && (forall id :: id in old(itemVisibility) && (forall p :: p in outcome.items ==> p.id != id)
                      ==> itemVisibility[id] == old(itemVisibility)[id])
      ensures outcome.FetchThrew? ==>
                state == Error(outcome.message.GetOr("Failed to load wishlist"))
                && itemVisibility == old(itemVisibility)
    {
      state := Loading;
      match outcome {
        case Fetched(items) =>
          for k := 0 to |items|
            invariant forall id :: id in itemVisibility <==> id in old(itemVisibility) || exists p :: p in items[..k] && p.id == id
            invariant forall p :: p in items[..k] ==> itemVisibility[p.id]
            invariant forall id :: id in old(itemVisibility) && (forall p :: p in items[..k] ==> p.id != id)
                        ==> itemVisibility[id] == old(itemVisibility)[id]
          {
            assert items[..k + 1] == items[..k] + [items[k]];
            itemVisibility := itemVisibility[items[k].id := true];
          }
          assert items[..|items|] == items;
          state := Success(items);
        case FetchThrew(message) =>
          state := Error(message.GetOr("Failed to load wishlist"));
      }
    }

    /** `removeFromWishlist(productId, ...)`: hide the product; if it is listed,
        tombstone it, drop it from the list and start its deletion job. */
    method RemoveFromWishlist(productId: string)
      requires Valid()
      modifies this
      ensures Valid()
      ensures itemVisibility == old(itemVisibility)[productId := false]
      ensures remoteDeletes == old(remoteDeletes)
      ensures var found := if old(state).Success? then Find(old(state).items, productId) else None;
              if found.None? then
                state == old(state) && removedItems == old(removedItems)
                && deletionJobs == old(deletionJobs) && running == old(running) && nextJob == old(nextJob)
              else
                && state == Success(WithoutId(old(state).items, productId))
                && removedItems == old(removedItems)[productId := found.value]
                && deletionJobs == old(deletionJobs)[productId := old(nextJob)]
                && running == old(running)[old(nextJob) := productId]
                && nextJob == old(nextJob) + 1
    {
      itemVisibility := itemVisibility[productId := false];
      if !state.Success? {
        return;
      }
      var found := Find(state.items, productId);
      if found.None? {
        return;
      }
      removedItems := removedItems[productId := found.value];
      state := Success(WithoutId(state.items, productId));
      var job := nextJob;
      running := running[job := productId];
      nextJob := nextJob + 1;
      deletionJobs := deletionJobs[productId := job];
    }

    /** `undoRemoveFromWishlist(productId)`: without a tombstone nothing happens;
        otherwise cancel the job, re-append the product at the end (only while
        the list is shown) and drop the tombstone. */
    method UndoRemoveFromWishlist(productId: string)
      requires Valid()
      modifies this
      ensures Valid()
      ensures nextJob == old(nextJob) && remoteDeletes == old(remoteDeletes)
      ensures productId !in old(removedItems) ==>
                state == old(state) && itemVisibility == old(itemVisibility) && removedItems == old(removedItems)
                && deletionJobs == old(deletionJobs) && running == old(running)
      ensures productId in old(removedItems) ==>
                && removedItems == old(removedItems) - {productId}
                && deletionJobs == old(deletionJobs) - {productId}
                && running == (if productId in old(deletionJobs) then old(running) - {old(deletionJobs)[productId]}
                               else old(running))
                && (old(state).Success? ==>
                      state == Success(old(state).items + [old(removedItems)[productId]])
                      && itemVisibility == old(itemVisibility)[productId := true])
                && (!old(state).Success? ==> state == old(state) && itemVisibility == old(itemVisibility))
    {
      if productId !in removedItems {
        return;
      }
      var product := removedItems[productId];
      if productId in deletionJobs {
        running := running - {deletionJobs[productId]};
      }
      deletionJobs := deletionJobs - {productId};
      if state.Success? {
        state := Success(state.items + [product]);
        itemVisibility := itemVisibility[productId := true];
      }
      removedItems := removedItems - {productId};
    }

    /** A deletion job's delay runs out: delete remotely if the tombstone is still
        there, then drop the tombstone and the job map's entry for that id. A
        cancelled or finished job does nothing. */
    method DeletionTimerFires(job: JobId)
      requires Valid()
      modifies this
      ensures Valid()
      ensures state == old(state) && itemVisibility == old(itemVisibility) && nextJob == old(nextJob)
      ensures job !in old(running) ==>
                removedItems == old(removedItems) && deletionJobs == old(deletionJobs)
                && running == old(running) && remoteDeletes == old(remoteDeletes)
      ensures job in old(running) ==>
                var id := old(running)[job];
                && running == old(running) - {job}
                && removedItems == old(removedItems) - {id}
                && deletionJobs == old(deletionJobs) - {id}
                && remoteDeletes == old(remoteDeletes) + (if id in old(removedItems) then [id] else [])
    {
      if job !in running {
        return;
      }
      var id := running[job];
      if id in removedItems {
        remoteDeletes := remoteDeletes + [id];
        removedItems := removedItems - {id};
      }
      deletionJobs := deletionJobs - {id};
      running := running - {job};
    }

    /** `clearWishlist()`: on success empty the list and every map, cancelling the
        jobs in the job map; otherwise show the error and keep everything else. */
    method ClearWishlist(outcome: ClearOutcome)
      requires Valid()
      modifies this
      ensures Valid()
      ensures nextJob == old(nextJob) && remoteDeletes == old(remoteDeletes)
      ensures outcome.Cleared? ==>
                && state == Success([]) && itemVisibility == map[] && removedItems == map[]
                && deletionJobs == map[]
                && running == map j | j in old(running) && !(old(running)[j] in old(deletionJobs)
                                                             && old(deletionJobs)[old(running)[j]] == j)
                                    :: old(running)[j]
      ensures !outcome.Cleared? ==>
                && state == Error(if outcome.NotCleared? then "Failed to clear wishlist"
                                  else outcome.message.GetOr("Failed to clear wishlist"))
                && itemVisibility == old(itemVisibility) && removedItems == old(removedItems)
                && deletionJobs == old(deletionJobs) && running == old(running)
    {
      match outcome {
        case Cleared =>
          state := Success([]);
          itemVisibility := map[];
          removedItems := map[];
          running := map j | j in running && !(running[j] in deletionJobs && deletionJobs[running[j]] == j)
                       :: running[j];
          deletionJobs := map[];
        case NotCleared =>
          state := Error("Failed to clear wishlist");
        case ClearThrew(message) =>
          state := Error(message.GetOr("Failed to clear wishlist"));
      }
    }
  }
}
