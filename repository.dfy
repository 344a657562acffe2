/**
 * The owner-scoped inventory repository: the "inventory" document collection,
 * the image blobs in storage, the signed-in user, and the view model that
 * adds, loads, reads, updates and deletes records on the user's behalf.
 */
module Repository {
  import opened Base
  import opened InventoryModel

  /** A write the app issues to the document store or to blob storage. */
  datatype RemoteWrite =
    | SetDocument(id: string, item: Inventory)
    | DeleteDocument(id: string)
    | PutBlob(url: string)
    | DeleteBlob(url: string)

  /** `id` names a stored record owned by `uid`. */
  predicate Owns(documents: map<string, Inventory>, id: string, uid: string) {
    id in documents && documents[id].userId == uid
  }

  /** The ids of the records owned by `uid`. */
  ghost function OwnedIds(documents: map<string, Inventory>, uid: string): set<string> {
    set id | id in documents && documents[id].userId == uid
  }

  /** `ids` lists, without repetition, the records behind `items`: exactly those owned by `uid`. */
  ghost predicate ListsOwned(ids: seq<string>, items: seq<Inventory>, documents: map<string, Inventory>, uid: string) {
    && |ids| == |items|
    && (forall i :: 0 <= i < |ids| ==> ids[i] in documents && documents[ids[i]] == items[i])
    && (forall i, j :: 0 <= i < j < |ids| ==> ids[i] != ids[j])
    && (forall id :: id in ids <==> Owns(documents, id, uid))
  }

  /** `items` is the result of the query `whereEqualTo("userId", uid)`, in some order. */
  ghost predicate IsOwnedListing(items: seq<Inventory>, documents: map<string, Inventory>, uid: string) {
    exists ids :: ListsOwned(ids, items, documents, uid)
  }

  lemma {:induction false} DistinctCount(ids: seq<string>)
    requires forall i, j :: 0 <= i < j < |ids| ==> ids[i] != ids[j]
    ensures |set id | id in ids| == |ids|
  {
    if ids != [] {
      var p := ids[..|ids| - 1];
      DistinctCount(p);
      assert (set id | id in ids) == (set id | id in p) + {ids[|ids| - 1]};
    }
  }

  /** A listing holds only the user's records, one entry per owned document. */
  lemma OwnedListingFacts(items: seq<Inventory>, documents: map<string, Inventory>, uid: string)
    requires IsOwnedListing(items, documents, uid)
    ensures forall x :: x in items ==> x.userId == uid
    ensures |items| == |OwnedIds(documents, uid)|
  {
    var ids :| ListsOwned(ids, items, documents, uid);
    forall x | x in items
      ensures x.userId == uid
    {
      var i :| 0 <= i < |items| && items[i] == x;
      assert ids[i] in ids;
    }
    DistinctCount(ids);
    assert (set id | id in ids) == OwnedIds(documents, uid);
  }

  lemma {:induction false} DistinctMultiplicity(ids: seq<string>, x: string)
    requires forall i, j :: 0 <= i < j < |ids| ==> ids[i] != ids[j]
    ensures multiset(ids)[x] == if x in ids then 1 else 0
    decreases |ids|
  {
    if ids != [] {
      var p := ids[..|ids| - 1];
      assert ids == p + [ids[|ids| - 1]];
      DistinctMultiplicity(p, x);
    }
  }

  /** The records stored under `ids`, in that order. */
  function Lookup(documents: map<string, Inventory>, ids: seq<string>): seq<Inventory>
    requires forall id :: id in ids ==> id in documents
    decreases |ids|
  {
    if ids == [] then [] else [documents[ids[0]]] + Lookup(documents, ids[1..])
  }

  lemma {:induction false} LookupAppend(documents: map<string, Inventory>, s: seq<string>, t: seq<string>)
    requires forall id :: id in s + t ==> id in documents
    ensures Lookup(documents, s + t) == Lookup(documents, s) + Lookup(documents, t)
    decreases |s|
  {
    if s == [] {
      assert s + t == t;
    } else {
      assert (s + t)[1..] == s[1..] + t;
      LookupAppend(documents, s[1..], t);
    }
  }

  lemma {:induction false} LookupAt(documents: map<string, Inventory>, ids: seq<string>, i: nat)
    requires forall id :: id in ids ==> id in documents
    requires i < |ids|
    ensures |Lookup(documents, ids)| == |ids|
    ensures Lookup(documents, ids)[i] == documents[ids[i]]
    decreases |ids|
  {
    if i > 0 {
      LookupAt(documents, ids[1..], i - 1);
    } else if |ids| > 1 {
      LookupAt(documents, ids[1..], 0);
    }
  }

  /** Looking up the same ids in two orders gives the same records in two orders. */
  lemma {:induction false} LookupPermutation(documents: map<string, Inventory>, ids1: seq<string>, ids2: seq<string>)
    requires forall id :: id in ids1 ==> id in documents
    requires forall id :: id in ids2 ==> id in documents
    requires multiset(ids1) == multiset(ids2)
    ensures multiset(Lookup(documents, ids1)) == multiset(Lookup(documents, ids2))
    decreases |ids1|
  {
    if ids1 == [] {
      assert |ids2| == |multiset(ids2)| == 0;
    } else {
      var j := PermutationHead(ids1, ids2);
      var before, after := ids2[..j], ids2[j + 1..];
      LookupPermutation(documents, ids1[1..], before + after);
      LookupAppend(documents, before, [ids1[0]] + after);
      LookupAppend(documents, [ids1[0]], after);
      LookupAppend(documents, before, after);
    }
  }

  /** A listing is the lookup of its ids. */
  lemma ListingIsLookup(ids: seq<string>, items: seq<Inventory>, documents: map<string, Inventory>, uid: string)
    requires ListsOwned(ids, items, documents, uid)
    ensures forall id :: id in ids ==> id in documents
    ensures items == Lookup(documents, ids)
  {
    forall i | 0 <= i < |ids|
      ensures |Lookup(documents, ids)| == |ids| && Lookup(documents, ids)[i] == items[i]
    {
      LookupAt(documents, ids, i);
    }
    if ids == [] {
      assert items == [];
    }
  }

  /**
   * Two deliveries of the same query hold the same records, whatever order
   * the store returns them in.
   */
  lemma ListingsArePermutations(a: seq<Inventory>, b: seq<Inventory>, documents: map<string, Inventory>, uid: string)
    requires IsOwnedListing(a, documents, uid) && IsOwnedListing(b, documents, uid)
    ensures multiset(a) == multiset(b)
  {
    var ids1 :| ListsOwned(ids1, a, documents, uid);
    var ids2 :| ListsOwned(ids2, b, documents, uid);
    forall x
      ensures multiset(ids1)[x] == multiset(ids2)[x]
    {
      DistinctMultiplicity(ids1, x);
      DistinctMultiplicity(ids2, x);
    }
    assert multiset(ids1) == multiset(ids2);
    ListingIsLookup(ids1, a, documents, uid);
    ListingIsLookup(ids2, b, documents, uid);
    LookupPermutation(documents, ids1, ids2);
  }

  /** Storing a record at `id` moves `id` to the record's owner and leaves every other id as it was. */
  lemma OwnedIdsAfterSet(documents: map<string, Inventory>, id: string, item: Inventory, uid: string)
    ensures OwnedIds(documents[id := item], uid) ==
            if item.userId == uid then OwnedIds(documents, uid) + {id} else OwnedIds(documents, uid) - {id}
  {
  }

  /** Deleting the document at `id` removes `id`, and nothing else, from every user's records. */
  lemma OwnedIdsAfterDelete(documents: map<string, Inventory>, id: string, uid: string)
    ensures OwnedIds(documents - {id}, uid) == OwnedIds(documents, uid) - {id}
  {
  }

  /** The remote side: documents, blobs, and the session's current user. */
  class Store {
    /** The "inventory" collection, by document id. */
    var documents: map<string, Inventory>
    /** Download URLs of the images held in storage. */
    var blobs: set<string>
    /** `FirebaseAuth.currentUser?.uid`. */
    var currentUser: Option<string>
    /** Every write issued, in order. */
    ghost var writes: seq<RemoteWrite>

    constructor(documents: map<string, Inventory>, blobs: set<string>, currentUser: Option<string>)
      ensures this.documents == documents && this.blobs == blobs && this.currentUser == currentUser
      ensures writes == []
    {
      this.documents := documents;
      this.blobs := blobs;
      this.currentUser := currentUser;
      writes := [];
    }

    /** `document(id).set(item).await()`; `ok` is false when it throws. */
    method SetDocument(id: string, item: Inventory, ok: bool)
      modifies this
      ensures documents == if ok then old(documents)[id := item] else old(documents)
      ensures blobs == old(blobs) && currentUser == old(currentUser)
      ensures writes == old(writes) + [RemoteWrite.SetDocument(id, item)]
    {
      if ok {
        documents := documents[id := item];
      }
      writes := writes + [RemoteWrite.SetDocument(id, item)];
    }

    /** `document(id).delete().await()`. */
    method DeleteDocument(id: string, ok: bool)
      modifies this
      ensures documents == if ok then old(documents) - {id} else old(documents)
      ensures blobs == old(blobs) && currentUser == old(currentUser)
      ensures writes == old(writes) + [RemoteWrite.DeleteDocument(id)]
    {
      if ok {
        documents := documents - {id};
      }
      writes := writes + [RemoteWrite.DeleteDocument(id)];
    }

    /**
     * `putBytes(...)` and `downloadUrl` that both succeed: the image is
     * stored under its download URL `url`. A failed upload is not a call
     * here: it leaves storage as it was.
     */
    method PutBlob(url: string)
      modifies this
      ensures blobs == old(blobs) + {url}
      ensures documents == old(documents) && currentUser == old(currentUser)
      ensures writes == old(writes) + [RemoteWrite.PutBlob(url)]
    {
      blobs := blobs + {url};
      writes := writes + [RemoteWrite.PutBlob(url)];
    }

    /** `getReferenceFromUrl(url).delete().await()`. */
    method DeleteBlob(url: string, ok: bool)
      modifies this
      ensures blobs == if ok then old(blobs) - {url} else old(blobs)
      ensures documents == old(documents) && currentUser == old(currentUser)
      ensures writes == old(writes) + [RemoteWrite.DeleteBlob(url)]
    {
      if ok {
        blobs := blobs - {url};
      }
      writes := writes + [RemoteWrite.DeleteBlob(url)];
    }
  }

  /** `InventoryViewModel`: the user's records, mirrored in `inventoryItems`. */
  class InventoryViewModel {
    const store: Store
    var inventoryItems: seq<Inventory>

    constructor(store: Store)
      ensures this.store == store && inventoryItems == []
    {
      this.store := store;
      inventoryItems := [];
    }

    /**
     * `addInventoryItem`: `newId` is the id the store generates for the new
     * document and `writeOk` whether the write succeeds. The stored record
     * carries that id and the signed-in user as owner, whatever `item` held.
     */
    method AddInventoryItem(item: Inventory, newId: string, writeOk: bool) returns (ok: bool)
      modifies store
      ensures store.currentUser == old(store.currentUser) && store.blobs == old(store.blobs)
      ensures store.currentUser.None? ==>
                !ok && store.documents == old(store.documents) && store.writes == old(store.writes)
      ensures store.currentUser.Some? ==>
                var stored := item.(id := newId, userId := store.currentUser.value);
                && ok == writeOk
                && store.documents == (if writeOk then old(store.documents)[newId := stored] else old(store.documents))
                && store.writes == old(store.writes) + [SetDocument(newId, stored)]
    {
      if store.currentUser.None? {
        return false;
      }
      var itemWithId := item.(id := newId, userId := store.currentUser.value);
      store.SetDocument(newId, itemWithId, writeOk);
      ok := writeOk;
    }

    /**
     * `loadInventoryItems` and its snapshot listener: with a user signed in
     * and no listener error, the list becomes the user's records, in the
     * order the store returns them (any order). Otherwise the list is kept.
     */
    method LoadInventoryItems(listenerOk: bool)
      modifies this
      ensures store.currentUser.None? || !listenerOk ==> inventoryItems == old(inventoryItems)
      ensures store.currentUser.Some? && listenerOk ==>
                IsOwnedListing(inventoryItems, store.documents, store.currentUser.value)
    {
      if store.currentUser.None? {
        return;
      }
      var uid := store.currentUser.value;
      if !listenerOk {
        return;
      }
      var remaining := store.documents.Keys;
      var items: seq<Inventory> := [];
      ghost var ids: seq<string> := [];
      while remaining != {}
        invariant remaining <= store.documents.Keys
        invariant |ids| == |items|
        invariant forall i :: 0 <= i < |ids| ==> ids[i] in store.documents && store.documents[ids[i]] == items[i]
        invariant forall i, j :: 0 <= i < j < |ids| ==> ids[i] != ids[j]
        invariant forall id :: id in ids <==> Owns(store.documents, id, uid) && id !in remaining
        decreases remaining
      {
        var id :| id in remaining;
        var document := store.documents[id];
        if document.userId == uid {
          items := items + [document];
          ids := ids + [id];
        }
        remaining := remaining - {id};
      }
      assert ListsOwned(ids, items, store.documents, uid);
      inventoryItems := items;
    }

    /**
     * `getInventoryItemById`: the stored record when it exists and the
     * signed-in user owns it; null otherwise, and when the read fails.
     */
    method GetInventoryItemById(itemId: string, readOk: bool) returns (r: Option<Inventory>)
      ensures r.Some? <==> store.currentUser.Some? && readOk && Owns(store.documents, itemId, store.currentUser.value)
      ensures r.Some? ==> r.value == store.documents[itemId] && r.value.userId == store.currentUser.value
    {
      if store.currentUser.None? {
        return None;
      }
      var uid := store.currentUser.value;
      if !readOk || itemId !in store.documents {
        return None;
      }
      var item := store.documents[itemId];
      if item.userId == uid {
        r := Some(item);
      } else {
        r := None;
      }
    }

    /**
     * `updateInventoryItem`: the owner check reads the INCOMING record's
     * `userId`, not the stored one; when it passes the whole document at
     * `item.id` is overwritten with `item`, whoever owned it before.
     */
    method UpdateInventoryItem(item: Inventory, writeOk: bool) returns (ok: bool)
      modifies store
      ensures store.currentUser == old(store.currentUser) && store.blobs == old(store.blobs)
      ensures store.currentUser != Some(item.userId) ==>
                !ok && store.documents == old(store.documents) && store.writes == old(store.writes)
      ensures store.currentUser == Some(item.userId) ==>
                && ok == writeOk
                && store.documents == (if writeOk then old(store.documents)[item.id := item] else old(store.documents))
                && store.writes == old(store.writes) + [SetDocument(item.id, item)]
    {
      if store.currentUser.None? {
        return false;
      }
      if item.userId != store.currentUser.value {
        return false;
      }
      store.SetDocument(item.id, item, writeOk);
      ok := writeOk;
    }

    /**
     * `deleteInventoryItem`: only a stored record owned by the signed-in user
     * is deleted. Its photo blob, if any, is deleted first; a failure there
     * stops before the document. A failure deleting the document leaves the
     * blob already gone.
     */
    method DeleteInventoryItem(itemId: string, readOk: bool, blobDeleteOk: bool, documentDeleteOk: bool)
      returns (ok: bool)
      modifies store
      ensures store.currentUser == old(store.currentUser)
      ensures !(store.currentUser.Some? && readOk && Owns(old(store.documents), itemId, store.currentUser.value)) ==>
                && !ok
                && store.documents == old(store.documents) && store.blobs == old(store.blobs)
                && store.writes == old(store.writes)
      ensures store.currentUser.Some? && readOk && Owns(old(store.documents), itemId, store.currentUser.value) ==>
                var item := old(store.documents)[itemId];
                var blobGone := !HasPhoto(item) || blobDeleteOk;
                && ok == (blobGone && documentDeleteOk)
                && store.blobs == (if HasPhoto(item) && blobDeleteOk then old(store.blobs) - {item.photo} else old(store.blobs))
                && store.documents == (if ok then old(store.documents) - {itemId} else old(store.documents))
                && store.writes == old(store.writes)
                                   + (if HasPhoto(item) then [DeleteBlob(item.photo)] else [])
                                   + (if blobGone then [DeleteDocument(itemId)] else [])
    {
      if store.currentUser.None? {
        return false;
      }
      var uid := store.currentUser.value;
      if !readOk || itemId !in store.documents {
        return false;
      }
      var item := store.documents[itemId];
      if item.userId != uid {
        return false;
      }
      if HasPhoto(item) {
        store.DeleteBlob(item.photo, blobDeleteOk);
        if !blobDeleteOk {
          return false;
        }
      }
      store.DeleteDocument(itemId, documentDeleteOk);
      ok := documentDeleteOk;
    }
  }
}
