/**
 * images/operations.py: attach, detach, reorder, set-cover and unset-cover under
 * the target's row lock, one SQL statement at a time.
 */
module ImageOperations {
  import opened Common
  import opened ImageRelations

  datatype OperationError = ImageNotFound | DuplicateIds | NotAttached | Incomplete | NotOwned

  /** Image primary key to organization id. */
  type Owners = map<ImageId, int>

  predicate Owned(owners: Owners, organization: int, image: ImageId) {
    image in owners && owners[image] == organization
  }

  predicate IndexedAt(rows: Rows, byImage: map<ImageId, nat>, image: ImageId) {
    image in byImage && byImage[image] in rows && rows[byImage[image]].image == image
  }

  /** `byImage` finds the row of every attached image. */
  predicate IsIndex(rows: Rows, byImage: map<ImageId, nat>) {
    && byImage.Keys == Images(rows)
    && forall x {:trigger IndexedAt(rows, byImage, x)} | x in byImage.Keys :: IndexedAt(rows, byImage, x)
  }

  function WithOrders(rows: Rows, orders: map<nat, int>): Rows {
    map p | p in rows :: if p in orders then rows[p].(order := Some(orders[p])) else rows[p]
  }

  function WithoutCovers(rows: Rows, kept: Option<nat>): Rows {
    map p | p in rows :: if kept == Some(p) then rows[p] else rows[p].(cover := false)
  }

  function OnlyCover(rows: Rows, pk: nat): Rows {
    map p | p in rows :: rows[p].(cover := p == pk)
  }

  lemma OrdersKeepCovers(rows: Rows, orders: map<nat, int>)
    ensures HasCover(WithOrders(rows, orders)) == HasCover(rows)
    ensures forall p | p in rows :: WithOrders(rows, orders)[p].cover == rows[p].cover
  {
    if HasCover(rows) {
      var p :| p in rows && rows[p].cover;
      assert WithOrders(rows, orders)[p].cover;
    }
  }

  lemma OnlyCoverIsCovered(rows: Rows, pk: nat)
    requires UniqueImages(rows) && pk in rows
    ensures rows[pk].image in Images(rows)
    ensures OnlyCover(rows, pk) == Apply(rows, Covered(rows[pk].image))
  {}

  /** The order updates of the first n requested images: only rows whose order differs. */
  function OrderUpdates(rows: Rows, byImage: map<ImageId, nat>, ids: seq<ImageId>, n: nat): map<nat, int>
    requires n <= |ids|
    requires forall x | x in ids :: x in byImage && byImage[x] in rows
  {
    if n == 0 then map[]
    else
      var before := OrderUpdates(rows, byImage, ids, n - 1);
      var p := byImage[ids[n - 1]];
      if rows[p].order == Some(n - 1) then before else before[p := n - 1]
  }

  lemma {:induction false} OrderUpdatesExactly(rows: Rows, byImage: map<ImageId, nat>, ids: seq<ImageId>, n: nat)
    requires n <= |ids| && NoDup(ids) && IsIndex(rows, byImage)
    requires forall x | x in ids :: x in byImage && byImage[x] in rows
    ensures forall p | p in OrderUpdates(rows, byImage, ids, n) ::
              && p in rows && rows[p].image in ids
              && OrderUpdates(rows, byImage, ids, n)[p] == IndexOf(ids, rows[p].image)
              && rows[p].order != Some(OrderUpdates(rows, byImage, ids, n)[p])
    ensures forall k | 0 <= k < n && rows[byImage[ids[k]]].order != Some(k) ::
              byImage[ids[k]] in OrderUpdates(rows, byImage, ids, n)
  {
    if n == 0 {
    } else {
      OrderUpdatesExactly(rows, byImage, ids, n - 1);
      assert IndexedAt(rows, byImage, ids[n - 1]);
    }
  }

  /** After the bulk update every order is the requested place. */
  lemma UpdatedOrders(rows: Rows, byImage: map<ImageId, nat>, ids: seq<ImageId>, p: nat)
    requires UniqueImages(rows) && IsIndex(rows, byImage) && ListChecks(rows, ids) && p in rows
    requires forall x | x in ids :: x in byImage && byImage[x] in rows
    ensures rows[p].image in ids
    ensures WithOrders(rows, OrderUpdates(rows, byImage, ids, |ids|))[p]
            == rows[p].(order := Some(IndexOf(ids, rows[p].image)))
  {
    OrderUpdatesExactly(rows, byImage, ids, |ids|);
    ReorderedRow(rows, ids, p);
    var k := IndexOf(ids, rows[p].image);
    assert IndexedAt(rows, byImage, ids[k]);
  }

  /** The bulk update of the orders is one statement after which the facts hold. */
  lemma BulkUpdateKeepsFacts(rows: Rows, byImage: map<ImageId, nat>, ids: seq<ImageId>)
    requires Facts(rows) && IsIndex(rows, byImage) && ListChecks(rows, ids)
    requires forall x | x in ids :: x in byImage && byImage[x] in rows
    ensures Facts(WithOrders(rows, OrderUpdates(rows, byImage, ids, |ids|)))
  {
    var now := WithOrders(rows, OrderUpdates(rows, byImage, ids, |ids|));
    forall p | p in now
      ensures rows[p].image in ids && now[p] == rows[p].(order := Some(IndexOf(ids, rows[p].image)))
    {
      UpdatedOrders(rows, byImage, ids, p);
    }
  }

  /** What the attach loop starts from: the next key and the next order are new. */
  ghost predicate AttachStart(was: Rows, first: nat, order: int) {
    Facts(was) && (forall p | p in was :: p < first) && IsNextOrder(was, order)
  }

  predicate Reached(was: Rows, first: nat, order: int, ids: seq<ImageId>, i: nat, now: Rows, nextPk: nat)
    requires i <= |ids|
  {
    now == RowsReached(was, first, order, ids, i) && nextPk == first + |NewIds(ids, Images(was), i)|
  }

  ghost predicate OrdersBelow(rows: Rows, bound: int) {
    forall p | p in rows && rows[p].order.Some? :: rows[p].order.value < bound
  }

  /** One target object. `log` holds the rows after every statement so far. */
  class Target {
    var rows: Rows
    var nextPk: nat
    ghost var log: seq<Rows>

    /** The facts hold now and held after every statement. */
    ghost predicate Valid()
      reads this
    {
      && Facts(rows)
      && (forall p | p in rows :: p < nextPk)
      && forall i | 0 <= i < |log| :: Facts(log[i])
    }

    constructor ()
      ensures Valid() && rows == map[] && log == []
    {
      rows, nextPk, log := map[], 0, [];
    }

    // ---------- Single statements ----------

    method Insert(image: ImageId, order: int, cover: bool) returns (pk: nat)
      requires Valid() && image !in Images(rows) && (cover ==> !HasCover(rows))
      requires OrdersBelow(rows, order)
      modifies this
      ensures Valid() && pk == old(nextPk) && nextPk == pk + 1
      ensures rows == old(rows)[pk := Row(image, Some(order), cover)] && log == old(log) + [rows]
    {
      pk := nextPk;
      assert forall p | p in rows :: rows[p].image in Images(rows);
      rows := rows[pk := Row(image, Some(order), cover)];
      nextPk := pk + 1;
      log := log + [rows];
    }

    method DeleteImages(images: seq<ImageId>)
      requires Valid()
      modifies this
      ensures Valid() && nextPk == old(nextPk)
      ensures rows == Apply(old(rows), Detached(images)) && log == old(log) + [rows]
    {
      EventKeepsFacts(rows, Detached(images));
      rows := Apply(rows, Detached(images));
      log := log + [rows];
    }

    method WriteOrders(orders: map<nat, int>)
      requires Valid() && Facts(WithOrders(rows, orders))
      modifies this
      ensures Valid() && nextPk == old(nextPk)
      ensures rows == WithOrders(old(rows), orders) && log == old(log) + [rows]
    {
      rows := WithOrders(rows, orders);
      log := log + [rows];
    }

    method ClearCovers(kept: Option<nat>)
      requires Valid()
      modifies this
      ensures Valid() && nextPk == old(nextPk)
      ensures rows == WithoutCovers(old(rows), kept) && log == old(log) + [rows]
    {
      rows := WithoutCovers(rows, kept);
      log := log + [rows];
    }

    method MarkCover(pk: nat)
      requires Valid() && pk in rows && forall p | p in rows && rows[p].cover :: p == pk
      modifies this
      ensures Valid() && nextPk == old(nextPk)
      ensures rows == old(rows)[pk := old(rows)[pk].(cover := true)] && log == old(log) + [rows]
    {
      rows := rows[pk := rows[pk].(cover := true)];
      log := log + [rows];
    }

    // ---------- Reading ----------

    /** `_locked_relations`: the rows ordered by (order, pk). */
    method LockedRelations() returns (listing: seq<nat>)
      ensures IsListing(rows, listing)
    {
      listing := [];
      var left := rows.Keys;
      while left != {}
        invariant left <= rows.Keys && SomeListed(rows, listing)
        invariant forall p | p in rows :: p in left || p in listing
        invariant forall i | 0 <= i < |listing| :: listing[i] !in left
        decreases |left|
      {
        var p :| p in left;
        var k := 0;
        while k < |listing| && Precedes(rows, listing[k], p)
          invariant k <= |listing|
          invariant forall i | 0 <= i < k :: Precedes(rows, listing[i], p)
        {
          k := k + 1;
        }
        InsertListed(rows, listing, p, k);
        left := left - {p};
        listing := listing[..k] + [p] + listing[k..];
      }
    }

    /** `{relation.image_id: relation for relation in relations}` */
    method IndexByImage(listing: seq<nat>) returns (byImage: map<ImageId, nat>)
      requires UniqueImages(rows) && IsListing(rows, listing)
      ensures IsIndex(rows, byImage)
    {
      byImage := map[];
      for i := 0 to |listing|
        invariant forall j | 0 <= j < i :: rows[listing[j]].image in byImage.Keys
        invariant forall x | x in byImage.Keys :: byImage[x] in rows && rows[byImage[x]].image == x
      {
        byImage := byImage[rows[listing[i]].image := listing[i]];
      }
      forall x | x in byImage.Keys ensures x in Images(rows) && IndexedAt(rows, byImage, x) {
        var p := byImage[x];
        assert p in rows && rows[p].image == x;
      }
      forall x | x in Images(rows) ensures x in byImage.Keys {
        var p :| p in rows && rows[p].image == x;
        assert p in listing;
      }
      assert byImage.Keys == Images(rows);
    }

    method NextOrder(listing: seq<nat>) returns (next: int)
      requires IsListing(rows, listing)
      ensures IsNextOrder(rows, next)
    {
      var highest: Option<int> := None;
      for i := 0 to |listing|
        invariant highest == None ==> forall j | 0 <= j < i :: rows[listing[j]].order.None?
        invariant highest.Some? ==> exists j | 0 <= j < i :: rows[listing[j]].order == highest
        invariant highest.Some? ==>
                    forall j | 0 <= j < i && rows[listing[j]].order.Some? ::
                      rows[listing[j]].order.value <= highest.value
      {
        var order := rows[listing[i]].order;
        if order.Some? && (highest.None? || order.value > highest.value) {
          highest := order;
        }
      }
      next := if highest.Some? then highest.value + 1 else 0;
      if highest.Some? {
        var j :| 0 <= j < |listing| && rows[listing[j]].order == highest;
        assert rows[listing[j]].order == Some(next - 1);
      }
    }

    // ---------- The five operations ----------

    /** One round of the attach loop: the relation of an attached image, or a new one. */
    method AttachNext(image: ImageId, byImage: map<ImageId, nat>, nextOrder: int, hasCover: bool)
      returns (relation: nat, created: bool, index: map<ImageId, nat>)
      requires Valid() && OrdersBelow(rows, nextOrder)
      requires hasCover == HasCover(rows) && IsIndex(rows, byImage)
      modifies this
      ensures Valid() && (created <==> image !in Images(old(rows)))
      ensures created ==> relation == old(nextPk) && nextPk == relation + 1
      ensures created ==> rows == old(rows)[relation := Row(image, Some(nextOrder), !hasCover)]
      ensures IsIndex(rows, index) && HasCover(rows) == (created || hasCover)
      ensures !created ==> rows == old(rows) && nextPk == old(nextPk)
      ensures relation in rows && rows[relation].image == image
      ensures old(log) <= log && Extends(old(rows), rows)
    {
      IndexIsExact(rows, byImage, image);
      if image !in byImage {
        IndexInsert(rows, byImage, nextPk, Row(image, Some(nextOrder), !hasCover));
        relation := Insert(image, nextOrder, !hasCover);
        created, index := true, byImage[image := relation];
      } else {
        relation, created, index := byImage[image], false, byImage;
      }
    }

    method Attach(organization: int, imageIds: seq<ImageId>, owners: Owners)
      returns (r: Result<(seq<nat>, seq<ImageId>), OperationError>)
      requires Valid()
      modifies this
      ensures Valid() && old(log) <= log
      ensures r.Failure? <==> exists x | x in imageIds :: !(x in owners && owners[x] == organization)
      ensures r.Failure? ==> r.error == ImageNotFound && rows == old(rows) && log == old(log)
      ensures r.Success? ==>
              && r.value.1 == NewIds(imageIds, Images(old(rows)), |imageIds|)
              && exists order ::
                   && Allowed(old(rows), Attached(old(nextPk), order, r.value.1))
                   && rows == Apply(old(rows), Attached(old(nextPk), order, r.value.1))
                   && Appended(old(rows), rows, old(nextPk), order, r.value.1)
      ensures r.Success? ==> AnswersInOrder(rows, imageIds, r.value.0, |imageIds|)
    {
      var relations := LockedRelations();
      if exists x | x in imageIds :: !Owned(owners, organization, x) {
        var x :| x in imageIds && !Owned(owners, organization, x);
        assert !(x in owners && owners[x] == organization);
        return Failure(ImageNotFound);
      }
      var nextOrder := NextOrder(relations);
      ghost var was, first, order := rows, nextPk, nextOrder;
      var byImage := IndexByImage(relations);
      var result, added := AttachAll(imageIds, byImage, HasCover(rows), nextOrder);
      AttachingIsAllowed(was, first, order, imageIds, |imageIds|);
      assert rows == Apply(was, Attached(first, order, added));
      AttachAppends(was, first, order, added);
      OwnersLiteral(imageIds, owners, organization);
      return Success((result, added));
    }

    /** `AttachNext` as one round of an attach that started from `was`. */
    method AttachRound(ids: seq<ImageId>, i: nat, byImage: map<ImageId, nat>, nextOrder: int, hasCover: bool,
                       ghost was: Rows, ghost first: nat, ghost order: int)
      returns (relation: nat, created: bool, index: map<ImageId, nat>)
      requires Valid() && i < |ids| && AttachStart(was, first, order)
               && Reached(was, first, order, ids, i, rows, nextPk)
      requires nextOrder == order + |NewIds(ids, Images(was), i)|
      requires hasCover == HasCover(rows) && IsIndex(rows, byImage)
      modifies this
      ensures Valid() && Reached(was, first, order, ids, i + 1, rows, nextPk)
      ensures NewIds(ids, Images(was), i + 1) == NewIds(ids, Images(was), i) + if created then [ids[i]] else []
      ensures IsIndex(rows, index) && HasCover(rows) == (created || hasCover)
      ensures relation in rows && rows[relation].image == ids[i]
      ensures old(log) <= log && Extends(old(rows), rows)
    {
      AttachingNext(was, first, order, ids, i, rows, nextPk, nextOrder, hasCover);
      relation, created, index := AttachNext(ids[i], byImage, nextOrder, hasCover);
    }

    /** The attach loop. */
    method AttachAll(imageIds: seq<ImageId>, index: map<ImageId, nat>, covered: bool, order: int)
      returns (result: seq<nat>, added: seq<ImageId>)
      requires Valid() && AttachStart(rows, nextPk, order)
      requires IsIndex(rows, index) && covered == HasCover(rows)
      modifies this
      ensures Valid() && old(log) <= log
      ensures added == NewIds(imageIds, Images(old(rows)), |imageIds|)
      ensures Reached(old(rows), old(nextPk), order, imageIds, |imageIds|, rows, nextPk)
      ensures AnswersInOrder(rows, imageIds, result, |imageIds|)
    {
      ghost var was, first := rows, nextPk;
      var byImage, hasCover, nextOrder := index, covered, order;
      result, added := [], [];
      for i := 0 to |imageIds|
        invariant Valid() && nextOrder == order + |added|
        invariant added == NewIds(imageIds, Images(was), i) && Reached(was, first, order, imageIds, i, rows, nextPk)
        invariant hasCover == HasCover(rows) && IsIndex(rows, byImage)
        invariant AnswersInOrder(rows, imageIds, result, i) && old(log) <= log
      {
        ghost var before := rows;
        var relation, created;
        relation, created, byImage := AttachRound(imageIds, i, byImage, nextOrder, hasCover, was, first, order);
        AnswersExtend(before, rows, imageIds, result, i, relation);
        if created {
          nextOrder := nextOrder + 1;
          hasCover := true;
          added := added + [imageIds[i]];
        }
        result := result + [relation];
      }
    }

    /** The relation of an image, or of the cover, in a listing. */
    method Find(listing: seq<nat>, image: ImageId) returns (relation: Option<nat>)
      requires IsListing(rows, listing)
      ensures relation.None? ==> image !in Images(rows)
      ensures relation.Some? ==> relation.value in rows && rows[relation.value].image == image
    {
      for i := 0 to |listing|
        invariant forall j | 0 <= j < i :: rows[listing[j]].image != image
      {
        if rows[listing[i]].image == image {
          return Some(listing[i]);
        }
      }
      return None;
    }

    method FindCover(listing: seq<nat>) returns (relation: Option<nat>)
      requires IsListing(rows, listing)
      ensures relation.None? ==> !HasCover(rows)
      ensures relation.Some? ==> relation.value in rows && rows[relation.value].cover
    {
      for i := 0 to |listing|
        invariant forall j | 0 <= j < i :: !rows[listing[j]].cover
      {
        if rows[listing[i]].cover {
          return Some(listing[i]);
        }
      }
      return None;
    }

    /** Detaches what is attached of the request and answers it in listing order. */
    method Detach(imageIds: seq<ImageId>) returns (detached: seq<ImageId>)
      requires Valid()
      modifies this
      ensures Valid() && old(log) <= log
      ensures rows == Apply(old(rows), Detached(imageIds))
      ensures forall p :: p in rows <==> p in old(rows) && old(rows)[p].image !in imageIds
      ensures forall p | p in rows :: rows[p] == old(rows)[p]
      ensures forall i, j | 0 <= i < j < |detached| :: ListedFirst(old(rows), detached[i], detached[j])
      ensures exists listing ::
                && IsListing(old(rows), listing)
                && detached == Selected(old(rows), listing, imageIds, |listing|)
      ensures forall x :: x in detached <==> x in imageIds && x in Images(old(rows))
    {
      var listing := LockedRelations();
      detached := [];
      for i := 0 to |listing|
        invariant detached == Selected(rows, listing, imageIds, i)
      {
        if rows[listing[i]].image in imageIds {
          detached := detached + [rows[listing[i]].image];
        }
      }
      SelectedExactly(rows, listing, imageIds);
      SelectedInOrder(rows, listing, imageIds, |listing|);
      DetachSame(rows, detached, imageIds);
      if detached != [] {
        DeleteImages(detached);
      } else {
        assert Apply(rows, Detached([])) == rows;
      }
    }

    method Reorder(organization: int, imageIds: seq<ImageId>, owners: Owners) returns (r: Option<OperationError>)
      requires Valid() && forall p | p in rows :: rows[p].image in owners
      modifies this
      ensures Valid() && old(log) <= log
      ensures r == ReorderError(old(rows), organization, imageIds, owners)
      ensures r.Some? || old(rows) == map[] ==> rows == old(rows)
      ensures r.None? && old(rows) != map[] ==>
              Allowed(old(rows), Reordered(imageIds)) && rows == Apply(old(rows), Reordered(imageIds))
      ensures r.None? && old(rows) != map[] ==> PlacedAsRequested(old(rows), rows, imageIds)
      ensures rows == old(rows) ==> log == old(log)
    {
      var listing := LockedRelations();
      if listing == [] {
        return None;
      }
      assert listing[0] in rows;
      CountNoDup(imageIds);
      if |Elements(imageIds)| != |imageIds| {
        return Some(DuplicateIds);
      }
      var byImage := IndexByImage(listing);
      if exists x | x in imageIds :: x !in byImage.Keys {
        return Some(NotAttached);
      }
      ListingSize(rows, listing);
      if |imageIds| != |listing| {
        return Some(Incomplete);
      }
      OwnersSet(rows, organization, owners);
      if (set p | p in rows :: owners[rows[p].image]) != {organization} {
        return Some(NotOwned);
      }
      ReorderPlaces(rows, imageIds);
      ApplyReorder(imageIds, byImage, listing);
      r := None;
    }

    /** The bulk update of a reorder: no statement when nothing moves. */
    method WriteMoved(orders: map<nat, int>)
      requires Valid() && Facts(WithOrders(rows, orders))
      modifies this
      ensures Valid() && rows == WithOrders(old(rows), orders) && HasCover(rows) == HasCover(old(rows))
      ensures forall p | p in old(rows) :: p in rows && rows[p].cover == old(rows)[p].cover
      ensures log == if orders == map[] then old(log) else old(log) + [rows]
    {
      OrdersKeepCovers(rows, orders);
      if orders != map[] {
        WriteOrders(orders);
      } else {
        NoOrderUpdate(rows);
      }
    }

    /** The cover statements of a reorder: none when the desired relation is the cover already. */
    method MoveCover(current: Option<nat>, desired: nat)
      requires Valid() && desired in rows
      requires current.None? ==> !HasCover(rows)
      requires current.Some? ==> current.value in rows && rows[current.value].cover
      modifies this
      ensures Valid() && old(log) <= log && rows == OnlyCover(old(rows), desired)
      ensures rows == old(rows) ==> log == old(log)
    {
      if current != Some(desired) {
        ClearCovers(None);
        MarkCover(desired);
        assert !old(rows)[desired].cover && rows[desired].cover;
      }
    }

    /** The writes of a reorder whose checks have passed. */
    method ApplyReorder(imageIds: seq<ImageId>, byImage: map<ImageId, nat>, listing: seq<nat>)
      requires Valid() && ListChecks(rows, imageIds) && rows != map[]
      requires IsIndex(rows, byImage) && IsListing(rows, listing)
      modifies this
      ensures Valid() && old(log) <= log
      ensures rows == Apply(old(rows), Reordered(imageIds))
      ensures rows == old(rows) ==> log == old(log)
    {
      RequestedAreIndexed(rows, byImage, imageIds);
      var orders := CollectOrders(imageIds, byImage);
      var current := FindCover(listing);
      ReorderPlan(rows, byImage, imageIds, orders);
      WriteMoved(orders);
      MoveCover(current, byImage[imageIds[0]]);
    }

    /** `order_updates`: the rows whose order is not their requested place. */
    method CollectOrders(imageIds: seq<ImageId>, byImage: map<ImageId, nat>) returns (orders: map<nat, int>)
      requires forall x | x in imageIds :: x in byImage && byImage[x] in rows
      ensures orders == OrderUpdates(rows, byImage, imageIds, |imageIds|)
    {
      orders := map[];
      for order := 0 to |imageIds|
        invariant orders == OrderUpdates(rows, byImage, imageIds, order)
      {
        var relation := byImage[imageIds[order]];
        if rows[relation].order != Some(order) {
          orders := orders[relation := order];
        }
      }
    }

    /** Clears the other covers, then marks the relation unless it is the cover already. */
    method CoverOnly(pk: nat)
      requires Valid() && pk in rows
      modifies this
      ensures Valid() && old(log) <= log && rows == OnlyCover(old(rows), pk)
    {
      var wasCover := rows[pk].cover;
      ClearCovers(Some(pk));
      if !wasCover {
        MarkCover(pk);
      }
    }

    method SetCover(organization: int, image: ImageId, owners: Owners) returns (r: Option<OperationError>)
      requires Valid() && forall p | p in rows :: rows[p].image in owners
      modifies this
      ensures Valid() && old(log) <= log
      ensures r.None? <==> image in Images(old(rows)) && owners[image] == organization
      ensures r.Some? ==> r.value == ImageNotFound && rows == old(rows) && log == old(log)
      ensures r.None? ==> Allowed(old(rows), Covered(image)) && rows == Apply(old(rows), Covered(image))
      ensures rows.Keys == old(rows).Keys
      ensures r.None? ==>
                forall p | p in rows ::
                  rows[p] == Row(old(rows)[p].image, old(rows)[p].order, old(rows)[p].image == image)
    {
      var listing := LockedRelations();
      var relation := Find(listing, image);
      if relation.None? || owners[rows[relation.value].image] != organization {
        return Some(ImageNotFound);
      }
      OnlyCoverIsCovered(rows, relation.value);
      CoverOnly(relation.value);
      r := None;
    }

    method UnsetCover()
      requires Valid()
      modifies this
      ensures Valid() && log == old(log) + [rows]
      ensures rows == Apply(old(rows), Uncovered)
      ensures rows.Keys == old(rows).Keys
      ensures forall p | p in rows :: rows[p] == Row(old(rows)[p].image, old(rows)[p].order, false)
    {
      ClearCovers(None);
    }
  }

  // ---------- What the operations come to, column by column ----------

  /** The old rows are as they were; the k-th id has the k-th new key and order, and only a first cover is set. */
  ghost predicate Appended(before: Rows, after: Rows, first: nat, order: int, ids: seq<ImageId>) {
    && (forall p :: p in after <==> (p in before || first <= p < first + |ids|))
    && (forall p | p in before :: after[p] == before[p])
    && (forall p | first <= p < first + |ids| :: p in after && after[p].image == ids[p - first]
          && after[p].order == Some(order + p - first)
          && (after[p].cover <==> p == first && forall q | q in before :: !before[q].cover))
  }

  lemma AttachAppends(was: Rows, first: nat, order: int, ids: seq<ImageId>)
    requires forall p | p in was :: p < first
    ensures Appended(was, Apply(was, Attached(first, order, ids)), first, order, ids)
  {
    forall p: nat
      ensures var now := Apply(was, Attached(first, order, ids));
              && (p in now <==> p in was || first <= p < first + |ids|)
              && (p in was ==> now[p] == was[p])
              && (first <= p < first + |ids| ==>
                    now[p] == Row(ids[p - first], Some(order + p - first), p == first && !HasCover(was)))
    {
      AttachedRow(was, first, order, ids, p);
    }
  }

  lemma OwnersLiteral(ids: seq<ImageId>, owners: Owners, organization: int)
    ensures (exists x | x in ids :: !Owned(owners, organization, x))
            <==> exists x | x in ids :: !(x in owners && owners[x] == organization)
  {
    if x :| x in ids && !Owned(owners, organization, x) {
      assert !(x in owners && owners[x] == organization);
    }
    if x :| x in ids && !(x in owners && owners[x] == organization) {
      assert !Owned(owners, organization, x);
    }
  }

  /** Every row keeps its image and has the order of its place in the request; the first is the cover. */
  ghost predicate PlacedAsRequested(before: Rows, after: Rows, ids: seq<ImageId>) {
    && after.Keys == before.Keys && |ids| > 0
    && forall p | p in after ::
         && after[p].image == before[p].image
         && after[p].order.Some? && 0 <= after[p].order.value < |ids| && ids[after[p].order.value] == after[p].image
         && (after[p].cover <==> after[p].image == ids[0])
  }

  lemma ReorderPlaces(rows: Rows, ids: seq<ImageId>)
    requires UniqueImages(rows) && ListChecks(rows, ids) && rows != map[]
    ensures PlacedAsRequested(rows, Apply(rows, Reordered(ids)), ids)
  {
    forall p | p in rows ensures rows[p].image in ids {
      ReorderedRow(rows, ids, p);
    }
    var p :| p in rows;
    assert rows[p].image in ids;
  }

  /** x comes before y when the target is listed by (order, pk). */
  ghost predicate ListedFirst(rows: Rows, x: ImageId, y: ImageId) {
    exists p, q | p in rows && q in rows :: rows[p].image == x && rows[q].image == y && Precedes(rows, p, q)
  }

  lemma {:induction false} SelectedInOrder(rows: Rows, listing: seq<nat>, ids: seq<ImageId>, n: nat)
    requires SomeListed(rows, listing) && n <= |listing|
    ensures var found := Selected(rows, listing, ids, n);
            forall i, j | 0 <= i < j < |found| :: ListedFirst(rows, found[i], found[j])
  {
    if n == 0 {
    } else {
      SelectedInOrder(rows, listing, ids, n - 1);
      var before := Selected(rows, listing, ids, n - 1);
      var last := rows[listing[n - 1]].image;
      forall i | 0 <= i < |before| ensures ListedFirst(rows, before[i], last) {
        SelectedUpTo(rows, listing, ids, n - 1, before[i]);
        var k :| 0 <= k < n - 1 && rows[listing[k]].image == before[i];
        assert Precedes(rows, listing[k], listing[n - 1]);
      }
    }
  }

  // ---------- Detach ----------

  /** The requested images among the first n of a listing. */
  function Selected(rows: Rows, listing: seq<nat>, ids: seq<ImageId>, n: nat): seq<ImageId>
    requires n <= |listing| && forall i | 0 <= i < |listing| :: listing[i] in rows
  {
    if n == 0 then []
    else
      var image := rows[listing[n - 1]].image;
      Selected(rows, listing, ids, n - 1) + if image in ids then [image] else []
  }

  lemma {:induction false} SelectedUpTo(rows: Rows, listing: seq<nat>, ids: seq<ImageId>, n: nat, x: ImageId)
    requires n <= |listing| && forall i | 0 <= i < |listing| :: listing[i] in rows
    ensures x in Selected(rows, listing, ids, n) <==> x in ids && exists i | 0 <= i < n :: rows[listing[i]].image == x
  {
    if n == 0 {
    } else {
      SelectedUpTo(rows, listing, ids, n - 1, x);
    }
  }

  lemma SelectedExactly(rows: Rows, listing: seq<nat>, ids: seq<ImageId>)
    requires IsListing(rows, listing)
    ensures forall x :: x in Selected(rows, listing, ids, |listing|) <==> x in ids && x in Images(rows)
  {
    forall x ensures x in Selected(rows, listing, ids, |listing|) <==> x in ids && x in Images(rows) {
      SelectedUpTo(rows, listing, ids, |listing|, x);
      if x in Images(rows) {
        var p :| p in rows && rows[p].image == x;
        var i :| 0 <= i < |listing| && listing[i] == p;
        assert rows[listing[i]].image == x;
      }
    }
  }

  lemma DetachSame(rows: Rows, a: seq<ImageId>, b: seq<ImageId>)
    requires forall x | x in Images(rows) :: x in a <==> x in b
    ensures Apply(rows, Detached(a)) == Apply(rows, Detached(b))
  {
    assert forall p | p in rows :: rows[p].image in Images(rows);
  }

  // ---------- Reorder ----------

  /** The checks of a reorder, in the order in which they are made. */
  ghost function ReorderError(rows: Rows, organization: int, ids: seq<ImageId>,
                              owners: Owners): Option<OperationError> {
    if rows == map[] then None
    else if !NoDup(ids) then Some(DuplicateIds)
    else if exists x | x in ids :: x !in Images(rows) then Some(NotAttached)
    else if |ids| != |rows| then Some(Incomplete)
    else if exists p | p in rows :: !Owned(owners, organization, rows[p].image) then Some(NotOwned)
    else None
  }

  lemma {:induction false} CountNoDup<T>(s: seq<T>)
    ensures |Elements(s)| <= |s|
    ensures |Elements(s)| == |s| <==> NoDup(s)
  {
    if s == [] {
      assert Elements(s) == {};
    } else {
      var n := |s| - 1;
      var t := s[..n];
      CountNoDup(t);
      assert s == t + [s[n]];
      if s[n] in t {
        assert Elements(s) == Elements(t);
      } else {
        assert Elements(s) == Elements(t) + {s[n]};
      }
    }
  }

  lemma OwnersSet(rows: Rows, organization: int, owners: Owners)
    requires rows != map[] && forall p | p in rows :: rows[p].image in owners
    ensures (set p | p in rows :: owners[rows[p].image]) == {organization}
            <==> forall p | p in rows :: Owned(owners, organization, rows[p].image)
  {
    var found := set p | p in rows :: owners[rows[p].image];
    var q :| q in rows;
    assert owners[rows[q].image] in found;
    if found == {organization} {
      forall p | p in rows ensures Owned(owners, organization, rows[p].image) {
        assert owners[rows[p].image] in found;
      }
    }
  }

  lemma RequestedAreIndexed(rows: Rows, byImage: map<ImageId, nat>, ids: seq<ImageId>)
    requires IsIndex(rows, byImage) && forall x | x in ids :: x in Images(rows)
    ensures forall x | x in ids :: x in byImage && byImage[x] in rows
  {
    forall x | x in ids ensures x in byImage && byImage[x] in rows {
      IndexIsExact(rows, byImage, x);
    }
  }

  /** The written orders and the one cover make up the reordered rows. */
  lemma ReorderReached(was: Rows, byImage: map<ImageId, nat>, ids: seq<ImageId>)
    requires Facts(was) && IsIndex(was, byImage) && ListChecks(was, ids) && was != map[]
    requires forall x | x in ids :: x in byImage && byImage[x] in was
    ensures OnlyCover(WithOrders(was, OrderUpdates(was, byImage, ids, |ids|)), byImage[ids[0]])
            == Apply(was, Reordered(ids))
  {
    var written := WithOrders(was, OrderUpdates(was, byImage, ids, |ids|));
    var desired := byImage[ids[0]];
    var now := Apply(was, Reordered(ids));
    assert now.Keys == written.Keys;
    forall p | p in written ensures now[p] == written[p].(cover := p == desired) {
      ReorderReachedAt(was, byImage, ids, written, p);
    }
    OnlyCoverIs(written, desired, now);
  }

  lemma OnlyCoverIs(rows: Rows, pk: nat, now: Rows)
    requires now.Keys == rows.Keys && forall p | p in rows :: now[p] == rows[p].(cover := p == pk)
    ensures now == OnlyCover(rows, pk)
  {}

  lemma ReorderReachedAt(was: Rows, byImage: map<ImageId, nat>, ids: seq<ImageId>, written: Rows, p: nat)
    requires UniqueImages(was) && IsIndex(was, byImage) && ListChecks(was, ids) && p in was
    requires forall x | x in ids :: x in byImage && byImage[x] in was
    requires written == WithOrders(was, OrderUpdates(was, byImage, ids, |ids|))
    ensures |ids| > 0 && written[p].(cover := p == byImage[ids[0]]) == Apply(was, Reordered(ids))[p]
  {
    ReorderedRow(was, ids, p);
    assert IndexedAt(was, byImage, ids[0]);
    UpdatedOrders(was, byImage, ids, p);
  }

  /** Where the two writes of a reorder lead, and that an unchanged target needs no order update. */
  lemma ReorderPlan(was: Rows, byImage: map<ImageId, nat>, ids: seq<ImageId>, orders: map<nat, int>)
    requires Facts(was) && IsIndex(was, byImage) && ListChecks(was, ids) && was != map[]
    requires forall x | x in ids :: x in byImage && byImage[x] in was
    requires orders == OrderUpdates(was, byImage, ids, |ids|)
    ensures |ids| > 0 && Facts(WithOrders(was, orders)) && byImage[ids[0]] in was
    ensures OnlyCover(WithOrders(was, orders), byImage[ids[0]]) == Apply(was, Reordered(ids))
    ensures Apply(was, Reordered(ids)) == was ==> orders == map[] && WithOrders(was, orders) == was
  {
    ReorderReached(was, byImage, ids);
    BulkUpdateKeepsFacts(was, byImage, ids);
    NoOrderUpdate(was);
    if orders != map[] {
      OrdersMoved(was, byImage, ids);
    }
  }

  lemma NoOrderUpdate(rows: Rows)
    ensures WithOrders(rows, map[]) == rows
  {}

  /** A reorder that writes an order changes the rows. */
  lemma OrdersMoved(was: Rows, byImage: map<ImageId, nat>, ids: seq<ImageId>)
    requires UniqueImages(was) && IsIndex(was, byImage) && ListChecks(was, ids)
    requires forall x | x in ids :: x in byImage && byImage[x] in was
    requires OrderUpdates(was, byImage, ids, |ids|) != map[]
    ensures Apply(was, Reordered(ids)) != was
  {
    OrderUpdatesExactly(was, byImage, ids, |ids|);
    var p :| p in OrderUpdates(was, byImage, ids, |ids|);
    ReorderedRow(was, ids, p);
    assert Apply(was, Reordered(ids))[p].order != was[p].order;
  }

  /** The first n answers are the rows of the first n requested images. */
  predicate AnswersInOrder(rows: Rows, ids: seq<ImageId>, answers: seq<nat>, n: nat)
    requires n <= |ids|
  {
    && |answers| == n
    && forall j | 0 <= j < n :: answers[j] in rows && rows[answers[j]].image == ids[j]
  }

  /** Every old row is still there, unchanged. */
  ghost predicate Extends(was: Rows, now: Rows) {
    forall p | p in was :: p in now && now[p] == was[p]
  }

  lemma AnswersExtend(was: Rows, now: Rows, ids: seq<ImageId>, answers: seq<nat>, n: nat, relation: nat)
    requires n < |ids| && AnswersInOrder(was, ids, answers, n) && Extends(was, now)
    requires relation in now && now[relation].image == ids[n]
    ensures AnswersInOrder(now, ids, answers + [relation], n + 1)
  {}

  lemma IndexIsExact(rows: Rows, byImage: map<ImageId, nat>, image: ImageId)
    requires IsIndex(rows, byImage)
    ensures image in byImage <==> image in Images(rows)
    ensures image in byImage ==> byImage[image] in rows && rows[byImage[image]].image == image
  {
    assert image in byImage <==> image in byImage.Keys;
    assert image in byImage ==> IndexedAt(rows, byImage, image);
  }

  lemma IndexInsert(rows: Rows, byImage: map<ImageId, nat>, pk: nat, row: Row)
    requires IsIndex(rows, byImage) && row.image !in byImage && pk !in rows
    requires row.cover || HasCover(rows)
    ensures IsIndex(rows[pk := row], byImage[row.image := pk]) && Extends(rows, rows[pk := row])
    ensures HasCover(rows[pk := row])
  {
    var next := rows[pk := row];
    var index := byImage[row.image := pk];
    forall x | x in Images(rows) ensures x in Images(next) {
      var p :| p in rows && rows[p].image == x;
      assert next[p].image == x;
    }
    assert next[pk].image in Images(next);
    assert index.Keys == Images(next);
    forall x | x in index.Keys ensures IndexedAt(next, index, x) {
      if x != row.image {
        assert IndexedAt(rows, byImage, x);
      }
    }
    if row.cover {
      assert next[pk].cover;
    } else {
      var p :| p in rows && rows[p].cover;
      assert next[p].cover;
    }
  }

  lemma InsertListed(rows: Rows, listing: seq<nat>, p: nat, k: nat)
    requires SomeListed(rows, listing) && p in rows && k <= |listing| && p !in listing
    requires forall i | 0 <= i < k :: Precedes(rows, listing[i], p)
    requires k < |listing| ==> !Precedes(rows, listing[k], p)
    ensures SomeListed(rows, listing[..k] + [p] + listing[k..])
  {
    forall i | k <= i < |listing| ensures Precedes(rows, p, listing[i]) {
      assert Precedes(rows, p, listing[k]);
      if i > k {
        assert Precedes(rows, listing[k], listing[i]);
      }
    }
  }

  lemma AttachingCover(was: Rows, first: nat, order: int, added: seq<ImageId>)
    requires Facts(was) && Allowed(was, Attached(first, order, added))
    ensures HasCover(AttachedRows(was, first, order, added)) <==> added != [] || HasCover(was)
  {
    if added != [] {
      AttachLeavesACover(was, Attached(first, order, added));
    }
  }

  lemma AttachingOrders(was: Rows, first: nat, order: int, added: seq<ImageId>)
    requires Allowed(was, Attached(first, order, added))
    ensures OrdersBelow(AttachedRows(was, first, order, added), order + |added|)
  {
    var now := AttachedRows(was, first, order, added);
    forall p | p in now && now[p].order.Some? ensures now[p].order.value < order + |added| {
      AttachedRow(was, first, order, added, p);
    }
  }

  lemma AttachingOneMore(was: Rows, first: nat, order: int, added: seq<ImageId>, image: ImageId)
    requires Facts(was) && Allowed(was, Attached(first, order, added))
    ensures var now := AttachedRows(was, first, order, added);
            AttachedRows(was, first, order, added + [image])
            == now[first + |added| := Row(image, Some(order + |added|), !HasCover(now))]
  {
    AttachingCover(was, first, order, added);
    assert (added + [image])[..|added|] == added;
  }

  /** Inserting the next image, when it is new, continues an attach. */
  lemma AttachingStep(was: Rows, first: nat, order: int, added: seq<ImageId>, image: ImageId,
                      now: Rows, nextOrder: int, hasCover: bool)
    requires AttachStart(was, first, order) && Allowed(was, Attached(first, order, added))
    requires now == AttachedRows(was, first, order, added)
    requires nextOrder == order + |added| && hasCover == HasCover(now)
    ensures OrdersBelow(now, nextOrder)
    ensures image in Images(now) <==> image in Images(was) || image in added
    ensures AttachedRows(was, first, order, added + [image])
            == now[first + |added| := Row(image, Some(nextOrder), !hasCover)]
  {
    AttachImages(was, Attached(first, order, added), image);
    AttachingOrders(was, first, order, added);
    AttachingOneMore(was, first, order, added, image);
  }

  /** The attach loop inserts only ids that are new. */
  lemma AttachingIsAllowed(was: Rows, first: nat, order: int, ids: seq<ImageId>, i: nat)
    requires AttachStart(was, first, order) && i <= |ids|
    ensures Allowed(was, Attached(first, order, NewIds(ids, Images(was), i)))
  {
    NewIdsExactly(ids, Images(was), i);
  }

  /** The rows after i rounds of an attach that started from `was`. */
  function RowsReached(was: Rows, first: nat, order: int, ids: seq<ImageId>, i: nat): Rows
    requires i <= |ids|
  {
    AttachedRows(was, first, order, NewIds(ids, Images(was), i))
  }

  lemma NextNewId(ids: seq<ImageId>, attached: set<ImageId>, i: nat)
    requires i < |ids|
    ensures var before := NewIds(ids, attached, i);
            NewIds(ids, attached, i + 1) == if ids[i] in attached || ids[i] in before then before else before + [ids[i]]
  {}

  lemma AttachingNext(was: Rows, first: nat, order: int, ids: seq<ImageId>, i: nat,
                      now: Rows, nextPk: nat, nextOrder: int, hasCover: bool)
    requires AttachStart(was, first, order) && i < |ids| && Reached(was, first, order, ids, i, now, nextPk)
    requires nextOrder == order + |NewIds(ids, Images(was), i)| && hasCover == HasCover(now)
    ensures OrdersBelow(now, nextOrder)
    ensures ids[i] in Images(now) ==>
            && NewIds(ids, Images(was), i + 1) == NewIds(ids, Images(was), i)
            && Reached(was, first, order, ids, i + 1, now, nextPk)
    ensures ids[i] !in Images(now) ==>
            && NewIds(ids, Images(was), i + 1) == NewIds(ids, Images(was), i) + [ids[i]]
            && Reached(was, first, order, ids, i + 1, now[nextPk := Row(ids[i], Some(nextOrder), !hasCover)],
                       nextPk + 1)
  {
    var added := NewIds(ids, Images(was), i);
    AttachingIsAllowed(was, first, order, ids, i);
    AttachingStep(was, first, order, added, ids[i], now, nextOrder, hasCover);
    NextNewId(ids, Images(was), i);
  }
}
