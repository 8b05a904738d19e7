/**
 * The images attached to one target object: rows of `PolymorphicImageRelation`
 * that share a content type and an object id, keyed by primary key.
 */
module ImageRelations {
  import opened Common

  /** The primary key of an image. */
  datatype ImageId = ImageId(pk: int)

  datatype Row = Row(image: ImageId, order: Option<int>, cover: bool)

  type Rows = map<nat, Row>

  // ---------- The three facts ----------

  ghost predicate UniqueImages(rows: Rows) {
    forall p, q | p in rows && q in rows && rows[p].image == rows[q].image :: p == q
  }

  ghost predicate OneCover(rows: Rows) {
    forall p, q | p in rows && q in rows && rows[p].cover && rows[q].cover :: p == q
  }

  ghost predicate DistinctOrders(rows: Rows) {
    forall p, q | p in rows && q in rows && rows[p].order.Some? && rows[p].order == rows[q].order :: p == q
  }

  ghost predicate Facts(rows: Rows) {
    UniqueImages(rows) && OneCover(rows) && DistinctOrders(rows)
  }

  /** No row has a NULL order. */
  predicate AllOrdered(rows: Rows) {
    forall p | p in rows :: rows[p].order.Some?
  }

  predicate HasCover(rows: Rows) {
    exists p | p in rows :: rows[p].cover
  }

  function Images(rows: Rows): set<ImageId> {
    set p | p in rows :: rows[p].image
  }

  /** `max(existing_orders, default=-1) + 1` */
  ghost predicate IsNextOrder(rows: Rows, next: int) {
    && (forall p | p in rows && rows[p].order.Some? :: rows[p].order.value < next)
    && ((exists p | p in rows :: rows[p].order == Some(next - 1))
        || (next == 0 && forall p | p in rows :: rows[p].order.None?))
  }

  // ---------- Sequences without repetition ----------

  predicate NoDup<T(==)>(s: seq<T>) {
    forall i, j | 0 <= i < |s| && 0 <= j < |s| && s[i] == s[j] :: i == j
  }

  function IndexOf(s: seq<ImageId>, x: ImageId): (k: nat)
    requires x in s
    ensures k < |s| && s[k] == x
  {
    if s[|s| - 1] == x then |s| - 1 else IndexOf(s[..|s| - 1], x)
  }

  function Elements<T(==)>(s: seq<T>): set<T> {
    set x | x in s
  }

  lemma {:induction false} NoDupCount<T>(s: seq<T>)
    requires NoDup(s)
    ensures |Elements(s)| == |s|
  {
    if s == [] {
      assert Elements(s) == {};
    } else {
      var n := |s| - 1;
      var t := s[..n];
      NoDupCount(t);
      assert s == t + [s[n]];
      assert Elements(s) == Elements(t) + {s[n]};
      assert s[n] !in t;
    }
  }

  lemma NoDupMultiset<T>(s: seq<T>, x: T)
    requires NoDup(s)
    ensures multiset(s)[x] == if x in s then 1 else 0
  {
    if x in s {
      var k :| 0 <= k < |s| && s[k] == x;
      assert s == s[..k] + [x] + s[k + 1..];
      assert x !in s[..k] && x !in s[k + 1..];
    }
  }

  lemma EqualSizeSubset<T>(a: set<T>, b: set<T>)
    requires a <= b && |a| == |b|
    ensures a == b
  {
    assert b == a + (b - a);
    assert |b - a| == 0;
  }

  /** Requested ids that are not attached yet, in request order, each once: the first n requests. */
  function NewIds(ids: seq<ImageId>, attached: set<ImageId>, n: nat): seq<ImageId>
    requires n <= |ids|
  {
    if n == 0 then []
    else
      var before := NewIds(ids, attached, n - 1);
      if ids[n - 1] in attached || ids[n - 1] in before then before else before + [ids[n - 1]]
  }

  lemma {:induction false} NewIdsExactly(ids: seq<ImageId>, attached: set<ImageId>, n: nat)
    requires n <= |ids|
    ensures NoDup(NewIds(ids, attached, n))
    ensures forall x :: x in NewIds(ids, attached, n) <==> x in ids[..n] && x !in attached
  {
    if n == 0 {
    } else {
      NewIdsExactly(ids, attached, n - 1);
      assert ids[..n] == ids[..n - 1] + [ids[n - 1]];
    }
  }

  /** The first place at which x is requested. */
  predicate FirstAt(ids: seq<ImageId>, x: ImageId, k: nat) {
    k < |ids| && ids[k] == x && x !in ids[..k]
  }

  /** The new ids come in the order in which they were first requested. */
  lemma {:induction false} NewIdsInOrder(ids: seq<ImageId>, attached: set<ImageId>, n: nat, i: nat, j: nat, a: nat,
                                         b: nat)
    requires n <= |ids| && i < j < |NewIds(ids, attached, n)|
    requires FirstAt(ids, NewIds(ids, attached, n)[i], a) && FirstAt(ids, NewIds(ids, attached, n)[j], b)
    ensures a < b
  {
    var before := NewIds(ids, attached, n - 1);
    if j < |before| {
      NewIdsInOrder(ids, attached, n - 1, i, j, a, b);
    } else {
      NewIdsExactly(ids, attached, n - 1);
      assert before[i] in ids[..n - 1];
    }
  }

  // ---------- The operations as functions on the rows ----------

  datatype Event =
    | Attached(first: nat, order: int, ids: seq<ImageId>)
    | Detached(ids: seq<ImageId>)
    | Reordered(ids: seq<ImageId>)
    | Covered(image: ImageId)
    | Uncovered
    | Refused

  /** The rows after inserting the ids one after the other, with consecutive keys and orders. */
  function AttachedRows(rows: Rows, first: nat, order: int, ids: seq<ImageId>): Rows {
    if ids == [] then rows
    else
      var n := |ids| - 1;
      AttachedRows(rows, first, order, ids[..n])[first + n := Row(ids[n], Some(order + n), n == 0 && !HasCover(rows))]
  }

  predicate ListChecks(rows: Rows, ids: seq<ImageId>) {
    NoDup(ids) && (forall x | x in ids :: x in Images(rows)) && |ids| == |rows|
  }

  ghost predicate Allowed(rows: Rows, e: Event) {
    match e
    case Attached(first, order, ids) =>
      && (forall p | p in rows :: p < first)
      && IsNextOrder(rows, order)
      && NoDup(ids)
      && forall x | x in ids :: x !in Images(rows)
    case Reordered(ids) => rows != map[] && ListChecks(rows, ids)
    case Covered(image) => image in Images(rows)
    case _ => true
  }

  function RowAfter(rows: Rows, p: nat, e: Event): Row
    requires p in rows
  {
    var row := rows[p];
    match e
    case Reordered(ids) =>
      if row.image in ids then Row(row.image, Some(IndexOf(ids, row.image)), row.image == ids[0]) else row
    case Covered(image) => row.(cover := row.image == image)
    case Uncovered => row.(cover := false)
    case _ => row
  }

  function Apply(rows: Rows, e: Event): Rows {
    match e
    case Attached(first, order, ids) => AttachedRows(rows, first, order, ids)
    case Detached(ids) => map p | p in rows && rows[p].image !in ids :: rows[p]
    case _ => map p | p in rows :: RowAfter(rows, p, e)
  }

  // ---------- Every operation keeps the facts ----------

  /** The k-th id gets the k-th new key and order; the first one is the cover of a target without one. */
  lemma {:induction false} AttachedRow(rows: Rows, first: nat, order: int, ids: seq<ImageId>, p: nat)
    requires forall q | q in rows :: q < first
    ensures var now := AttachedRows(rows, first, order, ids);
            && (p in now <==> p in rows || first <= p < first + |ids|)
            && (p in rows ==> now[p] == rows[p])
            && (first <= p < first + |ids| ==>
                  now[p] == Row(ids[p - first], Some(order + p - first), p == first && !HasCover(rows)))
  {
    if ids == [] {
    } else {
      var n := |ids| - 1;
      AttachedRow(rows, first, order, ids[..n], p);
    }
  }

  lemma AttachKeepsFacts(rows: Rows, e: Event)
    requires e.Attached? && Facts(rows) && Allowed(rows, e)
    ensures Facts(Apply(rows, e))
    ensures AllOrdered(rows) ==> AllOrdered(Apply(rows, e))
  {
    var now := Apply(rows, e);
    forall p | p in now && p in rows ensures now[p] == rows[p] && now[p].image in Images(rows) {
      AttachedRow(rows, e.first, e.order, e.ids, p);
    }
    forall p | p in now && p !in rows
      ensures 0 <= p - e.first < |e.ids| && now[p].image == e.ids[p - e.first]
      ensures now[p].order == Some(e.order + p - e.first) && (now[p].cover ==> p == e.first && !HasCover(rows))
    {
      AttachedRow(rows, e.first, e.order, e.ids, p);
    }
  }

  /** An attach that adds an image ends with exactly one cover. */
  lemma AttachLeavesACover(rows: Rows, e: Event)
    requires e.Attached? && e.ids != [] && Facts(rows) && Allowed(rows, e)
    ensures HasCover(Apply(rows, e)) && OneCover(Apply(rows, e))
  {
    AttachKeepsFacts(rows, e);
    if HasCover(rows) {
      var p :| p in rows && rows[p].cover;
      AttachedRow(rows, e.first, e.order, e.ids, p);
      assert Apply(rows, e)[p].cover;
    } else {
      AttachedRow(rows, e.first, e.order, e.ids, e.first);
      assert Apply(rows, e)[e.first].cover;
    }
  }

  /** The attached images are the old ones and the new ids. */
  lemma AttachImages(rows: Rows, e: Event, x: ImageId)
    requires e.Attached? && Allowed(rows, e)
    ensures x in Images(Apply(rows, e)) <==> x in Images(rows) || x in e.ids
  {
    var now := Apply(rows, e);
    if x in Images(now) {
      var p :| p in now && now[p].image == x;
      AttachedRow(rows, e.first, e.order, e.ids, p);
    }
    if x in Images(rows) {
      var p :| p in rows && rows[p].image == x;
      AttachedRow(rows, e.first, e.order, e.ids, p);
      assert now[p].image == x;
    }
    if x in e.ids {
      var k :| 0 <= k < |e.ids| && e.ids[k] == x;
      AttachedRow(rows, e.first, e.order, e.ids, e.first + k);
      assert now[e.first + k].image == x;
    }
  }

  /** Every attached image is in a list that passes the checks. */
  lemma ChecksCoverAll(rows: Rows, ids: seq<ImageId>)
    requires UniqueImages(rows) && ListChecks(rows, ids)
    ensures forall x :: x in ids <==> x in Images(rows)
  {
    var asked := Elements(ids);
    NoDupCount(ids);
    ImageCount(rows);
    forall x | x in asked ensures x in Images(rows) {
      assert x in ids;
    }
    EqualSizeSubset(asked, Images(rows));
  }

  lemma {:induction false} ImageCount(rows: Rows)
    requires UniqueImages(rows)
    ensures |Images(rows)| == |rows|
    decreases |rows|
  {
    if p :| p in rows {
      var rest := rows - {p};
      assert |rest| == |rows| - 1 by {
        assert rest.Keys == rows.Keys - {p};
      }
      ImageCount(rest);
      forall x | x in Images(rows) ensures x in Images(rest) || x == rows[p].image {
        var q :| q in rows && rows[q].image == x;
        assert q == p || (q in rest && rest[q].image == x);
      }
      assert Images(rows) == Images(rest) + {rows[p].image};
      assert rows[p].image !in Images(rest);
    } else {
      assert rows == map[];
      assert Images(rows) == {};
    }
  }

  /** After a reorder each row's order is the place of its image, and only the first image is the cover. */
  lemma ReorderedRow(rows: Rows, ids: seq<ImageId>, p: nat)
    requires UniqueImages(rows) && ListChecks(rows, ids) && p in rows
    ensures rows[p].image in ids
    ensures var row := Apply(rows, Reordered(ids))[p];
            && row.image == rows[p].image
            && row.order == Some(IndexOf(ids, row.image))
            && (row.cover <==> IndexOf(ids, row.image) == 0)
  {
    ChecksCoverAll(rows, ids);
    assert rows[p].image in Images(rows);
    var k := IndexOf(ids, rows[p].image);
    assert ids[k] == rows[p].image;
  }

  lemma ReorderKeepsFacts(rows: Rows, ids: seq<ImageId>)
    requires Facts(rows) && Allowed(rows, Reordered(ids))
    ensures Facts(Apply(rows, Reordered(ids))) && AllOrdered(Apply(rows, Reordered(ids)))
  {
    var now := Apply(rows, Reordered(ids));
    forall p | p in rows
      ensures rows[p].image in ids && now[p].image == rows[p].image
      ensures now[p].order == Some(IndexOf(ids, rows[p].image)) && (now[p].cover ==> rows[p].image == ids[0])
    {
      ReorderedRow(rows, ids, p);
    }
  }

  lemma EventKeepsFacts(rows: Rows, e: Event)
    requires Facts(rows) && Allowed(rows, e)
    ensures Facts(Apply(rows, e))
    ensures AllOrdered(rows) ==> AllOrdered(Apply(rows, e))
  {
    match e
    case Attached(_, _, _) => AttachKeepsFacts(rows, e);
    case Reordered(ids) => ReorderKeepsFacts(rows, ids);
    case _ =>
      var now := Apply(rows, e);
      assert forall p | p in now :: p in rows && now[p].image == rows[p].image && now[p].order == rows[p].order;
  }

  ghost predicate AllAllowed(rows: Rows, events: seq<Event>)
    decreases |events|
  {
    events != [] ==> Allowed(rows, events[0]) && AllAllowed(Apply(rows, events[0]), events[1..])
  }

  function AfterAll(rows: Rows, events: seq<Event>): Rows
    decreases |events|
  {
    if events == [] then rows else AfterAll(Apply(rows, events[0]), events[1..])
  }

  lemma {:induction false} RunKeepsFacts(rows: Rows, events: seq<Event>)
    requires Facts(rows) && AllAllowed(rows, events)
    ensures Facts(AfterAll(rows, events))
    ensures AllOrdered(rows) ==> AllOrdered(AfterAll(rows, events))
    decreases |events|
  {
    if events == [] {
    } else {
      EventKeepsFacts(rows, events[0]);
      RunKeepsFacts(Apply(rows, events[0]), events[1..]);
    }
  }

  /** From an empty target the facts hold for ever, and no order is NULL. */
  lemma FactsFromEmpty(events: seq<Event>)
    requires AllAllowed(map[], events)
    ensures Facts(AfterAll(map[], events)) && AllOrdered(AfterAll(map[], events))
  {
    RunKeepsFacts(map[], events);
  }

  // ---------- Listing by (order, pk) ----------

  /** `ORDER BY order, pk`; NULL comes last. */
  predicate Precedes(rows: Rows, p: nat, q: nat)
    requires p in rows && q in rows
  {
    match (rows[p].order, rows[q].order)
    case (Some(a), Some(b)) => a < b || (a == b && p < q)
    case (Some(_), None) => true
    case (None, Some(_)) => false
    case (None, None) => p < q
  }

  predicate SomeListed(rows: Rows, listing: seq<nat>) {
    && (forall i | 0 <= i < |listing| :: listing[i] in rows)
    && forall i, j | 0 <= i < j < |listing| :: Precedes(rows, listing[i], listing[j])
  }

  predicate IsListing(rows: Rows, listing: seq<nat>) {
    SomeListed(rows, listing) && forall p | p in rows :: p in listing
  }

  /** What the listing order means for two rows: ascending order, NULL after the rest, ties by primary key. */
  lemma ListedBefore(rows: Rows, listing: seq<nat>, i: nat, j: nat)
    requires IsListing(rows, listing) && i < j < |listing|
    ensures var p := listing[i];
            var q := listing[j];
            && p in rows && q in rows
            && (rows[q].order.Some? ==> rows[p].order.Some? && rows[p].order.value <= rows[q].order.value)
            && (rows[p].order == rows[q].order ==> p < q)
  {
    assert Precedes(rows, listing[i], listing[j]);
  }

  function ImagesOf(rows: Rows, listing: seq<nat>): (images: seq<ImageId>)
    requires forall i | 0 <= i < |listing| :: listing[i] in rows
    ensures |images| == |listing|
  {
    seq(|listing|, i requires 0 <= i < |listing| => rows[listing[i]].image)
  }

  lemma ListingNoDup(rows: Rows, listing: seq<nat>)
    requires SomeListed(rows, listing)
    ensures NoDup(listing)
  {
    forall i, j | 0 <= i < |listing| && 0 <= j < |listing| && listing[i] == listing[j] ensures i == j {
      assert i < j ==> Precedes(rows, listing[i], listing[j]);
      assert j < i ==> Precedes(rows, listing[j], listing[i]);
    }
  }

  lemma ListingSize(rows: Rows, listing: seq<nat>)
    requires IsListing(rows, listing)
    ensures |listing| == |rows|
  {
    ListingNoDup(rows, listing);
    NoDupCount(listing);
    forall p ensures p in Elements(listing) <==> p in rows.Keys {
      if p in listing {
        var i :| 0 <= i < |listing| && listing[i] == p;
      }
    }
    assert Elements(listing) == rows.Keys;
    assert |rows| == |rows.Keys|;
  }

  /** Strictly increasing positions below n, n of them, are 0, 1, ..., n - 1. */
  lemma {:induction false} IncreasingIsIdentity(v: seq<int>, i: nat)
    requires i < |v|
    requires forall a, b | 0 <= a < b < |v| :: v[a] < v[b]
    requires forall a | 0 <= a < |v| :: 0 <= v[a] < |v|
    ensures v[i] == i
  {
    AtLeastIndex(v, i);
    AtMostIndex(v, i);
  }

  lemma {:induction false} AtLeastIndex(v: seq<int>, i: nat)
    requires i < |v|
    requires forall a, b | 0 <= a < b < |v| :: v[a] < v[b]
    requires forall a | 0 <= a < |v| :: 0 <= v[a] < |v|
    ensures i <= v[i]
  {
    if i == 0 {
    } else {
      AtLeastIndex(v, i - 1);
      assert v[i - 1] < v[i];
    }
  }

  lemma {:induction false} AtMostIndex(v: seq<int>, i: nat)
    requires i < |v|
    requires forall a, b | 0 <= a < b < |v| :: v[a] < v[b]
    requires forall a | 0 <= a < |v| :: 0 <= v[a] < |v|
    ensures v[i] <= i
    decreases |v| - i
  {
    if i == |v| - 1 {
    } else {
      AtMostIndex(v, i + 1);
      assert v[i] < v[i + 1];
    }
  }

  /** The requested places of the rows of a listing. */
  function Places(rows: Rows, ids: seq<ImageId>, listing: seq<nat>): (v: seq<int>)
    requires forall i | 0 <= i < |listing| :: listing[i] in rows && rows[listing[i]].image in ids
    ensures |v| == |listing|
  {
    seq(|listing|, i requires 0 <= i < |listing| => IndexOf(ids, rows[listing[i]].image))
  }

  lemma PlacesIncrease(rows: Rows, ids: seq<ImageId>, listing: seq<nat>, a: nat, b: nat)
    requires UniqueImages(rows) && ListChecks(rows, ids) && a < b < |listing|
    requires SomeListed(Apply(rows, Reordered(ids)), listing)
    ensures rows[listing[a]].image in ids && rows[listing[b]].image in ids
    ensures IndexOf(ids, rows[listing[a]].image) < IndexOf(ids, rows[listing[b]].image)
  {
    var now := Apply(rows, Reordered(ids));
    ReorderedRow(rows, ids, listing[a]);
    ReorderedRow(rows, ids, listing[b]);
    assert Precedes(now, listing[a], listing[b]);
    var p, q := listing[a], listing[b];
    assert IndexOf(ids, rows[p].image) == IndexOf(ids, rows[q].image) ==> p == q;
  }

  lemma ReadsBackAt(rows: Rows, ids: seq<ImageId>, listing: seq<nat>, i: nat)
    requires UniqueImages(rows) && ListChecks(rows, ids) && i < |listing| == |ids|
    requires SomeListed(Apply(rows, Reordered(ids)), listing)
    ensures Apply(rows, Reordered(ids))[listing[i]].image == ids[i]
  {
    forall k | 0 <= k < |listing| ensures listing[k] in rows && rows[listing[k]].image in ids {
      ReorderedRow(rows, ids, listing[k]);
    }
    var v := Places(rows, ids, listing);
    forall a, b | 0 <= a < b < |v| ensures v[a] < v[b] {
      PlacesIncrease(rows, ids, listing, a, b);
    }
    IncreasingIsIdentity(v, i);
    ReorderedRow(rows, ids, listing[i]);
  }

  /** Reading the target back by (order, pk) after a reorder gives the requested list. */
  lemma ReorderReadsBack(rows: Rows, ids: seq<ImageId>, listing: seq<nat>)
    requires UniqueImages(rows) && ListChecks(rows, ids)
    requires IsListing(Apply(rows, Reordered(ids)), listing)
    ensures ImagesOf(Apply(rows, Reordered(ids)), listing) == ids
  {
    var now := Apply(rows, Reordered(ids));
    ListingSize(now, listing);
    assert |now| == |now.Keys| && now.Keys == rows.Keys;
    forall i | 0 <= i < |listing| ensures ImagesOf(now, listing)[i] == ids[i] {
      ReadsBackAt(rows, ids, listing, i);
    }
  }

  /** Repeating a reorder changes nothing. */
  lemma ReorderIsIdempotent(rows: Rows, ids: seq<ImageId>)
    requires UniqueImages(rows) && ListChecks(rows, ids)
    ensures var once := Apply(rows, Reordered(ids));
            ListChecks(once, ids) && Apply(once, Reordered(ids)) == once
  {
    var once := Apply(rows, Reordered(ids));
    assert once.Keys == rows.Keys;
    assert |once| == |once.Keys| == |rows|;
    forall p | p in rows ensures once[p].image == rows[p].image {
      ReorderedRow(rows, ids, p);
    }
    assert Images(once) == Images(rows) by {
      forall x | x in Images(rows) ensures x in Images(once) {
        var p :| p in rows && rows[p].image == x;
        assert once[p].image == x;
      }
    }
    forall p | p in once ensures Apply(once, Reordered(ids))[p] == once[p] {
      ReorderedRow(rows, ids, p);
    }
  }

  /** The list checks pass exactly when the request is a permutation of the attached images. */
  lemma ListChecksExactly(rows: Rows, ids: seq<ImageId>, listing: seq<nat>)
    requires UniqueImages(rows) && IsListing(rows, listing)
    ensures ListChecks(rows, ids) <==> multiset(ids) == multiset(ImagesOf(rows, listing))
  {
    var images := ImagesOf(rows, listing);
    ListingNoDup(rows, listing);
    ListingSize(rows, listing);
    assert NoDup(images);
    forall x ensures x in images <==> x in Images(rows) {
      if x in images {
        var i :| 0 <= i < |images| && images[i] == x;
        assert listing[i] in rows && rows[listing[i]].image == x;
      }
      if x in Images(rows) {
        var p :| p in rows && rows[p].image == x;
        var i :| 0 <= i < |listing| && listing[i] == p;
        assert images[i] == x;
      }
    }
    if ListChecks(rows, ids) {
      ChecksCoverAll(rows, ids);
      forall x ensures multiset(ids)[x] == multiset(images)[x] {
        NoDupMultiset(ids, x);
        NoDupMultiset(images, x);
      }
    }
    if multiset(ids) == multiset(images) {
      SameMultiset(ids, images);
    }
  }

  lemma SameMultiset(s: seq<ImageId>, t: seq<ImageId>)
    requires multiset(s) == multiset(t) && NoDup(t)
    ensures NoDup(s) && |s| == |t| && forall x :: x in s <==> x in t
  {
    assert |s| == |multiset(s)| == |t|;
    forall x ensures x in s <==> x in t {
      assert x in s <==> x in multiset(s);
      assert x in t <==> x in multiset(t);
    }
    forall i, j | 0 <= i < j < |s| ensures s[i] != s[j] {
      NoDupMultiset(t, s[i]);
      RepeatedCount(s, i, j);
    }
  }

  lemma RepeatedCount(s: seq<ImageId>, i: nat, j: nat)
    requires i < j < |s|
    ensures s[i] == s[j] ==> multiset(s)[s[i]] >= 2
  {
    var front, back := s[..j], s[j..];
    assert s == front + back;
    assert front[i] == s[i] && back[0] == s[j];
    assert s[i] in multiset(front) && s[j] in multiset(back);
  }
}
