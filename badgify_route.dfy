/**
 * The badges page: its `action` over the badge and badge-assignment tables,
 * the product records its loader builds, and the figures of its "Quick
 * Stats" card.
 *
 * `JSON.parse` is not modelled: a form field that must be JSON arrives
 * already decoded, as `None` when it does not decode to something usable.
 * Generated badge ids arrive as a parameter.
 */
module BadgifyRoute {
  import opened Wrappers
  import opened Seqs
  import opened Strings
  import opened ProductAssignment

  const MANUAL: string := "manual"

  /**
   * A badge row. Its design attributes (name, text, colours, shape, ...) are
   * opaque here and kept as a map from attribute name to value.
   */
  datatype Badge = Badge(
    id: string,
    shop: string,
    isActive: bool,
    assignmentRules: Option<string>,
    design: map<string, string>)

  /** A decoded `badgeData` object: the keys it carries. */
  datatype BadgeData = BadgeData(
    shop: Option<string>,
    isActive: Option<bool>,
    design: map<string, string>)

  /** A badge-assignment row. */
  datatype Assignment = Assignment(shop: string, badgeId: string, productId: string, assignedBy: string)

  /** The store's failures: a taken id on create, a missing row on update or delete. */
  datatype StoreError = UniqueViolation | RecordNotFound | InsertFailed

  /** `isActive` of a new badge that `badgeData` does not set. */
  const DEFAULT_ACTIVE: bool := true

  /** The row `prisma.badge.create({ data: { shop, ...badgeData } })` inserts: keys of `badgeData` win. */
  function NewBadge(id: string, shop: string, data: BadgeData): (b: Badge)
    ensures b.id == id && b.assignmentRules.None? && b.design == data.design
    ensures b.shop == (if data.shop.Some? then data.shop.value else shop)
    ensures b.isActive == (if data.isActive.Some? then data.isActive.value else DEFAULT_ACTIVE)
  {
    Badge(id, data.shop.GetOr(shop), data.isActive.GetOr(DEFAULT_ACTIVE), None, data.design)
  }

  /** The row `prisma.badge.update({ data: badgeData })` leaves: keys present are overwritten, others kept. */
  function Updated(b: Badge, data: BadgeData): (r: Badge)
    ensures r.id == b.id && r.assignmentRules == b.assignmentRules
    ensures r.shop == data.shop.GetOr(b.shop) && r.isActive == data.isActive.GetOr(b.isActive)
    ensures forall k | k in data.design :: k in r.design && r.design[k] == data.design[k]
    ensures forall k | k in b.design && k !in data.design :: k in r.design && r.design[k] == b.design[k]
    ensures forall k | k in r.design :: k in b.design || k in data.design
  {
    Badge(b.id, data.shop.GetOr(b.shop), data.isActive.GetOr(b.isActive), b.assignmentRules, b.design + data.design)
  }

  /** An update that carries only `isActive`, as `toggle_badge` sends. */
  function ActiveOnly(isActive: bool): BadgeData {
    BadgeData(None, Some(isActive), map[])
  }

  /** The row a badge starts from before `badgeData` is spread over it: the session shop and the column defaults. */
  function BlankBadge(id: string, shop: string): Badge {
    Badge(id, shop, DEFAULT_ACTIVE, None, map[])
  }

  /**
   * Creating is updating the blank row: every key `badgeData` carries wins
   * over the session shop and the defaults, exactly as a later update with
   * the same data would overwrite it, so an update with the creating data
   * changes nothing.
   */
  lemma CreatedIsUpdatedBlank(id: string, shop: string, data: BadgeData)
    ensures NewBadge(id, shop, data) == Updated(BlankBadge(id, shop), data)
    ensures Updated(NewBadge(id, shop, data), data) == NewBadge(id, shop, data)
  {
    assert map[] + data.design == data.design;
    UpdateIdempotent(BlankBadge(id, shop), data);
  }

  /** Updating twice with the same data is updating once. */
  lemma UpdateIdempotent(b: Badge, data: BadgeData)
    ensures Updated(Updated(b, data), data) == Updated(b, data)
  {
    assert (b.design + data.design) + data.design == b.design + data.design;
  }

  /** The rows of one badge of one shop. */
  function OfBadge(shop: string, badgeId: string): Assignment -> bool {
    (a: Assignment) => a.shop == shop && a.badgeId == badgeId
  }

  function NotOfBadge(shop: string, badgeId: string): Assignment -> bool {
    (a: Assignment) => !(a.shop == shop && a.badgeId == badgeId)
  }

  /** The rows pointing at a badge id, whatever their shop (the badge's relation). */
  function ForBadge(badgeId: string): Assignment -> bool {
    (a: Assignment) => a.badgeId == badgeId
  }

  function NotForBadge(badgeId: string): Assignment -> bool {
    (a: Assignment) => a.badgeId != badgeId
  }

  /** The rows `createMany` inserts for `productIds`, in order. */
  function NewRows(shop: string, badgeId: string, productIds: seq<string>): (rows: seq<Assignment>)
    ensures |rows| == |productIds|
    ensures forall i | 0 <= i < |rows| :: rows[i] == Assignment(shop, badgeId, productIds[i], MANUAL)
  {
    seq(|productIds|, i requires 0 <= i < |productIds| => Assignment(shop, badgeId, productIds[i], MANUAL))
  }

  function ProductIds(rows: seq<Assignment>): (ids: seq<string>)
    ensures |ids| == |rows|
    ensures forall i | 0 <= i < |rows| :: ids[i] == rows[i].productId
  {
    seq(|rows|, i requires 0 <= i < |rows| => rows[i].productId)
  }

  /**
   * The inserted rows give back the posted ids in order, and every one of
   * them belongs to the badge and shop, assigned `manual`.
   */
  lemma NewRowsRoundTrip(shop: string, badgeId: string, productIds: seq<string>)
    ensures ProductIds(NewRows(shop, badgeId, productIds)) == productIds
    ensures Filter(NewRows(shop, badgeId, productIds), OfBadge(shop, badgeId)) == NewRows(shop, badgeId, productIds)
    ensures forall a | a in NewRows(shop, badgeId, productIds) :: a.assignedBy == MANUAL
  {
    FilterKeepsAll(NewRows(shop, badgeId, productIds), OfBadge(shop, badgeId));
  }

  /** The assignment table after the badge's rows are deleted and `productIds` inserted. */
  function Replaced(rows: seq<Assignment>, shop: string, badgeId: string, productIds: seq<string>): seq<Assignment> {
    Filter(rows, NotOfBadge(shop, badgeId)) + NewRows(shop, badgeId, productIds)
  }

  /**
   * After the replacement the badge's rows list exactly the posted product
   * ids, in order, each assigned `manual`; the rows of every other badge and
   * shop are the old ones, in their old order.
   */
  lemma ReplacedRows(rows: seq<Assignment>, shop: string, badgeId: string, productIds: seq<string>)
    ensures ProductIds(Filter(Replaced(rows, shop, badgeId, productIds), OfBadge(shop, badgeId))) == productIds
    ensures forall a | a in Replaced(rows, shop, badgeId, productIds) && OfBadge(shop, badgeId)(a) :: a.assignedBy == MANUAL
    ensures Filter(Replaced(rows, shop, badgeId, productIds), NotOfBadge(shop, badgeId)) == Filter(rows, NotOfBadge(shop, badgeId))
  {
    var kept := Filter(rows, NotOfBadge(shop, badgeId));
    var added := NewRows(shop, badgeId, productIds);
    FilterConcat(kept, added, OfBadge(shop, badgeId));
    FilterKeepsNone(kept, OfBadge(shop, badgeId));
    FilterKeepsAll(added, OfBadge(shop, badgeId));
    FilterConcat(kept, added, NotOfBadge(shop, badgeId));
    FilterKeepsAll(kept, NotOfBadge(shop, badgeId));
    FilterKeepsNone(added, NotOfBadge(shop, badgeId));
    assert kept + [] == kept;
    assert [] + added == added;
  }

  /** Rebuilding with the same product ids twice gives the same table as once. */
  lemma ReplaceIdempotent(rows: seq<Assignment>, shop: string, badgeId: string, productIds: seq<string>)
    ensures Replaced(Replaced(rows, shop, badgeId, productIds), shop, badgeId, productIds)
         == Replaced(rows, shop, badgeId, productIds)
  {
    ReplacedRows(rows, shop, badgeId, productIds);
  }

  /** An empty product list leaves the badge with no rows. */
  lemma ReplaceWithNothing(rows: seq<Assignment>, shop: string, badgeId: string)
    ensures forall a | a in Replaced(rows, shop, badgeId, []) :: !OfBadge(shop, badgeId)(a)
    ensures |Replaced(rows, shop, badgeId, [])| <= |rows|
  {
    assert Replaced(rows, shop, badgeId, []) == Filter(rows, NotOfBadge(shop, badgeId));
  }

  /** Which shop owns each badge id is recorded in the row itself. */
  ghost predicate KeyedById(badges: map<string, Badge>) {
    forall id | id in badges :: badges[id].id == id
  }

  /** The badge and badge-assignment tables. */
  class BadgeStore {
    var badges: map<string, Badge>
    var assignments: seq<Assignment>

    ghost predicate Valid()
      reads this
    {
      KeyedById(badges)
    }

    constructor ()
      ensures Valid() && badges == map[] && assignments == []
    {
      badges := map[];
      assignments := [];
    }

    /** The row `where: { id, shop }` selects. */
    function Find(id: string, shop: string): (b: Option<Badge>)
      reads this
      ensures b.Some? <==> id in badges && badges[id].shop == shop
      ensures b.Some? ==> b.value == badges[id]
    {
      if id in badges && badges[id].shop == shop then Some(badges[id]) else None
    }

    /**
     * In a table keyed by id, the lookup finds a row exactly when some stored
     * badge has both the id and the shop, and that row is the one found.
     */
    lemma FindIsWhere(id: string, shop: string)
      requires Valid()
      ensures Find(id, shop).Some? <==> exists b :: b in badges.Values && b.id == id && b.shop == shop
      ensures Find(id, shop).Some? ==>
                && Find(id, shop).value in badges.Values
                && Find(id, shop).value.id == id && Find(id, shop).value.shop == shop
    {
      if exists b :: b in badges.Values && b.id == id && b.shop == shop {
        var b :| b in badges.Values && b.id == id && b.shop == shop;
        var k :| k in badges && badges[k] == b;
        assert k == id;
      }
      if Find(id, shop).Some? {
        assert badges[id] in badges.Values;
      }
    }

    /** `prisma.badge.create`, with `id` the generated key. */
    method Create(id: string, shop: string, data: BadgeData) returns (r: Result<Badge, StoreError>)
      requires Valid()
      modifies this`badges
      ensures Valid()
      ensures id in old(badges) ==> r == Err(UniqueViolation) && badges == old(badges)
      ensures id !in old(badges) ==> r == Ok(NewBadge(id, shop, data)) && badges == old(badges)[id := r.value]
    {
      if id in badges {
        return Err(UniqueViolation);
      }
      var badge := NewBadge(id, shop, data);
      badges := badges[id := badge];
      r := Ok(badge);
    }

    /** `prisma.badge.update({ where: { id, shop }, data })`. */
    method Update(id: string, shop: string, data: BadgeData) returns (r: Result<Badge, StoreError>)
      requires Valid()
      modifies this`badges
      ensures Valid()
      ensures old(Find(id, shop)).None? ==> r == Err(RecordNotFound) && badges == old(badges)
      ensures old(Find(id, shop)).Some? ==>
                r == Ok(Updated(old(badges)[id], data)) && badges == old(badges)[id := r.value]
    {
      if Find(id, shop).None? {
        return Err(RecordNotFound);
      }
      var badge := Updated(badges[id], data);
      badges := badges[id := badge];
      r := Ok(badge);
    }

    /** `prisma.badge.update({ where: { id, shop }, data: { assignmentRules } })`: null is stored as null. */
    method SetAssignmentRules(id: string, shop: string, rules: Option<string>) returns (r: Result<Badge, StoreError>)
      requires Valid()
      modifies this`badges
      ensures Valid()
      ensures old(Find(id, shop)).None? ==> r == Err(RecordNotFound) && badges == old(badges)
      ensures old(Find(id, shop)).Some? ==>
                r == Ok(old(badges)[id].(assignmentRules := rules)) && badges == old(badges)[id := r.value]
    {
      if Find(id, shop).None? {
        return Err(RecordNotFound);
      }
      var badge := badges[id].(assignmentRules := rules);
      badges := badges[id := badge];
      r := Ok(badge);
    }

    /** `prisma.badge.delete({ where: { id, shop } })`; the badge's assignment rows go with it. */
    method Delete(id: string, shop: string) returns (r: Result<Badge, StoreError>)
      requires Valid()
      modifies this
      ensures Valid()
      ensures old(Find(id, shop)).None? ==>
                r == Err(RecordNotFound) && badges == old(badges) && assignments == old(assignments)
      ensures old(Find(id, shop)).Some? ==>
                && r == Ok(old(badges)[id])
                && badges == old(badges) - {id}
                && assignments == Filter(old(assignments), NotForBadge(id))
    {
      if Find(id, shop).None? {
        return Err(RecordNotFound);
      }
      r := Ok(badges[id]);
      badges := badges - {id};
      assignments := Filter(assignments, NotForBadge(id));
    }

    /** `badgeAssignment.deleteMany({ where: { badgeId, shop } })`; returns the count removed. */
    method DeleteAssignments(shop: string, badgeId: string) returns (count: nat)
      modifies this`assignments
      ensures assignments == Filter(old(assignments), NotOfBadge(shop, badgeId))
      ensures count == |old(assignments)| - |assignments|
    {
      var before := |assignments|;
      assignments := Filter(assignments, NotOfBadge(shop, badgeId));
      count := before - |assignments|;
    }

    /** `badgeAssignment.createMany`; `ok` is the store's verdict on the batch, which is inserted whole or not at all. */
    method CreateAssignments(shop: string, badgeId: string, productIds: seq<string>, ok: bool)
      returns (r: Result<nat, StoreError>)
      modifies this`assignments
      ensures ok ==> r == Ok(|productIds|) && assignments == old(assignments) + NewRows(shop, badgeId, productIds)
      ensures !ok ==> r == Err(InsertFailed) && assignments == old(assignments)
    {
      if !ok {
        return Err(InsertFailed);
      }
      assignments := assignments + NewRows(shop, badgeId, productIds);
      r := Ok(|productIds|);
    }
  }

  /**
   * The form fields the action reads, decoded. `badgeData` and `productIds`
   * are `None` when their JSON does not decode.
   */
  datatype Form = Form(
    badgeId: string,
    badgeData: Option<BadgeData>,
    isActive: Option<string>,
    productIds: Option<seq<string>>,
    assignmentRules: Option<string>)

  /** The action's JSON reply: `{ success: true, badge? }` or `{ error }` with a status. */
  datatype Reply = Success(badge: Option<Badge>) | Failure(status: int, error: string)

  const INVALID_ACTION: string := "Invalid action"
  const GENERIC_ERROR: string := "An error occurred"

  /**
   * The badges page `action`, for session shop `shop`. `newId` is the id the
   * store generates on create; `insertOk` is the store's verdict on the
   * `createMany` batch. Every store error becomes a 500 reply, after the
   * writes made before it.
   */
  method Action(store: BadgeStore, shop: string, action: Option<string>, form: Form, newId: string, insertOk: bool)
    returns (reply: Reply)
    requires store.Valid()
    modifies store
    ensures store.Valid()
    ensures action == Some("create_badge") ==>
              && store.assignments == old(store.assignments)
              && (form.badgeData.None? || newId in old(store.badges) ==>
                    reply == Failure(500, GENERIC_ERROR) && store.badges == old(store.badges))
              && (form.badgeData.Some? && newId !in old(store.badges) ==>
                    && reply == Success(Some(NewBadge(newId, shop, form.badgeData.value)))
                    && store.badges == old(store.badges)[newId := NewBadge(newId, shop, form.badgeData.value)])
    ensures action == Some("update_badge") ==>
              && store.assignments == old(store.assignments)
              && (form.badgeData.None? || old(store.Find(form.badgeId, shop)).None? ==>
                    reply == Failure(500, GENERIC_ERROR) && store.badges == old(store.badges))
              && (form.badgeData.Some? && old(store.Find(form.badgeId, shop)).Some? ==>
                    var b := Updated(old(store.badges)[form.badgeId], form.badgeData.value);
                    reply == Success(Some(b)) && store.badges == old(store.badges)[form.badgeId := b])
    ensures action == Some("delete_badge") ==>
              && (old(store.Find(form.badgeId, shop)).None? ==>
                    && reply == Failure(500, GENERIC_ERROR)
                    && store.badges == old(store.badges) && store.assignments == old(store.assignments))
              && (old(store.Find(form.badgeId, shop)).Some? ==>
                    && reply == Success(None)
                    && store.badges == old(store.badges) - {form.badgeId}
                    && store.assignments == Filter(old(store.assignments), NotForBadge(form.badgeId)))
    ensures action == Some("toggle_badge") ==>
              && store.assignments == old(store.assignments)
              && (old(store.Find(form.badgeId, shop)).None? ==>
                    reply == Failure(500, GENERIC_ERROR) && store.badges == old(store.badges))
              && (old(store.Find(form.badgeId, shop)).Some? ==>
                    var b := old(store.badges)[form.badgeId].(isActive := form.isActive == Some("true"));
                    reply == Success(Some(b)) && store.badges == old(store.badges)[form.badgeId := b])
    ensures action == Some("assign_products") && form.productIds.None? ==>
              reply == Failure(500, GENERIC_ERROR)
              && store.badges == old(store.badges) && store.assignments == old(store.assignments)
    ensures action == Some("assign_products") && form.productIds.Some? ==>
              var ids := form.productIds.value;
              && (insertOk || ids == [] ==>
                    && store.assignments == Replaced(old(store.assignments), shop, form.badgeId, ids)
                    && (old(store.Find(form.badgeId, shop)).None? ==>
                          reply == Failure(500, GENERIC_ERROR) && store.badges == old(store.badges))
                    && (old(store.Find(form.badgeId, shop)).Some? ==>
                          && reply == Success(None)
                          && store.badges == old(store.badges)[form.badgeId :=
                               old(store.badges)[form.badgeId].(assignmentRules := form.assignmentRules)]))
              && (!insertOk && ids != [] ==>
                    && reply == Failure(500, GENERIC_ERROR)
                    && store.badges == old(store.badges)
                    && store.assignments == Filter(old(store.assignments), NotOfBadge(shop, form.badgeId)))
    ensures action !in {Some("create_badge"), Some("update_badge"), Some("delete_badge"), Some("toggle_badge"), Some("assign_products")} ==>
              reply == Failure(400, INVALID_ACTION)
              && store.badges == old(store.badges) && store.assignments == old(store.assignments)
  {
    if action == Some("create_badge") {
      if form.badgeData.None? {
        return Failure(500, GENERIC_ERROR);
      }
      var created := store.Create(newId, shop, form.badgeData.value);
      if created.Err? {
        return Failure(500, GENERIC_ERROR);
      }
      return Success(Some(created.value));
    } else if action == Some("update_badge") {
      if form.badgeData.None? {
        return Failure(500, GENERIC_ERROR);
      }
      var updated := store.Update(form.badgeId, shop, form.badgeData.value);
      if updated.Err? {
        return Failure(500, GENERIC_ERROR);
      }
      return Success(Some(updated.value));
    } else if action == Some("delete_badge") {
      var deleted := store.Delete(form.badgeId, shop);
      if deleted.Err? {
        return Failure(500, GENERIC_ERROR);
      }
      return Success(None);
    } else if action == Some("toggle_badge") {
      var isActive := form.isActive == Some("true");
      var toggled := store.Update(form.badgeId, shop, ActiveOnly(isActive));
      if toggled.Err? {
        return Failure(500, GENERIC_ERROR);
      }
      assert Updated(old(store.badges)[form.badgeId], ActiveOnly(isActive)).design
          == old(store.badges)[form.badgeId].design;
      return Success(Some(toggled.value));
    } else if action == Some("assign_products") {
      if form.productIds.None? {
        return Failure(500, GENERIC_ERROR);
      }
      var ids := form.productIds.value;
      var removed := store.DeleteAssignments(shop, form.badgeId);
      if |ids| > 0 {
        var inserted := store.CreateAssignments(shop, form.badgeId, ids, insertOk);
        if inserted.Err? {
          return Failure(500, GENERIC_ERROR);
        }
      } else {
        assert store.assignments == store.assignments + NewRows(shop, form.badgeId, ids);
      }
      var stored := store.SetAssignmentRules(form.badgeId, shop, form.assignmentRules);
      if stored.Err? {
        return Failure(500, GENERIC_ERROR);
      }
      return Success(None);
    }
    return Failure(400, INVALID_ACTION);
  }

  /** A product as the REST resource returns it. */
  datatype RawProduct = RawProduct(
    id: int,
    title: string,
    handle: string,
    vendor: Option<string>,
    productType: Option<string>,
    tags: Option<string>)

  /** A trimmed piece has no character its piece lacks, and trimming it again changes nothing. */
  lemma TrimmedPiece(piece: string, c: char)
    requires c !in piece
    ensures c !in Trim(piece) && Trim(Trim(piece)) == Trim(piece)
  {
    TrimIdempotent(piece);
    var t := Trim(piece);
    var a: nat :| TrimmedAt(piece, t, a);
    forall k | 0 <= k < |t| ensures t[k] != c {
      assert t[k] == piece[a + k];
    }
  }

  /** `s.split(',').map(piece => piece.trim())` */
  function TrimmedPieces(s: string): (tags: seq<string>)
    ensures |tags| == Occurrences(s, ',') + 1
    ensures forall i | 0 <= i < |tags| :: tags[i] == Trim(Split(s, ',')[i])
    ensures forall i | 0 <= i < |tags| :: ',' !in tags[i] && Trim(tags[i]) == tags[i]
  {
    var pieces := Split(s, ',');
    forall i | 0 <= i < |pieces| ensures ',' !in Trim(pieces[i]) && Trim(Trim(pieces[i])) == Trim(pieces[i]) {
      TrimmedPiece(pieces[i], ',');
    }
    seq(|pieces|, i requires 0 <= i < |pieces| => Trim(pieces[i]))
  }

  /**
   * The loader's tag parsing: no tags for a missing or empty string;
   * otherwise one tag per comma-separated piece, trimmed, empty pieces kept.
   */
  function ParseTags(tags: Option<string>): (r: seq<string>)
    ensures !Truthy(tags) ==> r == []
    ensures Truthy(tags) ==> |r| == Occurrences(tags.value, ',') + 1
    ensures Truthy(tags) ==> forall i | 0 <= i < |r| :: r[i] == Trim(Split(tags.value, ',')[i])
    ensures forall i | 0 <= i < |r| :: ',' !in r[i] && Trim(r[i]) == r[i]
  {
    if Truthy(tags) then TrimmedPieces(tags.value) else []
  }

  /** Tags joined by commas, each already trimmed and comma-free, parse back to themselves. */
  lemma ParseTagsJoin(tags: seq<string>)
    requires |tags| >= 1
    requires forall i | 0 <= i < |tags| :: ',' !in tags[i] && Trim(tags[i]) == tags[i]
    requires Join(tags, ',') != ""
    ensures ParseTags(Some(Join(tags, ','))) == tags
  {
    SplitJoin(tags, ',');
  }

  /** A piece between two commas that is all whitespace is kept, as an empty tag. */
  lemma ParseTagsKeepsBlankPieces(s: string, i: int)
    requires s != "" && 0 <= i < |Split(s, ',')|
    requires AllWhitespace(Split(s, ',')[i])
    ensures |ParseTags(Some(s))| == |Split(s, ',')| && ParseTags(Some(s))[i] == ""
  {
    TrimAllWhitespace(Split(s, ',')[i]);
  }

  /**
   * The product record the loader builds: the id in decimal, a missing or
   * empty vendor or type as `''`, parsed tags, and no collections.
   */
  function LoadProduct(raw: RawProduct, decimal: int -> string): (p: Product)
    ensures p.id == decimal(raw.id) && p.title == raw.title && p.handle == raw.handle
    ensures p.vendor == (if Truthy(raw.vendor) then raw.vendor.value else "")
    ensures p.productType == (if Truthy(raw.productType) then raw.productType.value else "")
    ensures p.tags == ParseTags(raw.tags)
    ensures p.collections == []
  {
    Product(decimal(raw.id), raw.title, raw.handle,
            if Truthy(raw.vendor) then raw.vendor.value else "",
            if Truthy(raw.productType) then raw.productType.value else "",
            ParseTags(raw.tags), [])
  }

  function LoadProducts(raws: seq<RawProduct>, decimal: int -> string): (ps: seq<Product>)
    ensures |ps| == |raws|
    ensures forall i | 0 <= i < |raws| :: ps[i] == LoadProduct(raws[i], decimal)
  {
    seq(|raws|, i requires 0 <= i < |raws| => LoadProduct(raws[i], decimal))
  }

  /**
   * Since loaded products have no collections, saving from the collection
   * tab resolves to no products, whatever is selected.
   */
  lemma LoadedCatalogHasNoCollectionMatches(raws: seq<RawProduct>, decimal: int -> string, selected: seq<string>)
    ensures Matching(LoadProducts(raws, decimal), InCollections(selected)) == []
  {
    var ps := LoadProducts(raws, decimal);
    forall p | p in ps ensures !InCollections(selected)(p) {
      var i :| 0 <= i < |ps| && ps[i] == p;
    }
    MatchingNothing(ps, InCollections(selected));
  }

  /** A loaded product and the raw product it comes from share their position. */
  lemma LoadedFrom(raws: seq<RawProduct>, decimal: int -> string, p: Product) returns (r: RawProduct)
    requires p in LoadProducts(raws, decimal)
    ensures r in raws && p == LoadProduct(r, decimal)
  {
    var i :| 0 <= i < |raws| && LoadProducts(raws, decimal)[i] == p;
    r := raws[i];
  }

  lemma LoadedTo(raws: seq<RawProduct>, decimal: int -> string, r: RawProduct)
    requires r in raws
    ensures LoadProduct(r, decimal) in LoadProducts(raws, decimal)
  {
    var i :| 0 <= i < |raws| && raws[i] == r;
    assert LoadProducts(raws, decimal)[i] == LoadProduct(r, decimal);
  }

  /** Over a loaded catalog, the vendor filter offers exactly the vendors Shopify returned non-empty. */
  lemma LoadedVendors(raws: seq<RawProduct>, decimal: int -> string, v: string)
    ensures v in UniqueVendors(LoadProducts(raws, decimal)) <==>
              exists r :: r in raws && Truthy(r.vendor) && r.vendor.value == v
  {
    var ps := LoadProducts(raws, decimal);
    if v in UniqueVendors(ps) {
      var p :| p in ps && p.vendor == v;
      var r := LoadedFrom(raws, decimal, p);
    }
    if exists r :: r in raws && Truthy(r.vendor) && r.vendor.value == v {
      var r :| r in raws && Truthy(r.vendor) && r.vendor.value == v;
      LoadedTo(raws, decimal, r);
    }
  }

  /** Over a loaded catalog, the type filter offers exactly the product types Shopify returned non-empty. */
  lemma LoadedProductTypes(raws: seq<RawProduct>, decimal: int -> string, t: string)
    ensures t in UniqueProductTypes(LoadProducts(raws, decimal)) <==>
              exists r :: r in raws && Truthy(r.productType) && r.productType.value == t
  {
    var ps := LoadProducts(raws, decimal);
    if t in UniqueProductTypes(ps) {
      var p :| p in ps && p.productType == t;
      var r := LoadedFrom(raws, decimal, p);
    }
    if exists r :: r in raws && Truthy(r.productType) && r.productType.value == t {
      var r :| r in raws && Truthy(r.productType) && r.productType.value == t;
      LoadedTo(raws, decimal, r);
    }
  }

  /** Over a loaded catalog, the tag filter offers exactly the trimmed pieces of the products' tag strings. */
  lemma LoadedTags(raws: seq<RawProduct>, decimal: int -> string, t: string)
    ensures t in UniqueTags(LoadProducts(raws, decimal)) <==> exists r :: r in raws && t in ParseTags(r.tags)
  {
    var ps := LoadProducts(raws, decimal);
    if t in UniqueTags(ps) {
      var p :| p in ps && t in p.tags;
      var r := LoadedFrom(raws, decimal, p);
    }
    if exists r :: r in raws && t in ParseTags(r.tags) {
      var r :| r in raws && t in ParseTags(r.tags);
      LoadedTo(raws, decimal, r);
    }
  }

  /** A badge as the loader lists it, with `assignmentCount`. */
  datatype ListedBadge = ListedBadge(badge: Badge, assignmentCount: nat)

  /** `badges.map(badge => ({ ...badge, assignmentCount: badge.badgeAssignments.length }))` */
  function Listed(badges: seq<Badge>, rows: seq<Assignment>): (r: seq<ListedBadge>)
    ensures |r| == |badges|
    ensures forall i | 0 <= i < |r| :: r[i].badge == badges[i]
    ensures forall i | 0 <= i < |r| :: r[i].assignmentCount == |Filter(rows, ForBadge(badges[i].id))|
  {
    seq(|badges|, i requires 0 <= i < |badges| => ListedBadge(badges[i], |Filter(rows, ForBadge(badges[i].id))|))
  }

  function IsActiveBadge(): ListedBadge -> bool {
    (b: ListedBadge) => b.badge.isActive
  }

  /** "Active Badges": `badges.filter(b => b.isActive).length`. */
  function ActiveBadgeCount(listed: seq<ListedBadge>): (n: nat)
    ensures n <= |listed|
  {
    |Filter(listed, IsActiveBadge())|
  }

  /** Each badge added to the list adds one to the count exactly when it is active. */
  lemma ActiveBadgeCountAppend(listed: seq<ListedBadge>, b: ListedBadge)
    ensures ActiveBadgeCount(listed + [b]) == ActiveBadgeCount(listed) + (if b.badge.isActive then 1 else 0)
  {
    FilterConcat(listed, [b], IsActiveBadge());
  }

  /** The count is 0 exactly when no badge is active, and the list's length exactly when all are. */
  lemma ActiveBadgeCountExtremes(listed: seq<ListedBadge>)
    ensures ActiveBadgeCount(listed) == 0 <==> forall b | b in listed :: !b.badge.isActive
    ensures ActiveBadgeCount(listed) == |listed| <==> forall b | b in listed :: b.badge.isActive
  {
    forall b | b in listed && b.badge.isActive ensures b in Filter(listed, IsActiveBadge()) {
      assert IsActiveBadge()(b);
    }
    if forall b | b in listed :: !b.badge.isActive {
      FilterKeepsNone(listed, IsActiveBadge());
    }
    FilterFullLength(listed, IsActiveBadge());
  }

  /** "Products with Badges": `badges.reduce((sum, badge) => sum + badge.assignmentCount, 0)`. */
  function ProductsWithBadges(listed: seq<ListedBadge>): nat {
    if listed == [] then 0 else listed[0].assignmentCount + ProductsWithBadges(listed[1..])
  }

  function BadgeIds(badges: seq<Badge>): seq<string> {
    seq(|badges|, i requires 0 <= i < |badges| => badges[i].id)
  }

  function ForAnyBadge(ids: seq<string>): Assignment -> bool {
    (a: Assignment) => a.badgeId in ids
  }

  /**
   * For listed badges with distinct ids, "Products with Badges" is the number
   * of assignment rows pointing at one of them: a product carrying two badges
   * is counted twice.
   */
  lemma {:induction false} ProductsWithBadgesCountsRows(badges: seq<Badge>, rows: seq<Assignment>)
    requires NoDuplicates(BadgeIds(badges))
    ensures ProductsWithBadges(Listed(badges, rows)) == |Filter(rows, ForAnyBadge(BadgeIds(badges)))|
  {
    if badges == [] {
      FilterKeepsNone(rows, ForAnyBadge(BadgeIds(badges)));
    } else {
      var ids := BadgeIds(badges);
      var rest := badges[1..];
      assert BadgeIds(rest) == ids[1..];
      assert Listed(badges, rows)[1..] == Listed(rest, rows);
      assert NoDuplicates(BadgeIds(rest)) by {
        forall i, j | 0 <= i < j < |ids[1..]| ensures ids[1..][i] != ids[1..][j] {
          assert ids[1..][i] == ids[i + 1] && ids[1..][j] == ids[j + 1];
        }
      }
      ProductsWithBadgesCountsRows(rest, rows);
      assert ids[0] !in ids[1..] by {
        forall k | 0 <= k < |ids[1..]| ensures ids[1..][k] != ids[0] {
          assert ids[1..][k] == ids[k + 1];
        }
      }
      assert ids == [ids[0]] + ids[1..];
      FilterUnionCount(rows, ForBadge(badges[0].id), ForAnyBadge(BadgeIds(rest)), ForAnyBadge(ids));
    }
  }
}
