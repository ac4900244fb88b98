/**
 * The product-assignment dialog: the products it lists, the selections its
 * checkboxes edit, and how "Save" turns the open tab into a list of product
 * ids and the rule stored with it.
 *
 * `toLowerCase` is a parameter (`lower`); it is not re-specified here.
 */
module ProductAssignment {
  import opened Seqs
  import opened Strings

  /** A catalog product as the dialog receives it. */
  datatype Product = Product(
    id: string,
    title: string,
    handle: string,
    vendor: string,
    productType: string,
    tags: seq<string>,
    collections: seq<string>)

  datatype RuleType = ManualRule | CollectionRule | TagRule | ProductTypeRule | VendorRule

  /** `AssignmentRule` (its optional `conditions` are never read). */
  datatype AssignmentRule = AssignmentRule(ruleType: RuleType, criteria: seq<string>)

  const MANUAL_TAB: int := 0
  const COLLECTION_TAB: int := 1
  const TAG_TAB: int := 2
  const AUTOMATIC_TAB: int := 3

  /** `products.map(p => p.id)` */
  function Ids(ps: seq<Product>): (ids: seq<string>)
    ensures |ids| == |ps|
    ensures forall i | 0 <= i < |ps| :: ids[i] == ps[i].id
  {
    seq(|ps|, i requires 0 <= i < |ps| => ps[i].id)
  }

  /** An id is in `Ids(ps)` exactly when some product of `ps` has it. */
  lemma IdsMembers(ps: seq<Product>, id: string)
    ensures id in Ids(ps) <==> exists p :: p in ps && p.id == id
  {
    if id in Ids(ps) {
      var i :| 0 <= i < |ps| && Ids(ps)[i] == id;
      assert ps[i] in ps;
    }
  }

  /** Taking ids keeps the subsequence relation. */
  lemma {:induction false} IdsSubsequence(a: seq<Product>, b: seq<Product>)
    requires IsSubsequence(a, b)
    ensures IsSubsequence(Ids(a), Ids(b))
    decreases |b|
  {
    if a != [] {
      assert Ids(a)[1..] == Ids(a[1..]);
      assert Ids(b)[1..] == Ids(b[1..]);
      if a[0] == b[0] && IsSubsequence(a[1..], b[1..]) {
        IdsSubsequence(a[1..], b[1..]);
      } else {
        IdsSubsequence(a, b[1..]);
      }
    }
  }

  /** `selected.some(x => xs.includes(x))` */
  predicate SharesAny(xs: seq<string>, selected: seq<string>) {
    exists x :: x in selected && x in xs
  }

  function InCollections(selected: seq<string>): Product -> bool {
    (p: Product) => SharesAny(p.collections, selected)
  }

  function HasTags(selected: seq<string>): Product -> bool {
    (p: Product) => SharesAny(p.tags, selected)
  }

  /** The automatic tab's test: exact product type or vendor membership; any other rule matches nothing. */
  function MatchesRule(rule: AssignmentRule): Product -> bool {
    (p: Product) => match rule.ruleType
         case ProductTypeRule => p.productType in rule.criteria
         case VendorRule => p.vendor in rule.criteria
         case _ => false
  }

  /** `products.filter(keep).map(p => p.id)` */
  function Matching(products: seq<Product>, keep: Product -> bool): seq<string> {
    Ids(Filter(products, keep))
  }

  /**
   * The ids `Matching` returns are exactly those of the catalog products that
   * pass, and they come in catalog order.
   */
  lemma MatchingIsCatalogFilter(products: seq<Product>, keep: Product -> bool)
    ensures forall id :: id in Matching(products, keep) <==> exists p :: p in products && keep(p) && p.id == id
    ensures IsSubsequence(Matching(products, keep), Ids(products))
  {
    var kept := Filter(products, keep);
    forall id ensures id in Matching(products, keep) <==> exists p :: p in products && keep(p) && p.id == id {
      IdsMembers(kept, id);
    }
    IdsSubsequence(kept, products);
  }

  /** A test no product passes gives no ids. */
  lemma MatchingNothing(products: seq<Product>, keep: Product -> bool)
    requires forall p | p in products :: !keep(p)
    ensures Matching(products, keep) == []
  {
    FilterKeepsNone(products, keep);
  }

  /** The search: title or handle contains the query, compared after `lower`. */
  predicate MatchesSearch(p: Product, query: string, lower: string -> string) {
    Contains(lower(p.title), lower(query)) || Contains(lower(p.handle), lower(query))
  }

  function Visible(query: string, tab: int, selectedCollections: seq<string>, selectedTags: seq<string>,
                   lower: string -> string): Product -> bool
  {
    (p: Product) => && MatchesSearch(p, query, lower)
         && (tab == COLLECTION_TAB ==> SharesAny(p.collections, selectedCollections))
         && (tab == TAG_TAB ==> SharesAny(p.tags, selectedTags))
  }

  /**
   * `filteredProducts`: the products, in order, that match the search and, on
   * the collection and tag tabs, share a selected collection or tag.
   */
  function FilteredProducts(products: seq<Product>, query: string, tab: int, selectedCollections: seq<string>,
                            selectedTags: seq<string>, lower: string -> string): (r: seq<Product>)
    ensures IsSubsequence(r, products)
    ensures forall p | p in r :: p in products && MatchesSearch(p, query, lower)
    ensures tab == COLLECTION_TAB ==> forall p | p in r :: SharesAny(p.collections, selectedCollections)
    ensures tab == TAG_TAB ==> forall p | p in r :: SharesAny(p.tags, selectedTags)
    ensures forall p | p in products && Visible(query, tab, selectedCollections, selectedTags, lower)(p) :: p in r
  {
    Filter(products, Visible(query, tab, selectedCollections, selectedTags, lower))
  }

  /** An empty search on the manual or automatic tab lists the whole catalog. */
  lemma EmptySearchListsAll(products: seq<Product>, tab: int, selectedCollections: seq<string>,
                            selectedTags: seq<string>, lower: string -> string)
    requires lower("") == ""
    requires tab != COLLECTION_TAB && tab != TAG_TAB
    ensures FilteredProducts(products, "", tab, selectedCollections, selectedTags, lower) == products
  {
    forall p | p in products ensures Visible("", tab, selectedCollections, selectedTags, lower)(p) {
      ContainsEmpty(lower(p.title));
    }
    FilterKeepsAll(products, Visible("", tab, selectedCollections, selectedTags, lower));
  }

  /** `products.map(p => p.productType)` */
  function ProductTypes(products: seq<Product>): seq<string> {
    seq(|products|, i requires 0 <= i < |products| => products[i].productType)
  }

  /** `products.map(p => p.vendor)` */
  function Vendors(products: seq<Product>): seq<string> {
    seq(|products|, i requires 0 <= i < |products| => products[i].vendor)
  }

  function NonEmpty(): string -> bool {
    (s: string) => s != ""
  }

  /** `[...new Set(products.map(p => p.productType).filter(Boolean))]` */
  function UniqueProductTypes(products: seq<Product>): (r: seq<string>)
    ensures NoDuplicates(r)
    ensures forall t | t in r :: t != "" && exists p :: p in products && p.productType == t
    ensures forall p | p in products && p.productType != "" :: p.productType in r
  {
    var types := ProductTypes(products);
    assert forall t | t in types :: exists p :: p in products && p.productType == t by {
      forall t | t in types ensures exists p :: p in products && p.productType == t {
        var i :| 0 <= i < |types| && types[i] == t;
        assert products[i] in products;
      }
    }
    assert forall i | 0 <= i < |products| :: types[i] == products[i].productType;
    Dedup(Filter(types, NonEmpty()))
  }

  /** `[...new Set(products.map(p => p.vendor).filter(Boolean))]` */
  function UniqueVendors(products: seq<Product>): (r: seq<string>)
    ensures NoDuplicates(r)
    ensures forall v | v in r :: v != "" && exists p :: p in products && p.vendor == v
    ensures forall p | p in products && p.vendor != "" :: p.vendor in r
  {
    var vendors := Vendors(products);
    assert forall v | v in vendors :: exists p :: p in products && p.vendor == v by {
      forall v | v in vendors ensures exists p :: p in products && p.vendor == v {
        var i :| 0 <= i < |vendors| && vendors[i] == v;
        assert products[i] in products;
      }
    }
    assert forall i | 0 <= i < |products| :: vendors[i] == products[i].vendor;
    Dedup(Filter(vendors, NonEmpty()))
  }

  /** `products.flatMap(p => p.tags)` */
  function AllTags(products: seq<Product>): (r: seq<string>)
    ensures forall t | t in r :: exists p :: p in products && t in p.tags
    ensures forall p, t | p in products && t in p.tags :: t in r
  {
    if products == [] then []
    else
      var rest := AllTags(products[1..]);
      assert forall p | p in products[1..] :: p in products;
      products[0].tags + rest
  }

  /** `[...new Set(products.flatMap(p => p.tags))]`: empty tags are not filtered out. */
  function UniqueTags(products: seq<Product>): (r: seq<string>)
    ensures NoDuplicates(r)
    ensures forall t | t in r :: exists p :: p in products && t in p.tags
    ensures forall p, t | p in products && t in p.tags :: t in r
  {
    Dedup(AllTags(products))
  }

  /**
   * "Select all" on a duplicate-free selection keeps it as it is and appends
   * the newly listed ids in listing order, each once.
   */
  lemma SelectAllAppends(prev: seq<string>, listed: seq<string>)
    requires NoDuplicates(prev)
    ensures Dedup(prev + listed) == prev + Filter(Dedup(listed), NotIn(prev))
  {
    DedupAppend(prev, listed);
    DedupOfDuplicateFree(prev);
  }

  /** The dialog's state, with the handlers that replace its fields. */
  class AssignmentEditor {
    const products: seq<Product>
    const lower: string -> string
    var selectedTab: int
    var assignmentRule: AssignmentRule
    var selectedProducts: seq<string>
    var searchQuery: string
    var selectedCollections: seq<string>
    var selectedTags: seq<string>

    /** The initial `useState` values. */
    constructor (products: seq<Product>, currentAssignments: seq<string>, lower: string -> string)
      ensures this.products == products && this.lower == lower
      ensures selectedTab == MANUAL_TAB && assignmentRule == AssignmentRule(ManualRule, [])
      ensures selectedProducts == currentAssignments && searchQuery == ""
      ensures selectedCollections == [] && selectedTags == []
    {
      this.products := products;
      this.lower := lower;
      selectedTab := MANUAL_TAB;
      assignmentRule := AssignmentRule(ManualRule, []);
      selectedProducts := currentAssignments;
      searchQuery := "";
      selectedCollections := [];
      selectedTags := [];
    }

    function Filtered(): seq<Product>
      reads this
    {
      FilteredProducts(products, searchQuery, selectedTab, selectedCollections, selectedTags, lower)
    }

    method SelectTab(tab: int)
      modifies this`selectedTab
      ensures selectedTab == tab
    {
      selectedTab := tab;
    }

    method SetSearchQuery(query: string)
      modifies this`searchQuery
      ensures searchQuery == query
    {
      searchQuery := query;
    }

    /** `handleProductToggle`: flips the id's membership and no other id's. */
    method ToggleProduct(id: string)
      modifies this`selectedProducts
      ensures selectedProducts == Toggled(old(selectedProducts), id)
      ensures id in selectedProducts <==> id !in old(selectedProducts)
      ensures forall x | x != id :: x in selectedProducts <==> x in old(selectedProducts)
    {
      selectedProducts := if id in selectedProducts then Filter(selectedProducts, NotEqual(id)) else selectedProducts + [id];
    }

    /** `handleCollectionToggle` */
    method ToggleCollection(id: string)
      modifies this`selectedCollections
      ensures selectedCollections == Toggled(old(selectedCollections), id)
      ensures id in selectedCollections <==> id !in old(selectedCollections)
      ensures forall x | x != id :: x in selectedCollections <==> x in old(selectedCollections)
    {
      selectedCollections := if id in selectedCollections then Filter(selectedCollections, NotEqual(id)) else selectedCollections + [id];
    }

    /** `handleTagToggle` */
    method ToggleTag(tag: string)
      modifies this`selectedTags
      ensures selectedTags == Toggled(old(selectedTags), tag)
      ensures tag in selectedTags <==> tag !in old(selectedTags)
      ensures forall x | x != tag :: x in selectedTags <==> x in old(selectedTags)
    {
      selectedTags := if tag in selectedTags then Filter(selectedTags, NotEqual(tag)) else selectedTags + [tag];
    }

    /**
     * `handleSelectAll`: the old selection followed by the listed ids, with
     * repeats dropped at their later occurrences.
     */
    method SelectAll()
      modifies this`selectedProducts
      ensures selectedProducts == Dedup(old(selectedProducts) + Ids(Filtered()))
      ensures NoDuplicates(selectedProducts)
      ensures forall x | x in old(selectedProducts) :: x in selectedProducts
      ensures forall p | p in Filtered() :: p.id in selectedProducts
      ensures forall x | x in selectedProducts :: x in old(selectedProducts) || x in Ids(Filtered())
    {
      var listed := Ids(Filtered());
      forall p | p in Filtered() ensures p.id in listed {
        IdsMembers(Filtered(), p.id);
      }
      selectedProducts := Dedup(selectedProducts + listed);
    }

    /** `handleDeselectAll`: drops exactly the listed ids and keeps the rest in order. */
    method DeselectAll()
      modifies this`selectedProducts
      ensures selectedProducts == Filter(old(selectedProducts), NotIn(Ids(Filtered())))
      ensures IsSubsequence(selectedProducts, old(selectedProducts))
      ensures forall x :: x in selectedProducts <==> x in old(selectedProducts) && x !in Ids(Filtered())
    {
      selectedProducts := Filter(selectedProducts, NotIn(Ids(Filtered())));
    }

    /** The "Assignment Type" select: a new rule type starts with no criteria. */
    method SetRuleType(ruleType: RuleType)
      modifies this`assignmentRule
      ensures assignmentRule == AssignmentRule(ruleType, [])
    {
      assignmentRule := assignmentRule.(ruleType := ruleType, criteria := []);
    }

    /** A product-type or vendor checkbox: appended when checked, removed when unchecked. */
    method SetCriterion(value: string, checked: bool)
      modifies this`assignmentRule
      ensures assignmentRule.ruleType == old(assignmentRule.ruleType)
      ensures checked ==> assignmentRule.criteria == old(assignmentRule.criteria) + [value]
      ensures !checked ==> assignmentRule.criteria == Filter(old(assignmentRule.criteria), NotEqual(value))
      ensures !checked ==> value !in assignmentRule.criteria
    {
      if checked {
        assignmentRule := assignmentRule.(criteria := assignmentRule.criteria + [value]);
      } else {
        assignmentRule := assignmentRule.(criteria := Filter(assignmentRule.criteria, NotEqual(value)));
      }
    }

    /**
     * `handleSave`. Manual: the selection itself. Collection and tag tabs: the
     * catalog products sharing a selected collection or tag, in catalog order.
     * Automatic: the products whose type or vendor is a criterion of the rule,
     * which is returned unchanged. Any other tab: nothing, with an empty manual rule.
     */
    method HandleSave() returns (finalAssignments: seq<string>, finalRule: AssignmentRule)
      ensures selectedTab == MANUAL_TAB ==>
                finalAssignments == selectedProducts && finalRule == AssignmentRule(ManualRule, selectedProducts)
      ensures selectedTab == COLLECTION_TAB ==>
                && finalRule == AssignmentRule(CollectionRule, selectedCollections)
                && finalAssignments == Matching(products, InCollections(selectedCollections))
                && (forall id :: id in finalAssignments <==>
                      exists p :: p in products && p.id == id && SharesAny(p.collections, selectedCollections))
      ensures selectedTab == TAG_TAB ==>
                && finalRule == AssignmentRule(TagRule, selectedTags)
                && finalAssignments == Matching(products, HasTags(selectedTags))
                && (forall id :: id in finalAssignments <==>
                      exists p :: p in products && p.id == id && SharesAny(p.tags, selectedTags))
      ensures selectedTab == AUTOMATIC_TAB ==>
                && finalRule == assignmentRule
                && finalAssignments == Matching(products, MatchesRule(assignmentRule))
      ensures selectedTab == AUTOMATIC_TAB && assignmentRule.ruleType == ProductTypeRule ==>
                forall id :: id in finalAssignments <==>
                  exists p :: p in products && p.id == id && p.productType in assignmentRule.criteria
      ensures selectedTab == AUTOMATIC_TAB && assignmentRule.ruleType == VendorRule ==>
                forall id :: id in finalAssignments <==>
                  exists p :: p in products && p.id == id && p.vendor in assignmentRule.criteria
      ensures selectedTab == AUTOMATIC_TAB && assignmentRule.ruleType != ProductTypeRule && assignmentRule.ruleType != VendorRule ==>
                finalAssignments == []
      ensures selectedTab in {COLLECTION_TAB, TAG_TAB, AUTOMATIC_TAB} ==> IsSubsequence(finalAssignments, Ids(products))
      ensures selectedTab in {COLLECTION_TAB, TAG_TAB} && finalRule.criteria == [] ==> finalAssignments == []
      ensures selectedTab !in {MANUAL_TAB, COLLECTION_TAB, TAG_TAB, AUTOMATIC_TAB} ==>
                finalAssignments == [] && finalRule == AssignmentRule(ManualRule, [])
    {
      finalAssignments := [];
      if selectedTab == MANUAL_TAB {
        finalRule := AssignmentRule(ManualRule, selectedProducts);
        finalAssignments := selectedProducts;
      } else if selectedTab == COLLECTION_TAB {
        finalRule := AssignmentRule(CollectionRule, selectedCollections);
        finalAssignments := Matching(products, InCollections(selectedCollections));
        MatchingIsCatalogFilter(products, InCollections(selectedCollections));
        if selectedCollections == [] {
          MatchingNothing(products, InCollections(selectedCollections));
        }
      } else if selectedTab == TAG_TAB {
        finalRule := AssignmentRule(TagRule, selectedTags);
        finalAssignments := Matching(products, HasTags(selectedTags));
        MatchingIsCatalogFilter(products, HasTags(selectedTags));
        if selectedTags == [] {
          MatchingNothing(products, HasTags(selectedTags));
        }
      } else if selectedTab == AUTOMATIC_TAB {
        finalRule := assignmentRule;
        finalAssignments := Matching(products, MatchesRule(assignmentRule));
        MatchingIsCatalogFilter(products, MatchesRule(assignmentRule));
        if assignmentRule.ruleType != ProductTypeRule && assignmentRule.ruleType != VendorRule {
          MatchingNothing(products, MatchesRule(assignmentRule));
        }
      } else {
        finalRule := AssignmentRule(ManualRule, []);
      }
    }
  }
}
