/** The customer menu (GET /api/public/menu, app/api/public/menu/route.ts):
    a two-level tree built from the category list and the active items.
    Every root category (no parent) carries its own items and its direct
    child categories, and each child carries only its own items. */
module PublicMenu {
  import opened Common
  import opened Catalog

  datatype ChildNode = ChildNode(category: Category, items: seq<Item>)
  datatype RootNode = RootNode(category: Category, children: seq<ChildNode>, items: seq<Item>)

  /** A category is top-level when it has no parent, or an empty parent id. */
  predicate IsRoot(c: Category) {
    !Truthy(c.parentId)
  }

  /** Only active items are listed. */
  function ActiveItems(items: seq<Item>): seq<Item> {
    Filter(items, (i: Item) => i.active)
  }

  function Roots(categories: seq<Category>): seq<Category> {
    Filter(categories, IsRoot)
  }

  /** The categories whose parent is `id`, in input order. */
  function ChildrenOf(categories: seq<Category>, id: Id): seq<Category> {
    Filter(categories, (c: Category) => c.parentId == Some(id))
  }

  /** The items assigned to category `id`, in input order. */
  function ItemsOf(items: seq<Item>, id: Id): seq<Item> {
    Filter(items, (i: Item) => i.categoryId == Some(id))
  }

  function ChildNodeOf(child: Category, items: seq<Item>): ChildNode {
    ChildNode(child, ItemsOf(items, child.id))
  }

  function RootNodeOf(parent: Category, categories: seq<Category>, items: seq<Item>): RootNode {
    var kids := ChildrenOf(categories, parent.id);
    RootNode(parent, seq(|kids|, j requires 0 <= j < |kids| => ChildNodeOf(kids[j], items)), ItemsOf(items, parent.id))
  }

  /** The response `data`, from the category rows in `(pos, name)` order and
      the item rows in name order (the orderings are the queries'). */
  function MenuTree(categories: seq<Category>, allItems: seq<Item>): seq<RootNode> {
    var items := ActiveItems(allItems);
    var roots := Roots(categories);
    seq(|roots|, i requires 0 <= i < |roots| => RootNodeOf(roots[i], categories, items))
  }

  // ------------------------------------------------------------ views on a tree

  function RootCategories(tree: seq<RootNode>): seq<Category> {
    seq(|tree|, i requires 0 <= i < |tree| => tree[i].category)
  }

  function ChildCategories(node: RootNode): seq<Category> {
    seq(|node.children|, j requires 0 <= j < |node.children| => node.children[j].category)
  }

  /** A position in the tree: a root, or a child of a root. */
  datatype Address = RootAt(i: nat) | ChildAt(i: nat, j: nat)

  predicate ValidAddress(tree: seq<RootNode>, a: Address) {
    match a
    case RootAt(i) => i < |tree|
    case ChildAt(i, j) => i < |tree| && j < |tree[i].children|
  }

  function NodeCategory(tree: seq<RootNode>, a: Address): Category
    requires ValidAddress(tree, a)
  {
    match a
    case RootAt(i) => tree[i].category
    case ChildAt(i, j) => tree[i].children[j].category
  }

  function NodeItems(tree: seq<RootNode>, a: Address): seq<Item>
    requires ValidAddress(tree, a)
  {
    match a
    case RootAt(i) => tree[i].items
    case ChildAt(i, j) => tree[i].children[j].items
  }

  /** The item is listed under some node of the tree. */
  ghost predicate InTree(tree: seq<RootNode>, item: Item) {
    exists a :: ValidAddress(tree, a) && item in NodeItems(tree, a)
  }

  /** The category with id `id` is a root, or a direct child of a root. */
  predicate Placed(categories: seq<Category>, id: Id) {
    exists c :: c in categories && c.id == id &&
      (IsRoot(c) || exists p :: p in categories && IsRoot(p) && c.parentId == Some(p.id))
  }

  /** Category ids are unique (the table's primary key). */
  predicate UniqueIds(categories: seq<Category>) {
    UniqueBy(categories, (c: Category) => c.id)
  }

  // ---------------------------------------------------------------- properties

  /** The top level is exactly the parentless categories, in input order. */
  lemma TreeRoots(categories: seq<Category>, allItems: seq<Item>)
    ensures var tree := MenuTree(categories, allItems);
      && RootCategories(tree) == Roots(categories)
      && (forall c :: c in RootCategories(tree) <==> c in categories && IsRoot(c))
      && IsSubsequence(RootCategories(tree), categories)
  {
    var tree := MenuTree(categories, allItems);
    assert RootCategories(tree) == Roots(categories);
    FilterIsSubsequence(categories, IsRoot);
  }

  /** Under each root: exactly the categories whose parent is that root, in
      input order, each carrying exactly the active items of its own. */
  lemma TreeChildren(categories: seq<Category>, allItems: seq<Item>, i: nat)
    requires i < |MenuTree(categories, allItems)|
    ensures var node := MenuTree(categories, allItems)[i];
      && ChildCategories(node) == ChildrenOf(categories, node.category.id)
      && (forall c :: multiset(ChildCategories(node))[c] ==
            if c.parentId == Some(node.category.id) then multiset(categories)[c] else 0)
      && (forall c :: c in ChildCategories(node) <==>
            c in categories && c.parentId == Some(node.category.id))
      && IsSubsequence(ChildCategories(node), categories)
  {
    var node := MenuTree(categories, allItems)[i];
    ChildrenAre(categories, allItems, i);
    FilterIsSubsequence(categories, (c: Category) => c.parentId == Some(node.category.id));
    FilterCount(categories, (c: Category) => c.parentId == Some(node.category.id));
  }

  /** The child categories under the `i`-th root are the filter of the category
      rows by that root. */
  lemma ChildrenAre(categories: seq<Category>, allItems: seq<Item>, i: nat)
    requires i < |MenuTree(categories, allItems)|
    ensures var node := MenuTree(categories, allItems)[i];
      ChildCategories(node) == ChildrenOf(categories, node.category.id)
  {
    var node := MenuTree(categories, allItems)[i];
    assert ChildCategories(node) == ChildrenOf(categories, node.category.id);
  }

  /** Every node lists exactly the active items assigned to its own category,
      in the items' input (name) order. */
  lemma TreeItems(categories: seq<Category>, allItems: seq<Item>, a: Address)
    requires ValidAddress(MenuTree(categories, allItems), a)
    ensures var tree := MenuTree(categories, allItems);
      && NodeItems(tree, a) == ItemsOf(ActiveItems(allItems), NodeCategory(tree, a).id)
      && (forall it :: multiset(NodeItems(tree, a))[it] ==
            if it.active && it.categoryId == Some(NodeCategory(tree, a).id) then multiset(allItems)[it] else 0)
      && (forall it :: it in NodeItems(tree, a) <==>
            it in allItems && it.active && it.categoryId == Some(NodeCategory(tree, a).id))
      && IsSubsequence(NodeItems(tree, a), allItems)
  {
    var tree := MenuTree(categories, allItems);
    var active := ActiveItems(allItems);
    var id := NodeCategory(tree, a).id;
    assert NodeItems(tree, a) == ItemsOf(active, id);
    FilterIsSubsequence(active, (i: Item) => i.categoryId == Some(id));
    FilterIsSubsequence(allItems, (i: Item) => i.active);
    FilterCount(active, (i: Item) => i.categoryId == Some(id));
    FilterCount(allItems, (i: Item) => i.active);
    SubsequenceTransitive(NodeItems(tree, a), active, allItems);
  }

  /** An item appears in the tree exactly when it is active and its category is
      a root or a direct child of a root: inactive items, items without a
      category and items of deeper categories appear nowhere. */
  lemma ItemPlacement(categories: seq<Category>, allItems: seq<Item>, item: Item)
    ensures InTree(MenuTree(categories, allItems), item) <==>
      item in allItems && item.active && item.categoryId.Some? && Placed(categories, item.categoryId.value)
  {
    var tree := MenuTree(categories, allItems);
    if InTree(tree, item) {
      var a :| ValidAddress(tree, a) && item in NodeItems(tree, a);
      TreeItems(categories, allItems, a);
      NodePlaced(categories, allItems, a);
    }
    if item in allItems && item.active && item.categoryId.Some? && Placed(categories, item.categoryId.value) {
      var a := PlacedAddress(categories, allItems, item.categoryId.value);
      TreeItems(categories, allItems, a);
    }
  }

  /** Every node's category is placed. */
  lemma NodePlaced(categories: seq<Category>, allItems: seq<Item>, a: Address)
    requires ValidAddress(MenuTree(categories, allItems), a)
    ensures Placed(categories, NodeCategory(MenuTree(categories, allItems), a).id)
  {
    var tree := MenuTree(categories, allItems);
    var roots := Roots(categories);
    assert roots[a.i] in roots;
    if a.ChildAt? {
      ChildrenAre(categories, allItems, a.i);
      assert ChildCategories(tree[a.i])[a.j] in ChildCategories(tree[a.i]);
    }
  }

  /** Every placed category has a node in the tree. */
  lemma PlacedAddress(categories: seq<Category>, allItems: seq<Item>, id: Id) returns (a: Address)
    requires Placed(categories, id)
    ensures ValidAddress(MenuTree(categories, allItems), a)
    ensures NodeCategory(MenuTree(categories, allItems), a).id == id
  {
    var tree := MenuTree(categories, allItems);
    var roots := Roots(categories);
    var c :| c in categories && c.id == id &&
      (IsRoot(c) || exists p :: p in categories && IsRoot(p) && c.parentId == Some(p.id));
    if IsRoot(c) {
      assert c in roots;
      var i :| 0 <= i < |roots| && roots[i] == c;
      a := RootAt(i);
    } else {
      var p :| p in categories && IsRoot(p) && c.parentId == Some(p.id);
      assert p in roots;
      var i :| 0 <= i < |roots| && roots[i] == p;
      ChildrenAre(categories, allItems, i);
      assert c in ChildCategories(tree[i]);
      var j :| 0 <= j < |tree[i].children| && ChildCategories(tree[i])[j] == c;
      a := ChildAt(i, j);
    }
  }

  /** With unique, non-empty category ids no item is listed under two nodes:
      roots and children are disjoint and each category has one parent. */
  lemma ItemInOneNode(categories: seq<Category>, allItems: seq<Item>, item: Item, a: Address, b: Address)
    requires UniqueIds(categories)
    requires forall k :: 0 <= k < |categories| ==> categories[k].id != ""
    requires ValidAddress(MenuTree(categories, allItems), a) && ValidAddress(MenuTree(categories, allItems), b)
    requires item in NodeItems(MenuTree(categories, allItems), a) && item in NodeItems(MenuTree(categories, allItems), b)
    ensures a == b
  {
    var tree := MenuTree(categories, allItems);
    TreeItems(categories, allItems, a);
    TreeItems(categories, allItems, b);
    NodeFacts(categories, allItems, a);
    NodeFacts(categories, allItems, b);
    var ca, cb := NodeCategory(tree, a), NodeCategory(tree, b);
    assert ca.id == cb.id;
    SameIdSameCategory(categories, ca, cb);
    UniqueIdsDistinct(categories);
    FilterDistinct(categories, IsRoot);
    var roots := Roots(categories);
    if a.RootAt? && b.RootAt? {
      assert roots[a.i] == roots[b.i];
    } else if a.ChildAt? && b.ChildAt? {
      SameIdSameCategory(categories, roots[a.i], roots[b.i]);
      assert roots[a.i] == roots[b.i];
      var kids := ChildrenOf(categories, roots[a.i].id);
      FilterDistinct(categories, (c: Category) => c.parentId == Some(roots[a.i].id));
      assert kids[a.j] == ca && kids[b.j] == cb;
    }
  }

  // ------------------------------------------------------------------- helpers

  /** Where a node's category comes from: a root node holds the `i`-th root, a
      child node a category whose parent is the `i`-th root. */
  lemma NodeFacts(categories: seq<Category>, allItems: seq<Item>, a: Address)
    requires forall k :: 0 <= k < |categories| ==> categories[k].id != ""
    requires ValidAddress(MenuTree(categories, allItems), a)
    ensures var tree := MenuTree(categories, allItems);
      var roots := Roots(categories);
      && |tree| == |roots|
      && NodeCategory(tree, a) in categories
      && (IsRoot(NodeCategory(tree, a)) <==> a.RootAt?)
      && (a.RootAt? ==> NodeCategory(tree, a) == roots[a.i])
      && (a.ChildAt? ==>
            && NodeCategory(tree, a).parentId == Some(roots[a.i].id)
            && NodeCategory(tree, a) == ChildrenOf(categories, roots[a.i].id)[a.j])
  {
    var tree := MenuTree(categories, allItems);
    var roots := Roots(categories);
    assert roots[a.i] in roots;
    if a.ChildAt? {
      var kids := ChildrenOf(categories, roots[a.i].id);
      assert kids[a.j] in kids;
      assert roots[a.i].id != "" by {
        var k :| 0 <= k < |categories| && categories[k] == roots[a.i];
      }
    }
  }

  lemma SameIdSameCategory(categories: seq<Category>, x: Category, y: Category)
    requires UniqueIds(categories)
    requires x in categories && y in categories && x.id == y.id
    ensures x == y
  {
    var i :| 0 <= i < |categories| && categories[i] == x;
    var j :| 0 <= j < |categories| && categories[j] == y;
  }

  lemma UniqueIdsDistinct(categories: seq<Category>)
    requires UniqueIds(categories)
    ensures Distinct(categories)
  {
    forall i, j | 0 <= i < |categories| && 0 <= j < |categories| && categories[i] == categories[j]
      ensures i == j
    {
      assert categories[i].id == categories[j].id;
    }
  }
}
