/** Rows of the `categories` and `items` tables (lib/db.ts). Prices are whole
    currency units: the venue prices in VND, which has no minor unit. */
module Catalog {
  import opened Common

  type Id = string

  /** A menu category. A category whose parent is absent (or empty) is a root;
      one whose parent names another category is a child of it. */
  datatype Category = Category(id: Id, name: string, parentId: Option<Id>, pos: int)

  /** A sellable item. Only active items are shown to customers or can be
      ordered. */
  datatype Item = Item(
    id: Id,
    name: string,
    description: string,
    imageUrl: string,
    categoryId: Option<Id>,
    salePrice: int,
    costPrice: int,
    active: bool)
}
