/** The catalog records of the shop (Category, SubCategory, Product) and the slug
    backfill that all three run when they are saved. Images, ordering and the
    database's uniqueness constraints on names and slugs are not modelled. */
module Catalog {

  /** Prices are decimals with at most 10 digits, 2 of them after the point.
      They are kept exactly, as a whole number of cents. */
  const MaxPriceCents: int := 9_999_999_999

  type Price = c: int | -MaxPriceCents <= c <= MaxPriceCents

  type CategoryId = int
  type SubCategoryId = int
  type ProductId = int

  /** Django's slugify: its implementation is not part of this model, so every
      operation that needs it takes it as a parameter. */
  type Slugify = string -> string

  datatype Category = Category(name: string, slug: string)

  datatype SubCategory = SubCategory(name: string, slug: string, category: CategoryId)

  datatype Product = Product(name: string, slug: string, subcategory: SubCategoryId, price: Price)

  /** The products that exist, by primary key. */
  type ProductTable = map<ProductId, Product>

  /** The slug a record is stored with: an empty slug is derived from the name,
      a non-empty one is kept as it is. */
  function BackfillSlug(name: string, slug: string, slugify: Slugify): (r: string)
    ensures slug != "" ==> r == slug
    ensures slug == "" ==> r == slugify(name)
    ensures r == "" ==> slugify(name) == ""
  {
    if slug == "" then slugify(name) else slug
  }

  /** Category.save: only the slug may change. */
  function SaveCategory(c: Category, slugify: Slugify): (r: Category)
    ensures r.name == c.name
    ensures r.slug == BackfillSlug(c.name, c.slug, slugify)
  {
    c.(slug := BackfillSlug(c.name, c.slug, slugify))
  }

  /** SubCategory.save: only the slug may change. */
  function SaveSubCategory(s: SubCategory, slugify: Slugify): (r: SubCategory)
    ensures r.name == s.name && r.category == s.category
    ensures r.slug == BackfillSlug(s.name, s.slug, slugify)
  {
    s.(slug := BackfillSlug(s.name, s.slug, slugify))
  }

  /** Product.save: only the slug may change. */
  function SaveProduct(p: Product, slugify: Slugify): (r: Product)
    ensures r.name == p.name && r.subcategory == p.subcategory && r.price == p.price
    ensures r.slug == BackfillSlug(p.name, p.slug, slugify)
  {
    p.(slug := BackfillSlug(p.name, p.slug, slugify))
  }

  /** Saving a second time changes nothing, for each of the three records. */
  lemma SaveIdempotent(c: Category, s: SubCategory, p: Product, slugify: Slugify)
    ensures SaveCategory(SaveCategory(c, slugify), slugify) == SaveCategory(c, slugify)
    ensures SaveSubCategory(SaveSubCategory(s, slugify), slugify) == SaveSubCategory(s, slugify)
    ensures SaveProduct(SaveProduct(p, slugify), slugify) == SaveProduct(p, slugify)
  {
  }

  /** Once a product has a slug, renaming it and saving again keeps that slug:
      the slug is never regenerated from the new name. */
  lemma RenameKeepsSlug(p: Product, newName: string, slugify: Slugify)
    requires SaveProduct(p, slugify).slug != ""
    ensures SaveProduct(SaveProduct(p, slugify).(name := newName), slugify).slug
         == SaveProduct(p, slugify).slug
  {
  }
}
