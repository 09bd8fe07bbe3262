/** `src/lib/products.server.ts`: products loaded from the content
    directory, of which only the active ones are kept, and the accessors
    built on them. */
module ProductsServer {
  import opened Wrappers
  import opened Seqs
  import opened Content
  import opened Products

  /** `{ ...data, content }`: the body wins over any front-matter
      `content`. */
  function Load(f: File<Product>): (r: Product)
    ensures r.content == Some(f.body)
    ensures r.(content := f.data.content) == f.data
  {
    f.data.(content := Some(f.body))
  }

  function IsActive(p: Product): bool {
    p.isActive
  }

  /** Every markdown file of the listing, loaded, before the active filter. */
  function LoadedProducts(dir: Option<seq<File<Product>>>): (r: seq<Product>)
    ensures dir.None? ==> r == []
    ensures |r| == |MarkdownFiles(dir)|
    ensures forall i :: 0 <= i < |r| ==> r[i] == Load(MarkdownFiles(dir)[i])
  {
    Map(MarkdownFiles(dir), Load)
  }

  /** `getAllProductsServer`: the loaded products that are active. */
  function GetAllProducts(dir: Option<seq<File<Product>>>): (r: seq<Product>)
    ensures dir.None? ==> r == []
    ensures forall i :: 0 <= i < |r| ==> r[i].isActive
    ensures forall p :: p in LoadedProducts(dir) && p.isActive ==> p in r
    ensures forall p :: p in r ==> p in LoadedProducts(dir)
  {
    Filter(LoadedProducts(dir), IsActive)
  }

  /** The active products keep listing order. */
  lemma ProductsKeepOrder(dir: Option<seq<File<Product>>>)
    ensures IsSubsequence(GetAllProducts(dir), LoadedProducts(dir))
  {
    FilterIsSubsequence(LoadedProducts(dir), IsActive);
  }

  /** A further file adds a product at the end exactly when its name ends in
      ".md" and its front matter marks it active. */
  lemma GetAllProductsAppend(files: seq<File<Product>>, f: File<Product>)
    ensures GetAllProducts(Some(files + [f])) ==
            if IsMarkdown(f) && f.data.isActive then GetAllProducts(Some(files)) + [Load(f)]
            else GetAllProducts(Some(files))
  {
    MarkdownFilesAppend(files, f);
    var before := LoadedProducts(Some(files));
    if IsMarkdown(f) {
      assert LoadedProducts(Some(files + [f])) == before + [Load(f)];
      FilterAppend(before, [Load(f)], IsActive);
      assert [Load(f)][1..] == [];
    } else {
      assert LoadedProducts(Some(files + [f])) == before;
    }
  }

  function HasSlug(slug: string): Product -> bool {
    (p: Product) => p.slug == slug
  }

  /** `getProductBySlugServer`: the first active product with the slug. */
  function GetProductBySlug(dir: Option<seq<File<Product>>>, slug: string): (r: Option<Product>)
    ensures r.Some? ==> r.value in GetAllProducts(dir) && r.value.slug == slug && r.value.isActive
    ensures r.None? <==> forall p :: p in GetAllProducts(dir) ==> p.slug != slug
  {
    Find(GetAllProducts(dir), HasSlug(slug))
  }

  /** The product found is the first active product with the slug. */
  lemma ProductBySlugIsFirst(dir: Option<seq<File<Product>>>, slug: string, i: int)
    requires 0 <= i < |GetAllProducts(dir)| && GetAllProducts(dir)[i].slug == slug
    ensures GetProductBySlug(dir, slug).Some?
    ensures exists j :: 0 <= j <= i && GetAllProducts(dir)[j] == GetProductBySlug(dir, slug).value &&
                        forall k :: 0 <= k < j ==> GetAllProducts(dir)[k].slug != slug
  {
    var all := GetAllProducts(dir);
    var j := FindIsFirst(all, HasSlug(slug), i);
    assert all[j] == GetProductBySlug(dir, slug).value;
    assert forall k :: 0 <= k < j ==> all[k].slug != slug by {
      forall k | 0 <= k < j ensures all[k].slug != slug { assert !HasSlug(slug)(all[k]); }
    }
  }

  /** A slug that only inactive products carry is not found. */
  lemma InactiveProductNotFound(dir: Option<seq<File<Product>>>, slug: string)
    requires forall p :: p in LoadedProducts(dir) && p.slug == slug ==> !p.isActive
    ensures GetProductBySlug(dir, slug).None?
  {
  }

  /** `getAllProductSlugsServer`: the slugs of the active products, in
      order. */
  function GetAllProductSlugs(dir: Option<seq<File<Product>>>): (r: seq<string>)
    ensures |r| == |GetAllProducts(dir)|
    ensures forall i :: 0 <= i < |r| ==> r[i] == GetAllProducts(dir)[i].slug
  {
    Map(GetAllProducts(dir), (p: Product) => p.slug)
  }

  /** A slug is listed iff looking it up finds a product. */
  lemma SlugListedIffFound(dir: Option<seq<File<Product>>>, slug: string)
    ensures slug in GetAllProductSlugs(dir) <==> GetProductBySlug(dir, slug).Some?
  {
    var all, slugs := GetAllProducts(dir), GetAllProductSlugs(dir);
    if slug in slugs {
      var i :| 0 <= i < |slugs| && slugs[i] == slug;
      assert all[i] in all;
    }
    if GetProductBySlug(dir, slug).Some? {
      var p := GetProductBySlug(dir, slug).value;
      var i :| 0 <= i < |all| && all[i] == p;
      assert slugs[i] == slug;
    }
  }
}
