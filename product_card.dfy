/** `src/components/Product/ProductCard.tsx`: the card's link, its badges
    and its stock line, all derived from the product alone. */
module ProductCard {
  import opened Text
  import opened Products

  const ProductPath: string := "/produk/"

  /** The card links to the product's detail page. */
  function Href(p: Product): (r: string)
    ensures StartsWith(r, ProductPath) && r[|ProductPath|..] == p.slug
  {
    var r := ProductPath + p.slug;
    assert r[..|ProductPath|] == ProductPath;
    r
  }

  /** The badges stacked over the image, top to bottom. */
  datatype Badge = Featured | LimitedStock | SoldOut

  /** The badges a product gets: featured when flagged, limited stock for 1
      to 5 pieces, sold out for exactly none; featured comes first and the
      two stock badges never appear together. */
  function Badges(p: Product): (r: seq<Badge>)
    ensures Featured in r <==> p.isFeatured
    ensures LimitedStock in r <==> 0 < p.stock <= 5
    ensures SoldOut in r <==> p.stock == 0
    ensures |r| == (if p.isFeatured then 1 else 0) + (if 0 <= p.stock <= 5 then 1 else 0)
    ensures p.isFeatured ==> r[0] == Featured
  {
    (if p.isFeatured then [Featured] else [])
    + (if p.stock <= 5 && p.stock > 0 then [LimitedStock] else [])
    + (if p.stock == 0 then [SoldOut] else [])
  }

  /** The colour of the stock dot. */
  function StockDot(p: Product): string {
    if p.stock > 0 then "bg-emerald-400" else "bg-rose-400"
  }

  /** The stock line, with `t` the current translation function: the
      stock label and the count in decimal, or the sold-out text. */
  function StockLabel(t: string -> string, p: Product): (r: string)
    ensures p.stock > 0 ==> r == t("products.stock") + ": " + NatToString(p.stock)
    ensures p.stock <= 0 ==> r == t("products.sold_out")
  {
    if p.stock > 0 then t("products.stock") + ": " + IntToString(p.stock) else t("products.sold_out")
  }

  /** With stock, what follows the label reads back as the stock; without,
      the line is the sold-out text and the dot turns red. */
  lemma StockLabelShowsCount(t: string -> string, p: Product)
    ensures p.stock > 0 ==> DigitsValue(StockLabel(t, p)[|t("products.stock") + ": "|..]) == p.stock
    ensures p.stock <= 0 <==> StockLabel(t, p) == t("products.sold_out") && StockDot(p) == "bg-rose-400"
  {
    if p.stock > 0 {
      var head, n := t("products.stock") + ": ", NatToString(p.stock);
      assert StockLabel(t, p) == head + n;
      assert (head + n)[|head|..] == n;
      NatToStringValue(p.stock);
    }
  }

  /** A negative stock shows no stock badge, but the line still says sold
      out. */
  lemma NegativeStock(t: string -> string, p: Product)
    requires p.stock < 0
    ensures LimitedStock !in Badges(p) && SoldOut !in Badges(p)
    ensures StockLabel(t, p) == t("products.sold_out")
  {
  }
}
