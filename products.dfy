/** The `Product` record of `src/lib/products.ts`. Prices and stock are
    whole numbers here. */
module Products {
  import opened Wrappers

  datatype Product = Product(
    id: int,
    slug: string,
    name: string,
    description: string,
    price: int,
    category: string,
    image: string,
    isFeatured: bool,
    isActive: bool,
    stock: int,
    content: Option<string>)
}
