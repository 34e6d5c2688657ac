/** Cart lines and their identity: the stored `CartItem`, the displayed
    `CartProduct`, and `generateItemKey`, which the cart view model and the
    cart repository define identically (`Cart.kt`, `CartViewModel.kt`,
    `CartRepository.kt`). */
module CartData {
  import opened Common
  import opened Text
  import opened ProductData
  import opened Ledger

  /** A persisted cart line, one JSON string per line in the cart document. */
  datatype CartItem = CartItem(
    productId: string,
    quantity: int,
    selectedSize: Option<string>,
    selectedColor: Option<string>)

  /** A displayed cart line: the stored line joined with its product. */
  datatype CartProduct = CartProduct(
    product: Product,
    quantity: int,
    selectedSize: Option<string>,
    selectedColor: Option<string>)

  /** The carts' result type (`CartOperation`). */
  datatype CartOperation =
    | Loading
    | Success(items: seq<CartItem>)
    | Error(message: string)

  /** Kotlin's `String?.orEmpty()`. */
  function OrEmpty(s: Option<string>): (r: string)
    ensures s.None? ==> r == ""
    ensures s.Some? ==> r == s.value
  {
    match s
    case Some(v) => v
    case None => ""
  }

  /** `generateItemKey(productId, size, color)`: the three parts joined by `-`,
      a missing size or colour written as the empty string. */
  function ItemKey(productId: string, size: Option<string>, color: Option<string>): string {
    productId + "-" + OrEmpty(size) + "-" + OrEmpty(color)
  }

  /** When no part holds a `-`, splitting the key on `-` recovers the parts. */
  lemma ItemKeySplits(productId: string, size: Option<string>, color: Option<string>)
    requires '-' !in productId && '-' !in OrEmpty(size) && '-' !in OrEmpty(color)
    ensures Split(ItemKey(productId, size, color), '-') == [productId, OrEmpty(size), OrEmpty(color)]
  {
    var s, c := OrEmpty(size), OrEmpty(color);
    assert ItemKey(productId, size, color) == productId + ['-'] + (s + ['-'] + c);
    SplitAt(productId, '-', s + ['-'] + c);
    SplitAt(s, '-', c);
    SplitWithout(c, '-');
  }

  /** The key of a stored line. */
  function KeyOfItem(it: CartItem): string {
    ItemKey(it.productId, it.selectedSize, it.selectedColor)
  }

  /** `CartItem.copy(quantity = q)`. */
  function ItemWithQuantity(it: CartItem, q: int): CartItem {
    it.(quantity := q)
  }

  /** The key of a displayed line; it uses the product's id. */
  function KeyOfLine(line: CartProduct): string {
    ItemKey(line.product.id, line.selectedSize, line.selectedColor)
  }

  /** `CartProduct.copy(quantity = q)`. */
  function LineWithQuantity(line: CartProduct, q: int): CartProduct {
    line.(quantity := q)
  }

  /** A missing size or colour and an empty one give the same key. */
  lemma ItemKeyNormalises(productId: string, size: Option<string>, color: Option<string>)
    ensures ItemKey(productId, None, color) == ItemKey(productId, Some(""), color)
    ensures ItemKey(productId, size, None) == ItemKey(productId, size, Some(""))
  {
  }

  /** For parts without `-`, equal keys mean equal parts (up to missing = empty). */
  lemma ItemKeyInjective(p1: string, s1: Option<string>, c1: Option<string>,
                         p2: string, s2: Option<string>, c2: Option<string>)
    requires '-' !in p1 && '-' !in OrEmpty(s1) && '-' !in OrEmpty(c1)
    requires '-' !in p2 && '-' !in OrEmpty(s2) && '-' !in OrEmpty(c2)
    requires ItemKey(p1, s1, c1) == ItemKey(p2, s2, c2)
    ensures p1 == p2 && OrEmpty(s1) == OrEmpty(s2) && OrEmpty(c1) == OrEmpty(c2)
  {
    ItemKeySplits(p1, s1, c1);
    ItemKeySplits(p2, s2, c2);
  }

  /** With a `-` inside a part, two different lines share one key: product "a-b"
      with no size and product "a" with size "b-" both give "a-b--". */
  lemma ItemKeyCollides()
    ensures CartItem("a-b", 1, None, None) != CartItem("a", 1, Some("b-"), None)
    ensures KeyOfItem(CartItem("a-b", 1, None, None)) == KeyOfItem(CartItem("a", 1, Some("b-"), None))
  {
  }

  /** A stored line and its displayed line have the same key: both layers use one key function. */
  lemma KeysAgree(p: Product, q: int, size: Option<string>, color: Option<string>)
    ensures KeyOfLine(CartProduct(p, q, size, color)) == KeyOfItem(CartItem(p.id, q, size, color))
  {
  }

  /** `copy(quantity = q)` keeps the key and is idempotent, on both line types. */
  lemma QuantityLaws()
    ensures QtyLaws(KeyOfItem, ItemWithQuantity)
    ensures QtyLaws(KeyOfLine, LineWithQuantity)
  {
  }
}
