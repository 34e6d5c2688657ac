/** The catalogue product and `Document.toProduct()`, the defaulting decoder that
    builds a product from a product document's untyped field map (`Product.kt`). */
module ProductData {
  import opened Common

  /** A product; prices and discounts are abstract integers (the app uses `Float`). */
  datatype Product = Product(
    id: string,
    name: string,
    category: string,
    price: int,
    freeShipping: bool,
    stock: int,
    discount: Option<int>,
    description: Option<string>,
    details: Option<string>,
    colors: Option<seq<string>>,
    sizes: Option<seq<string>>,
    images: seq<string>)

  const UnknownName := "Unknown"
  const NoDescription := "No description"
  const Uncategorized := "Uncategorized"
  const NoDetails := "No details available"

  /** `data[key] as? String ?: default`. */
  function StringOr(data: Data, key: string, default: string): (r: string)
    ensures Field(data, key).Str? ==> r == Field(data, key).s
    ensures !Field(data, key).Str? ==> r == default
  {
    match Field(data, key)
    case Str(s) => s
    case _ => default
  }

  /** `(data[key] as? Number)`: the number, if the field holds one. */
  function NumberOf(data: Data, key: string): (r: Option<int>)
    ensures r.Some? <==> Field(data, key).Num?
    ensures r.Some? ==> r.value == Field(data, key).n
  {
    match Field(data, key)
    case Num(n) => Some(n)
    case _ => None
  }

  /** `(data[key] as? List<*>)?.filterIsInstance<String>() ?: emptyList()`. */
  function StringListOf(data: Data, key: string): (r: seq<string>)
    ensures Field(data, key).List? ==> r == StringsOf(Field(data, key).elems)
    ensures !Field(data, key).List? ==> r == []
  {
    match Field(data, key)
    case List(vs) => StringsOf(vs)
    case _ => []
  }

  /** `Document.toProduct()`: never fails; a missing or mistyped field takes its default. */
  function ToProduct(documentId: string, data: Data): (p: Product)
    ensures p.id == documentId
    ensures p.discount.Some? <==> Field(data, "discount").Num?
    ensures p.description.Some? && p.details.Some?
    ensures p.colors.Some? && p.sizes.Some?
  {
    Product(
      id := documentId,
      name := StringOr(data, "name", UnknownName),
      description := Some(StringOr(data, "description", NoDescription)),
      price := NumberOf(data, "price").GetOr(0),
      discount := NumberOf(data, "discount"),
      freeShipping := match Field(data, "freeShipping") case Bool(b) => b case _ => false,
      stock := NumberOf(data, "stock").GetOr(1),
      images := StringListOf(data, "images"),
      sizes := Some(StringListOf(data, "sizes")),
      colors := Some(StringListOf(data, "colors")),
      category := StringOr(data, "category", Uncategorized),
      details := Some(StringOr(data, "details", NoDetails)))
  }

  /** Every field of a document with nothing usable in it takes its documented default. */
  lemma ToProductDefaults(documentId: string, data: Data)
    requires forall k :: k in data ==> data[k] == Null
    ensures ToProduct(documentId, data) == Product(
      documentId, UnknownName, Uncategorized, 0, false, 1, None,
      Some(NoDescription), Some(NoDetails), Some([]), Some([]), [])
  {
  }

  /** The three list fields keep exactly the string elements, in order. */
  lemma ToProductStringLists(documentId: string, data: Data, key: string, ss: seq<string>)
    requires key in {"images", "sizes", "colors"}
    requires Field(data, key) == List(Strs(ss))
    ensures key == "images" ==> ToProduct(documentId, data).images == ss
    ensures key == "sizes" ==> ToProduct(documentId, data).sizes == Some(ss)
    ensures key == "colors" ==> ToProduct(documentId, data).colors == Some(ss)
  {
    StringsOfStrs(ss);
  }
}
