/** The admin screen's product form (`AdminViewModel.kt`): field setters that
    validate or clamp what they are given, the colour and image lists, and
    `saveProduct`, which uploads the images through the product repository and
    stores the new product. Amounts are exact hundredths here (the app parses
    them into a `Float`). */
module AdminVm {
  import opened Common
  import opened Text
  import opened ProductData
  import ProductRepo

  /** `UiState<Unit>`. */
  datatype UiState = Idle | Loading | Success | Error(message: string)

  /** `Result<Unit>` as `saveProduct` returns it. */
  datatype SaveResult = Saved | SaveFailed(message: string)

  /** `AdminViewModel.ColorInfo`. */
  datatype ColorInfo = ColorInfo(name: string, hexCode: string)

  /** How `repository.compressImages` ended: one JPEG per selected image, or an
      exception while decoding one of them. */
  datatype Compression = Compressed(images: seq<seq<bv8>>) | CompressThrew(message: Option<string>)

  // ----- Amounts: `^\d+(\.\d{0,2})?$` -----------------------------------------

  /** The length of the run of digits that starts `s`. */
  function DigitRun(s: string): (n: nat)
    ensures n <= |s| && AllDigits(s[..n])
    ensures n < |s| ==> !IsDigit(s[n])
  {
    if s == [] || !IsDigit(s[0]) then 0
    else
      var n := 1 + DigitRun(s[1..]);
      assert s[..n] == [s[0]] + s[1..][..n - 1];
      n
  }

  /** A digit prefix followed by the end or a non-digit is the digit run. */
  lemma {:induction false} DigitRunIs(s: string, i: nat)
    requires i <= |s| && AllDigits(s[..i]) && (i == |s| || !IsDigit(s[i]))
    ensures DigitRun(s) == i
  {
    if i > 0 {
      assert s[..i][0] == s[0];
      assert s[1..][..i - 1] == s[..i][1..];
      DigitRunIs(s[1..], i - 1);
    }
  }

  /** The regular expression read positionally: one or more digits end at `i`,
      then either the end, or a '.' and at most two digits. */
  predicate AmountSplitAt(s: string, i: nat)
    requires i <= |s|
  {
    1 <= i && AllDigits(s[..i])
    && (i == |s| || (s[i] == '.' && |s| - i - 1 <= 2 && AllDigits(s[i + 1..])))
  }

  /** `s.matches(Regex("^\\d+(\\.\\d{0,2})?$"))`. */
  ghost predicate MatchesAmountPattern(s: string) {
    exists i: nat :: i <= |s| && AmountSplitAt(s, i)
  }

  /** The acceptor the setters use: the pattern checked in one scan. */
  predicate AcceptsAmount(s: string) {
    var n := DigitRun(s);
    n >= 1 && (n == |s| || (s[n] == '.' && |s| - n - 1 <= 2 && AllDigits(s[n + 1..])))
  }

  /** The scan accepts exactly the strings the regular expression matches. */
  lemma AcceptsAmountIffPattern(s: string)
    ensures AcceptsAmount(s) <==> MatchesAmountPattern(s)
  {
    if AcceptsAmount(s) {
      assert AmountSplitAt(s, DigitRun(s));
    }
    if MatchesAmountPattern(s) {
      var i: nat :| i <= |s| && AmountSplitAt(s, i);
      DigitRunIs(s, i);
    }
  }

  /** An accepted amount's value in hundredths: "12" is 1200, "12.5" 1250,
      "12." 1200, "0.05" 5. */
  function Hundredths(s: string): (v: nat)
    requires AcceptsAmount(s)
  {
    var n := DigitRun(s);
    var whole := DigitsValue(s[..n]);
    var fraction := if n == |s| then "" else s[n + 1..];
    whole * 100
    + (if |fraction| == 0 then 0
       else if |fraction| == 1 then 10 * DigitsValue(fraction)
       else DigitsValue(fraction))
  }

  /** `toFloatOrNull()` on what the setters let through: empty text has no value. */
  function AmountOrNull(s: string): (r: Option<nat>)
    ensures r.Some? <==> AcceptsAmount(s)
    ensures s == "" ==> r.None?
  {
    if AcceptsAmount(s) then Some(Hundredths(s)) else None
  }

  /** Two decimal digits. */
  function TwoDigits(n: nat): (r: string)
    requires n < 100
  {
    ['0' + (n / 10) as char, '0' + (n % 10) as char]
  }

  /** An amount written with two decimals, as a price is shown. */
  function FormatHundredths(v: nat): string {
    NatToString(v / 100) + "." + TwoDigits(v % 100)
  }

  /** Every amount written with two decimals is accepted and reads back as itself. */
  lemma FormattedAmountReadsBack(v: nat)
    ensures AcceptsAmount(FormatHundredths(v))
    ensures Hundredths(FormatHundredths(v)) == v
  {
    var w, f := NatToString(v / 100), TwoDigits(v % 100);
    var s := w + "." + f;
    assert s[..|w|] == w;
    DigitRunIs(s, |w|);
    assert s[|w| + 1..] == f;
    assert f[..1] == [f[0]];
    assert DigitsValue([f[0]]) == (v % 100) / 10 by {
      assert [f[0]][..0] == [];
    }
  }

  // ----- Lists ----------------------------------------------------------------

  /** The index of the first occurrence of `x`, or -1. */
  function IndexOf<T(==)>(s: seq<T>, x: T): (i: int)
    ensures -1 <= i < |s|
    ensures i == -1 <==> x !in s
    ensures i >= 0 ==> s[i] == x && x !in s[..i]
  {
    if s == [] then -1
    else if s[0] == x then 0
    else
      var j := IndexOf(s[1..], x);
      if j == -1 then -1
      else
        assert s[..j + 1] == [s[0]] + s[1..][..j];
        j + 1
  }

  /** Kotlin's `list - x` and `MutableList.remove(x)`: drop the first occurrence
      of `x`, if any. */
  function WithoutFirst<T(==)>(s: seq<T>, x: T): (r: seq<T>)
    ensures x !in s ==> r == s
    ensures x in s ==> |r| == |s| - 1
    ensures multiset(r) == multiset(s) - multiset{x}
  {
    var i := IndexOf(s, x);
    if i == -1 then s
    else
      var before, after := s[..i], s[i + 1..];
      assert s == before + [x] + after;
      assert multiset(s) == multiset(before) + multiset{x} + multiset(after);
      assert multiset(before + after) == multiset(before) + multiset(after);
      before + after
  }

  /** An element appended to a list without it is first found at the end. */
  lemma {:induction false} IndexOfAppendAbsent<T>(s: seq<T>, x: T)
    requires x !in s
    ensures IndexOf(s + [x], x) == |s|
  {
    if s != [] {
      assert s[0] in s;
      assert (s + [x])[1..] == s[1..] + [x];
      IndexOfAppendAbsent(s[1..], x);
    }
  }

  /** Removing what was just appended, when it was not there before, restores the list. */
  lemma RemoveAfterAppend<T>(s: seq<T>, x: T)
    requires x !in s
    ensures WithoutFirst(s + [x], x) == s
  {
    IndexOfAppendAbsent(s, x);
    assert (s + [x])[..|s|] == s;
  }

  /** Removing keeps the order of what is left: the entries before the first
      occurrence, then those after it. */
  lemma RemoveKeepsOrder<T>(s: seq<T>, x: T)
    requires x in s
    ensures var i := IndexOf(s, x);
            WithoutFirst(s, x) == s[..i] + s[i + 1..] && x !in s[..i]
  {
  }

  /** Removing an item listed twice leaves its later copy in place. */
  lemma RemoveKeepsLaterCopies<T>(s: seq<T>, x: T)
    requires multiset(s)[x] >= 2
    ensures x in WithoutFirst(s, x)
  {
    assert multiset(WithoutFirst(s, x))[x] == multiset(s)[x] - 1;
  }

  predicate NoDuplicates<T(==)>(s: seq<T>) {
    forall i, j :: 0 <= i < j < |s| ==> s[i] != s[j]
  }

  /** Removing from a list without duplicates leaves one without duplicates. */
  lemma RemoveKeepsNoDuplicates<T>(s: seq<T>, x: T)
    requires NoDuplicates(s)
    ensures NoDuplicates(WithoutFirst(s, x))
  {
    if x in s {
      var i, r := IndexOf(s, x), WithoutFirst(s, x);
      assert r == s[..i] + s[i + 1..];
      assert forall p :: 0 <= p < i ==> r[p] == s[p];
      assert forall p :: i <= p < |r| ==> r[p] == s[p + 1];
      forall p, q | 0 <= p < q < |r|
        ensures r[p] != r[q]
      {
        if q < i {
          assert r[p] == s[p] && r[q] == s[q];
        } else if p < i {
          assert r[p] == s[p] && r[q] == s[q + 1];
        } else {
          assert r[p] == s[p + 1] && r[q] == s[q + 1];
        }
      }
    }
  }

  // ----- Sizes and colours ----------------------------------------------------

  /** `filter { it.isNotEmpty() }`. */
  function NonEmptyOnly(ss: seq<string>): (r: seq<string>)
    ensures forall k :: 0 <= k < |r| ==> r[k] != [] && r[k] in ss
    ensures forall x :: multiset(r)[x] == if x == [] then 0 else multiset(ss)[x]
  {
    if ss == [] then []
    else
      assert multiset(ss) == multiset([ss[0]]) + multiset(ss[1..]) by {
        assert ss == [ss[0]] + ss[1..];
      }
      if ss[0] == [] then NonEmptyOnly(ss[1..])
      else [ss[0]] + NonEmptyOnly(ss[1..])
  }

  /** `map { it.trim() }`. */
  function TrimAll(ss: seq<string>): (r: seq<string>)
    ensures |r| == |ss|
    ensures forall k :: 0 <= k < |ss| ==> r[k] == Trim(ss[k])
  {
    seq(|ss|, k requires 0 <= k < |ss| => Trim(ss[k]))
  }

  /** A size as the product stores it: not empty, no ',' and nothing to trim. */
  predicate CleanSize(size: string) {
    size != [] && ',' !in size && !IsWhitespace(size[0]) && !IsWhitespace(size[|size| - 1])
  }

  /** Trimming comma-free parts leaves comma-free parts with nothing more to trim. */
  lemma TrimmedPartsClean(parts: seq<string>)
    requires forall k :: 0 <= k < |parts| ==> ',' !in parts[k]
    ensures forall x :: x in TrimAll(parts) && x != [] ==> CleanSize(x)
  {
    var trimmed := TrimAll(parts);
    forall x | x in trimmed && x != []
      ensures CleanSize(x)
    {
      var k :| 0 <= k < |trimmed| && trimmed[k] == x;
      assert x == Trim(parts[k]);
      TrimOfTrimmed(x);
    }
  }

  /** The sizes `saveProduct` stores: the text split on ',', each part trimmed,
      the empty parts dropped. */
  function ParseSizes(text: string): (r: seq<string>)
    ensures forall size :: size in r ==> CleanSize(size)
  {
    var parts := Split(text, ',');
    TrimmedPartsClean(parts);
    NonEmptyOnly(TrimAll(parts))
  }

  /** Sizes typed as a list: `joinToString(",")`. */
  function JoinSizes(sizes: seq<string>): string {
    if sizes == [] then ""
    else if |sizes| == 1 then sizes[0]
    else sizes[0] + "," + JoinSizes(sizes[1..])
  }

  /** Comma-free parts joined by ',' split back into those parts. */
  lemma {:induction false} SplitJoinSizes(sizes: seq<string>)
    requires |sizes| >= 1 && forall k :: 0 <= k < |sizes| ==> ',' !in sizes[k]
    ensures Split(JoinSizes(sizes), ',') == sizes
  {
    if |sizes| == 1 {
      SplitWithout(sizes[0], ',');
    } else {
      var rest := JoinSizes(sizes[1..]);
      SplitJoinSizes(sizes[1..]);
      SplitAt(sizes[0], ',', rest);
      assert JoinSizes(sizes) == sizes[0] + [','] + rest;
      assert [sizes[0]] + sizes[1..] == sizes;
    }
  }

  /** A list without empty parts loses nothing to the filter. */
  lemma {:induction false} NonEmptyOnlyOfNonEmpty(ss: seq<string>)
    requires forall k :: 0 <= k < |ss| ==> ss[k] != []
    ensures NonEmptyOnly(ss) == ss
  {
    if ss != [] {
      NonEmptyOnlyOfNonEmpty(ss[1..]);
      assert [ss[0]] + ss[1..] == ss;
    }
  }

  /** Parts with nothing to trim are left as they are. */
  lemma TrimAllOfClean(sizes: seq<string>)
    requires forall k :: 0 <= k < |sizes| ==> CleanSize(sizes[k])
    ensures TrimAll(sizes) == sizes
  {
    forall k | 0 <= k < |sizes| ensures TrimAll(sizes)[k] == sizes[k] {
      TrimOfTrimmed(sizes[k]);
    }
  }

  /** Clean sizes typed as a comma-separated list are parsed into exactly
      those sizes, in order. */
  lemma ParseJoinedSizes(sizes: seq<string>)
    requires forall k :: 0 <= k < |sizes| ==> CleanSize(sizes[k])
    ensures ParseSizes(JoinSizes(sizes)) == sizes
  {
    var text := JoinSizes(sizes);
    if sizes == [] {
      ParseEmpty();
    } else {
      var parts := Split(text, ',');
      SplitJoinSizes(sizes);
      assert parts == sizes;
      TrimAllOfClean(sizes);
      NonEmptyOnlyOfNonEmpty(sizes);
      assert ParseSizes(text) == NonEmptyOnly(TrimAll(parts));
    }
  }

  /** An empty sizes text gives no sizes. */
  lemma ParseEmpty()
    ensures ParseSizes("") == []
  {
    assert Split("", ',') == [[]];
    assert TrimAll([[]]) == [[]];
    assert NonEmptyOnly([[]]) == [];
  }

  /** `SizeChips`' reading of one stored entry. */
  function EntrySizes(entry: string): seq<string> {
    NonEmptyOnly(TrimAll(Split(entry, ',')))
  }

  /** `SizeChips`' reading of a stored size list: every entry split on ',' and
      trimmed, the empty parts dropped. */
  function ChipSizes(sizes: seq<string>): seq<string> {
    if sizes == [] then []
    else EntrySizes(sizes[0]) + ChipSizes(sizes[1..])
  }

  /** A clean size is read back as itself alone. */
  lemma CleanSizeChip(size: string)
    requires CleanSize(size)
    ensures EntrySizes(size) == [size]
  {
    SplitWithout(size, ',');
    TrimOfTrimmed(size);
    var t := Trim(size);
    assert TrimAll([size]) == [t];
    assert NonEmptyOnly([t]) == [t] by {
      assert [t][1..] == [];
    }
  }

  /** Sizes that are trimmed, non-empty and comma-free are read back unchanged. */
  lemma {:induction false} ChipSizesOfClean(sizes: seq<string>)
    requires forall size :: size in sizes ==> CleanSize(size)
    ensures ChipSizes(sizes) == sizes
  {
    if sizes != [] {
      var head, tail := sizes[0], sizes[1..];
      CleanSizeChip(head);
      assert forall size :: size in tail ==> size in sizes;
      ChipSizesOfClean(tail);
      assert ChipSizes(sizes) == EntrySizes(head) + ChipSizes(tail);
      assert sizes == [head] + tail;
    }
  }

  /** The product page shows exactly the sizes the form parsed. */
  lemma ParsedSizesReadBack(text: string)
    ensures ChipSizes(ParseSizes(text)) == ParseSizes(text)
  {
    ChipSizesOfClean(ParseSizes(text));
  }

  /** A colour as it is stored: `"${name}:${hexCode}"`. */
  function EncodeColor(c: ColorInfo): string {
    c.name + ":" + c.hexCode
  }

  /** `ColorCircles`' reading of a stored colour: the first two parts of the
      string split on ':'; with fewer than two parts the app throws. */
  function DecodeColor(s: string): (r: Option<ColorInfo>)
  {
    var parts := Split(s, ':');
    if |parts| < 2 then None else Some(ColorInfo(parts[0], parts[1]))
  }

  /** A colour whose name and code have no ':' decodes back to itself; with a
      ':' only in the code, the name still survives. */
  lemma ColorReadsBack(c: ColorInfo)
    requires ':' !in c.name
    ensures DecodeColor(EncodeColor(c)).Some?
    ensures DecodeColor(EncodeColor(c)).value.name == c.name
    ensures ':' !in c.hexCode ==> DecodeColor(EncodeColor(c)) == Some(c)
  {
    SplitAt(c.name, ':', c.hexCode);
    if ':' !in c.hexCode {
      SplitWithout(c.hexCode, ':');
    }
  }

  /** A ':' in a colour's name cuts the name short when it is read back:
      "Sea:Blue" with code "#06F" reads back as "Sea" with code "Blue". */
  lemma ColonInNameIsMisread(first: string, second: string, hexCode: string)
    requires ':' !in first && ':' !in second
    ensures DecodeColor(EncodeColor(ColorInfo(first + ":" + second, hexCode)))
            == Some(ColorInfo(first, second))
  {
    var rest := second + ":" + hexCode;
    assert EncodeColor(ColorInfo(first + ":" + second, hexCode)) == first + [':'] + rest;
    SplitAt(first, ':', rest);
    assert rest == second + [':'] + hexCode;
    SplitAt(second, ':', hexCode);
  }

  /** `selectedColors.map { "${it.name}:${it.hexCode}" }`. */
  function EncodeColors(cs: seq<ColorInfo>): (r: seq<string>)
    ensures |r| == |cs| && forall k :: 0 <= k < |r| ==> r[k] == EncodeColor(cs[k])
  {
    if cs == [] then [] else [EncodeColor(cs[0])] + EncodeColors(cs[1..])
  }

  /** `ColorCircles`' reading of a product's colours; None where the app throws. */
  function DecodeColors(ss: seq<string>): Option<seq<ColorInfo>> {
    if ss == [] then Some([])
    else match (DecodeColor(ss[0]), DecodeColors(ss[1..]))
      case (Some(c), Some(rest)) => Some([c] + rest)
      case _ => None
  }

  /** Colours without ':' in name or code read back as the list that was chosen. */
  lemma {:induction false} ColorsReadBack(cs: seq<ColorInfo>)
    requires forall k :: 0 <= k < |cs| ==> ':' !in cs[k].name && ':' !in cs[k].hexCode
    ensures DecodeColors(EncodeColors(cs)) == Some(cs)
  {
    if cs != [] {
      ColorReadsBack(cs[0]);
      assert forall k :: 0 <= k < |cs| - 1 ==> cs[1..][k] == cs[k + 1];
      ColorsReadBack(cs[1..]);
      assert EncodeColors(cs)[1..] == EncodeColors(cs[1..]);
      assert cs == [cs[0]] + cs[1..];
    }
  }

  /** `text.takeIf { it.isNotBlank() }`. */
  function UnlessBlank(text: string): (r: Option<string>)
    ensures r.None? <==> IsBlank(text)
    ensures r.Some? ==> r.value == text
  {
    if IsBlank(text) then None else Some(text)
  }

  class AdminViewModel {
    const repository: ProductRepo.ProductRepository
    var productName: string
    var price: string
    var stock: int
    var freeShipping: bool
    var discount: string
    var description: string
    var details: string
    var category: string
    /** The picked image URIs. */
    var selectedImages: seq<string>
    var selectedColors: seq<ColorInfo>
    var sizes: string
    var uiState: UiState

    /** What the setters guarantee about the form. */
    predicate Valid()
      reads this
    {
      && (price == "" || AcceptsAmount(price))
      && (discount == "" || AcceptsAmount(discount))
      && stock >= 1
      && NoDuplicates(selectedColors)
    }

    constructor (repository: ProductRepo.ProductRepository)
      ensures Valid() && this.repository == repository
      ensures productName == "" && price == "" && stock == 1 && !freeShipping && discount == ""
      ensures description == "" && details == "" && category == "" && selectedImages == []
      ensures selectedColors == [] && sizes == "" && uiState == Idle
    {
      this.repository := repository;
      productName := "";
      price := "";
      stock := 1;
      freeShipping := false;
      discount := "";
      description := "";
      details := "";
      category := "";
      selectedImages := [];
      selectedColors := [];
      sizes := "";
      uiState := Idle;
    }

    /** `addColor(colorInfo)`: append unless already chosen. */
    method AddColor(colorInfo: ColorInfo)
      requires Valid()
      modifies this`selectedColors
      ensures Valid()
      ensures selectedColors == if colorInfo in old(selectedColors) then old(selectedColors)
                                else old(selectedColors) + [colorInfo]
    {
      if colorInfo !in selectedColors {
        selectedColors := selectedColors + [colorInfo];
      }
    }

    /** `removeColor(colorInfo)`. */
    method RemoveColor(colorInfo: ColorInfo)
      requires Valid()
      modifies this`selectedColors
      ensures Valid()
      ensures selectedColors == WithoutFirst(old(selectedColors), colorInfo)
    {
      RemoveKeepsNoDuplicates(selectedColors, colorInfo);
      selectedColors := WithoutFirst(selectedColors, colorInfo);
    }

    /** `updateSizes(newSizes)`. */
    method UpdateSizes(newSizes: string)
      modifies this`sizes
      ensures sizes == newSizes
    {
      sizes := newSizes;
    }

    /** `updateProductName(name)`. */
    method UpdateProductName(name: string)
      modifies this`productName
      ensures productName == name
    {
      productName := name;
    }

    /** `updatePrice(newPrice)`: take empty text or an amount, ignore anything else. */
    method UpdatePrice(newPrice: string)
      requires Valid()
      modifies this`price
      ensures Valid()
      ensures price == if newPrice == "" || AcceptsAmount(newPrice) then newPrice else old(price)
    {
      if newPrice == "" || AcceptsAmount(newPrice) {
        price := newPrice;
      }
    }

    /** `updateStock(newStock)`: at least one. */
    method UpdateStock(newStock: int)
      requires Valid()
      modifies this`stock
      ensures Valid()
      ensures stock == if newStock >= 1 then newStock else 1
    {
      stock := if 1 >= newStock then 1 else newStock;
    }

    /** `updateFreeShipping(enabled)`. */
    method UpdateFreeShipping(enabled: bool)
      modifies this`freeShipping
      ensures freeShipping == enabled
    {
      freeShipping := enabled;
    }

    /** `updateDiscount(newDiscount)`: the same rule as the price. */
    method UpdateDiscount(newDiscount: string)
      requires Valid()
      modifies this`discount
      ensures Valid()
      ensures discount == if newDiscount == "" || AcceptsAmount(newDiscount) then newDiscount else old(discount)
    {
      if newDiscount == "" || AcceptsAmount(newDiscount) {
        discount := newDiscount;
      }
    }

    /** `updateDescription(desc)`. */
    method UpdateDescription(desc: string)
      modifies this`description
      ensures description == desc
    {
      description := desc;
    }

    /** `updateDetails(newDetails)`. */
    method UpdateDetails(newDetails: string)
      modifies this`details
      ensures details == newDetails
    {
      details := newDetails;
    }

    /** `updateCategory(newCategory)`. */
    method UpdateCategory(newCategory: string)
      modifies this`category
      ensures category == newCategory
    {
      category := newCategory;
    }

    /** `addImage(uri)`. */
    method AddImage(uri: string)
      modifies this`selectedImages
      ensures selectedImages == old(selectedImages) + [uri]
    {
      selectedImages := selectedImages + [uri];
    }

    /** `removeImage(uri)`. */
    method RemoveImage(uri: string)
      modifies this`selectedImages
      ensures selectedImages == WithoutFirst(old(selectedImages), uri)
    {
      selectedImages := WithoutFirst(selectedImages, uri);
    }

    /** `isValidProduct()`: name, price and category are not blank and an image is picked. */
    predicate IsValidProduct()
      reads this
    {
      !IsBlank(productName) && !IsBlank(price) && !IsBlank(category) && selectedImages != []
    }

    /** The product `saveProduct` builds from the form, given its new id and the
        uploaded images' URLs. */
    function Draft(productId: string, imageUrls: seq<string>): (p: Product)
      reads this
      ensures p.id == productId && p.name == productName && p.category == category
      ensures p.stock == stock && p.freeShipping == freeShipping && p.images == imageUrls
      ensures p.price == AmountOrNull(price).GetOr(0) && p.discount == AmountOrNull(discount)
      ensures p.sizes == Some(ParseSizes(sizes)) && p.colors == Some(EncodeColors(selectedColors))
      ensures p.description == UnlessBlank(description) && p.details == UnlessBlank(details)
    {
      Product(
        id := productId,
        name := productName,
        category := category,
        price := AmountOrNull(price).GetOr(0),
        freeShipping := freeShipping,
        stock := stock,
        discount := AmountOrNull(discount),
        description := UnlessBlank(description),
        details := UnlessBlank(details),
        colors := Some(EncodeColors(selectedColors)),
        sizes := Some(ParseSizes(sizes)),
        images := imageUrls)
    }

    /** `saveProduct()`. An invalid form fails at once and changes nothing.
        Otherwise `compression` is what compressing the picked images did,
        `created[i]` the file id storage gave the i-th upload (None when it
        threw), `productId` the new UUID and `documentId` the id the
        repository draws: no uploaded image is an error; otherwise the product
        is stored under the uploaded images' URLs. */
    method SaveProduct(compression: Compression, created: seq<Option<string>>,
                       productId: string, documentId: string)
      returns (result: SaveResult)
      requires compression.Compressed? ==> |created| == |compression.images|
      modifies this`uiState, repository`files, repository`documents
      ensures !old(IsValidProduct()) ==>
                result == SaveFailed("Please fill in all required fields")
                && uiState == old(uiState) && unchanged(repository)
      ensures old(IsValidProduct()) && compression.CompressThrew? ==>
                var message := compression.message.GetOr("Unknown error occurred");
                result == SaveFailed(message) && uiState == Error(message) && unchanged(repository)
      ensures old(IsValidProduct()) && compression.Compressed? ==>
                var stored := ProductRepo.Uploaded(repository.imageBucketId, compression.images,
                                                   productName, created, |created|);
                var urls := repository.UrlsOf(stored);
                && repository.files == old(repository.files) + stored
                && (urls == [] ==>
                      result == SaveFailed("Failed to upload images") && uiState == Error("Failed to upload images")
                      && repository.documents == old(repository.documents))
                && (urls != [] ==>
                      result == Saved && uiState == Success
                      && repository.documents
                         == old(repository.documents)
                            + (if repository.reachable
                               then [ProductRepo.ProductDoc(documentId,
                                                            ProductRepo.DocumentData(documentId, Draft(productId, urls)))]
                               else []))
    {
      if !IsValidProduct() {
        return SaveFailed("Please fill in all required fields");
      }
      uiState := Loading;
      match compression {
        case CompressThrew(message) =>
          uiState := Error(message.GetOr("Unknown error occurred"));
          result := SaveFailed(message.GetOr("Unknown error occurred"));
        case Compressed(images) =>
          var imageUrls := repository.UploadImagesToAppwrite(repository.imageBucketId, images, productName, created);
          if imageUrls == [] {
            uiState := Error("Failed to upload images");
            result := SaveFailed("Failed to upload images");
          } else {
            var product := Draft(productId, imageUrls);
            repository.SaveProductToCollection(product, documentId);
            uiState := Success;
            result := Saved;
          }
      }
    }

    /** `resetState()`: every field back to its start value except the colours
        and the sizes text, which stay as they were. */
    method ResetState()
      requires Valid()
      modifies this`productName, this`price, this`stock, this`freeShipping, this`discount,
               this`description, this`details, this`category, this`selectedImages, this`uiState
      ensures Valid()
      ensures productName == "" && price == "" && stock == 1 && !freeShipping && discount == ""
      ensures description == "" && details == "" && category == "" && selectedImages == []
      ensures uiState == Idle
      ensures selectedColors == old(selectedColors) && sizes == old(sizes)
    {
      productName, price, stock, freeShipping, discount := "", "", 1, false, "";
      description, details, category, selectedImages := "", "", "", [];
      uiState := Idle;
    }
  }

  /** Choosing a new colour and removing it again gives back the colours chosen before. */
  method AddThenRemoveColor(vm: AdminViewModel, c: ColorInfo)
    requires vm.Valid() && c !in vm.selectedColors
    modifies vm
    ensures vm.Valid() && vm.selectedColors == old(vm.selectedColors)
  {
    vm.AddColor(c);
    RemoveAfterAppend(old(vm.selectedColors), c);
    vm.RemoveColor(c);
  }
}
