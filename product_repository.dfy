/** The product collection and image storage (`ProductRepository.kt`): the
    paged category query, the image upload loop with its file names and view
    URLs, and the document written for a new product. The collection is a
    sequence of documents in the store's order; a query list is applied to it
    as Appwrite documents its queries: the filters together, then the offset
    skipped and at most the limit kept. */
module ProductRepo {
  import opened Common
  import opened Text
  import opened ProductData

  const PageSize := 4
  const BestDealsCategory := "Best Deals"
  const EndPoint := "https://cloud.appwrite.io/v1"
  const CategoryField := "category"
  const ImageMimeType := "image/jpeg"

  /** The Appwrite queries the repository builds. */
  datatype Query =
    | Equal(attribute: string, value: string)
    | NotEqual(attribute: string, value: string)
    | Limit(count: int)
    | Offset(count: int)

  /** Kotlin's `Result` as `runCatching` produces it. */
  datatype Result<T> = Success(value: T) | Failure(message: string)

  /** A stored product document: its `$id` and its fields. */
  datatype ProductDoc = ProductDoc(docId: string, data: Data)

  /** A file in a storage bucket, as `storage.createFile` was given it. */
  datatype StoredFile = StoredFile(bucketId: string, fileId: string, filename: string,
                                   mimeType: string, bytes: seq<bv8>)

  function Min(a: int, b: int): int {
    if a < b then a else b
  }

  /** `maxOf(0, (page - 1) * PAGE_SIZE)`: page 1 and anything below it start at
      the first document, and each later page starts one page further on. */
  function PageOffset(page: int): (r: nat)
    ensures page <= 1 ==> r == 0
    ensures page >= 1 ==> r == (page - 1) * PageSize
  {
    if (page - 1) * PageSize > 0 then (page - 1) * PageSize else 0
  }

  /** Consecutive pages start exactly one page apart, so they neither overlap nor leave a gap. */
  lemma PageOffsetStep(page: int)
    requires page >= 1
    ensures PageOffset(page + 1) == PageOffset(page) + PageSize
  {
  }

  /** The category filters of `queryProducts`: an equality on the category when
      one is given, then an inequality when an exclusion is given. */
  function Filters(category: Option<string>, excludeCategory: Option<string>): (r: seq<Query>)
    ensures forall v :: Equal(CategoryField, v) in r <==> category == Some(v)
    ensures forall v :: NotEqual(CategoryField, v) in r <==> excludeCategory == Some(v)
    ensures |r| == (if category.Some? then 1 else 0) + (if excludeCategory.Some? then 1 else 0)
    ensures forall q :: q in r ==> q.Equal? || q.NotEqual?
  {
    (match category case Some(c) => [Equal(CategoryField, c)] case None => [])
    + (match excludeCategory case Some(e) => [NotEqual(CategoryField, e)] case None => [])
  }

  /** `queryProducts`' query list: the filters in that order, then the limit of
      one page and the page's offset, which are always there. */
  function QueryList(category: Option<string>, page: int, excludeCategory: Option<string>): (r: seq<Query>)
    ensures |r| == |Filters(category, excludeCategory)| + 2
    ensures r[..|r| - 2] == Filters(category, excludeCategory)
    ensures r[|r| - 2] == Limit(PageSize) && r[|r| - 1] == Offset(PageOffset(page))
    ensures category.Some? ==> r[0] == Equal(CategoryField, category.value)
    ensures forall v :: Equal(CategoryField, v) in r <==> category == Some(v)
    ensures forall v :: NotEqual(CategoryField, v) in r <==> excludeCategory == Some(v)
  {
    Filters(category, excludeCategory) + [Limit(PageSize), Offset(PageOffset(page))]
  }

  /** `fetchBestDeals(page)`'s queries: the "Best Deals" category, no exclusion. */
  function BestDealsQueries(page: int): (r: seq<Query>)
    ensures r == [Equal(CategoryField, BestDealsCategory), Limit(PageSize), Offset(PageOffset(page))]
  {
    QueryList(Some(BestDealsCategory), page, None)
  }

  /** Whether a document passes one query; paging queries pass every document. */
  predicate Admits(d: ProductDoc, q: Query) {
    match q
    case Equal(a, v) => Field(d.data, a) == Str(v)
    case NotEqual(a, v) => Field(d.data, a) != Str(v)
    case Limit(_) => true
    case Offset(_) => true
  }

  predicate AdmitsAll(d: ProductDoc, qs: seq<Query>) {
    forall q :: q in qs ==> Admits(d, q)
  }

  /** The documents passing every filter, in store order. */
  function Matching(docs: seq<ProductDoc>, qs: seq<Query>): (r: seq<ProductDoc>)
    ensures |r| <= |docs|
    ensures forall d :: d in r <==> d in docs && AdmitsAll(d, qs)
  {
    if |docs| == 0 then []
    else (if AdmitsAll(docs[0], qs) then [docs[0]] else []) + Matching(docs[1..], qs)
  }

  /** The first limit in a query list, if any. */
  function LimitIn(qs: seq<Query>): Option<int> {
    if |qs| == 0 then None
    else if qs[0].Limit? then Some(qs[0].count)
    else LimitIn(qs[1..])
  }

  /** The first offset in a query list; 0 when there is none. */
  function OffsetIn(qs: seq<Query>): int {
    if |qs| == 0 then 0
    else if qs[0].Offset? then qs[0].count
    else OffsetIn(qs[1..])
  }

  /** At most `n` elements of `s` from position `o` on. */
  function Window<T>(s: seq<T>, o: nat, n: nat): (r: seq<T>)
    ensures |r| <= n
    ensures forall x :: x in r ==> x in s
  {
    var rest := s[Min(o, |s|)..];
    rest[..Min(n, |rest|)]
  }

  /** What the store returns for a query list. */
  function Run(docs: seq<ProductDoc>, qs: seq<Query>): (r: seq<ProductDoc>)
    ensures forall d :: d in r ==> d in docs && AdmitsAll(d, qs)
  {
    var m := Matching(docs, qs);
    var o := if OffsetIn(qs) < 0 then 0 else OffsetIn(qs);
    match LimitIn(qs)
    case Some(n) => Window(m, o, if n < 0 then 0 else n)
    case None => m[Min(o, |m|)..]
  }

  /** The documents of one category, without the excluded one, in store order. */
  function InCategory(docs: seq<ProductDoc>, category: Option<string>, excludeCategory: Option<string>): seq<ProductDoc> {
    Matching(docs, Filters(category, excludeCategory))
  }

  lemma {:induction false} AdmitsConcat(d: ProductDoc, a: seq<Query>, b: seq<Query>)
    ensures AdmitsAll(d, a + b) <==> AdmitsAll(d, a) && AdmitsAll(d, b)
  {
    forall q | q in a ensures q in a + b {}
    forall q | q in b ensures q in a + b {}
  }

  lemma {:induction false} MatchingPagingFree(docs: seq<ProductDoc>, fs: seq<Query>, paging: seq<Query>)
    requires forall q :: q in paging ==> q.Limit? || q.Offset?
    ensures Matching(docs, fs + paging) == Matching(docs, fs)
    decreases |docs|
  {
    if |docs| > 0 {
      AdmitsConcat(docs[0], fs, paging);
      MatchingPagingFree(docs[1..], fs, paging);
    }
  }

  lemma {:induction false} PagingAfterFilters(fs: seq<Query>, n: int, o: int)
    requires forall q :: q in fs ==> q.Equal? || q.NotEqual?
    ensures LimitIn(fs + [Limit(n), Offset(o)]) == Some(n)
    ensures OffsetIn(fs + [Limit(n), Offset(o)]) == o
    decreases |fs|
  {
    if |fs| == 0 {
      assert fs + [Limit(n), Offset(o)] == [Limit(n), Offset(o)];
      assert [Limit(n), Offset(o)][1..] == [Offset(o)];
    } else {
      assert fs[0] in fs;
      assert (fs + [Limit(n), Offset(o)])[0] == fs[0];
      assert (fs + [Limit(n), Offset(o)])[1..] == fs[1..] + [Limit(n), Offset(o)];
      PagingAfterFilters(fs[1..], n, o);
    }
  }

  /** A query list means one page of a category: the page's window of four over
      the category's documents. */
  lemma RunQueryList(docs: seq<ProductDoc>, category: Option<string>, page: int, excludeCategory: Option<string>)
    ensures Run(docs, QueryList(category, page, excludeCategory))
            == Window(InCategory(docs, category, excludeCategory), PageOffset(page), PageSize)
  {
    var fs := Filters(category, excludeCategory);
    assert QueryList(category, page, excludeCategory) == fs + [Limit(PageSize), Offset(PageOffset(page))];
    PagingAfterFilters(fs, PageSize, PageOffset(page));
    MatchingPagingFree(docs, fs, [Limit(PageSize), Offset(PageOffset(page))]);
  }

  /** Two consecutive pages together are the window of eight from the first
      page's offset: no document is shown twice or skipped. */
  lemma PagesTile(docs: seq<ProductDoc>, category: Option<string>, page: int, excludeCategory: Option<string>)
    requires page >= 1
    ensures Run(docs, QueryList(category, page, excludeCategory)) + Run(docs, QueryList(category, page + 1, excludeCategory))
            == Window(InCategory(docs, category, excludeCategory), PageOffset(page), 2 * PageSize)
  {
    RunQueryList(docs, category, page, excludeCategory);
    RunQueryList(docs, category, page + 1, excludeCategory);
    PageOffsetStep(page);
    WindowsAdjacent(InCategory(docs, category, excludeCategory), PageOffset(page), PageSize);
  }

  /** Two adjacent windows of `n` make one window of `2 * n`. */
  lemma WindowsAdjacent<T>(s: seq<T>, o: nat, n: nat)
    ensures Window(s, o, n) + Window(s, o + n, n) == Window(s, o, 2 * n)
  {
    if o + n <= |s| {
      assert s[o..][..n] == s[o..o + n];
      assert s[o + n..][..Min(n, |s| - o - n)] == s[o + n..o + n + Min(n, |s| - o - n)];
      assert s[o..][..Min(2 * n, |s| - o)] == s[o..o + n + Min(n, |s| - o - n)];
    }
  }

  /** A page shorter than four is the last one: the next page is empty. This is
      what makes `hasMoreData = size >= PAGE_SIZE` safe. */
  lemma ShortPageIsLast(docs: seq<ProductDoc>, category: Option<string>, page: int, excludeCategory: Option<string>)
    requires page >= 1
    requires |Run(docs, QueryList(category, page, excludeCategory))| < PageSize
    ensures Run(docs, QueryList(category, page + 1, excludeCategory)) == []
  {
    RunQueryList(docs, category, page, excludeCategory);
    RunQueryList(docs, category, page + 1, excludeCategory);
    PageOffsetStep(page);
  }

  /** `documents.map { it.toProduct() }`. */
  function ProductsOf(docs: seq<ProductDoc>): (r: seq<Product>)
    ensures |r| == |docs|
    ensures forall i :: 0 <= i < |docs| ==> r[i] == ToProduct(docs[i].docId, docs[i].data)
  {
    seq(|docs|, i requires 0 <= i < |docs| => ToProduct(docs[i].docId, docs[i].data))
  }

  /** A decoded document that passed a category's filters carries that category
      and not the excluded one (unless the exclusion is the decoder's default). */
  lemma CategoryFiltersHold(docs: seq<ProductDoc>, category: Option<string>, excludeCategory: Option<string>,
                            page: int, p: Product)
    requires p in ProductsOf(Run(docs, QueryList(category, page, excludeCategory)))
    ensures category.Some? ==> p.category == category.value
    ensures excludeCategory.Some? && excludeCategory.value != Uncategorized ==> p.category != excludeCategory.value
  {
    var ds := Run(docs, QueryList(category, page, excludeCategory));
    var i :| 0 <= i < |ds| && ProductsOf(ds)[i] == p;
    var d := ds[i];
    assert AdmitsAll(d, QueryList(category, page, excludeCategory));
    if category.Some? {
      assert Admits(d, Equal(CategoryField, category.value));
    }
    if excludeCategory.Some? {
      assert Admits(d, NotEqual(CategoryField, excludeCategory.value));
    }
  }

  /** `"$productName-$index.jpg"`. */
  function FileName(productName: string, index: nat): string {
    productName + "-" + NatToString(index) + ".jpg"
  }

  /** Different indices give different file names. */
  lemma FileNameInjective(productName: string, i: nat, j: nat)
    requires FileName(productName, i) == FileName(productName, j)
    ensures i == j
  {
    var a, b := FileName(productName, i), FileName(productName, j);
    var k := |productName| + 1;
    assert |NatToString(i)| == |NatToString(j)|;
    assert NatToString(i) == a[k..k + |NatToString(i)|];
    assert NatToString(j) == b[k..k + |NatToString(j)|];
    NatToStringInjective(i, j);
  }

  /** The files the first `n` uploads leave in the bucket: the i-th image is
      stored under its file name when its upload succeeded and skipped when it
      threw. */
  function Uploaded(bucketId: string, images: seq<seq<bv8>>, productName: string,
                    created: seq<Option<string>>, n: nat): (r: seq<StoredFile>)
    requires n <= |images| && n <= |created|
    ensures |r| <= n
    decreases n
  {
    if n == 0 then []
    else
      Uploaded(bucketId, images, productName, created, n - 1)
      + match created[n - 1]
        case Some(id) => [StoredFile(bucketId, id, FileName(productName, n - 1), ImageMimeType, images[n - 1])]
        case None => []
  }

  /** One more image adds its file when its upload went through, and nothing otherwise. */
  lemma UploadedStep(bucketId: string, images: seq<seq<bv8>>, productName: string,
                     created: seq<Option<string>>, n: nat)
    requires n < |images| && n < |created|
    ensures Uploaded(bucketId, images, productName, created, n + 1)
            == Uploaded(bucketId, images, productName, created, n)
               + if created[n].Some? then [StoredFile(bucketId, created[n].value, FileName(productName, n),
                                                      ImageMimeType, images[n])]
                 else []
  {
  }

  /** Every stored file went to the given bucket as a JPEG, and none carries
      the file name of an index `n` or above. */
  lemma {:induction false} UploadedNamed(bucketId: string, images: seq<seq<bv8>>, productName: string,
                                          created: seq<Option<string>>, n: nat)
    requires n <= |images| && n <= |created|
    ensures forall f :: f in Uploaded(bucketId, images, productName, created, n) ==>
              f.bucketId == bucketId && f.mimeType == ImageMimeType
              && forall m :: n <= m ==> f.filename != FileName(productName, m)
    decreases n
  {
    if n > 0 {
      UploadedNamed(bucketId, images, productName, created, n - 1);
      forall m | n <= m ensures FileName(productName, n - 1) != FileName(productName, m) {
        if FileName(productName, n - 1) == FileName(productName, m) {
          FileNameInjective(productName, n - 1, m);
        }
      }
    }
  }

  /** No two files share a name. */
  predicate NamesDistinct(fs: seq<StoredFile>) {
    forall j, k :: 0 <= j < k < |fs| ==> fs[j].filename != fs[k].filename
  }

  /** The stored files have pairwise different names. */
  lemma {:induction false} UploadedNamesDistinct(bucketId: string, images: seq<seq<bv8>>, productName: string,
                                                  created: seq<Option<string>>, n: nat)
    requires n <= |images| && n <= |created|
    ensures NamesDistinct(Uploaded(bucketId, images, productName, created, n))
    decreases n
  {
    if n > 0 {
      var prev := Uploaded(bucketId, images, productName, created, n - 1);
      UploadedNamesDistinct(bucketId, images, productName, created, n - 1);
      UploadedNamed(bucketId, images, productName, created, n - 1);
      var name := FileName(productName, n - 1);
      var last := match created[n - 1]
        case Some(id) => [StoredFile(bucketId, id, name, ImageMimeType, images[n - 1])]
        case None => [];
      assert Uploaded(bucketId, images, productName, created, n) == prev + last;
      assert forall f :: f in prev ==> f.filename != name by {
        forall f | f in prev ensures f.filename != name {
          assert forall m :: n - 1 <= m ==> f.filename != FileName(productName, m);
        }
      }
      DistinctStep(prev, last, name);
    }
  }

  /** Appending at most one file under a name no earlier file has keeps the
      names distinct. */
  lemma DistinctStep(prev: seq<StoredFile>, last: seq<StoredFile>, name: string)
    requires |last| <= 1
    requires NamesDistinct(prev)
    requires forall f :: f in prev ==> f.filename != name
    requires forall f :: f in last ==> f.filename == name
    ensures NamesDistinct(prev + last)
  {
    var fs := prev + last;
    forall j, k | 0 <= j < k < |fs| ensures fs[j].filename != fs[k].filename {
      if k < |prev| {
        assert fs[j] == prev[j] && fs[k] == prev[k];
      } else {
        assert fs[k] == last[0] && fs[j] == prev[j];
        assert prev[j] in prev;
      }
    }
  }

  /** When every upload succeeds, every image is stored. */
  lemma {:induction false} UploadedAll(bucketId: string, images: seq<seq<bv8>>, productName: string,
                                        created: seq<Option<string>>, n: nat)
    requires n <= |images| && n <= |created|
    requires forall i :: 0 <= i < n ==> created[i].Some?
    ensures |Uploaded(bucketId, images, productName, created, n)| == n
    decreases n
  {
    if n > 0 {
      UploadedAll(bucketId, images, productName, created, n - 1);
    }
  }

  /** The fields `saveProductToCollection` writes: a missing discount becomes 0,
      a missing description or details "", missing colours or sizes an empty list. */
  function DocumentData(randomId: string, p: Product): Data {
    map[
      "id" := Str(randomId),
      "name" := Str(p.name),
      "category" := Str(p.category),
      "price" := Num(p.price),
      "discount" := Num(p.discount.GetOr(0)),
      "description" := Str(p.description.GetOr("")),
      "details" := Str(p.details.GetOr("")),
      "colors" := List(Strs(p.colors.GetOr([]))),
      "sizes" := List(Strs(p.sizes.GetOr([]))),
      "freeShipping" := Bool(p.freeShipping),
      "stock" := Num(p.stock),
      "images" := List(Strs(p.images))]
  }

  /** The product as it reads back: the document's id, and the defaults of the
      saved document in place of every missing optional field. */
  function WithSaveDefaults(randomId: string, p: Product): Product {
    p.(id := randomId,
       discount := Some(p.discount.GetOr(0)),
       description := Some(p.description.GetOr("")),
       details := Some(p.details.GetOr("")),
       colors := Some(p.colors.GetOr([])),
       sizes := Some(p.sizes.GetOr([])))
  }

  /** A saved product decodes back to itself, with the id it was saved under and
      the saved defaults filled in: the decoder's own defaults never apply. */
  lemma SavedProductReadsBack(randomId: string, p: Product)
    ensures ToProduct(randomId, DocumentData(randomId, p)) == WithSaveDefaults(randomId, p)
  {
    SavedScalarFields(randomId, p);
    SavedListFields(randomId, p);
    StringsOfStrs(p.colors.GetOr([]));
    StringsOfStrs(p.sizes.GetOr([]));
    StringsOfStrs(p.images);
  }

  /** The scalar fields of a saved document. */
  lemma SavedScalarFields(randomId: string, p: Product)
    ensures var d := DocumentData(randomId, p);
            && Field(d, "name") == Str(p.name)
            && Field(d, "category") == Str(p.category)
            && Field(d, "price") == Num(p.price)
            && Field(d, "discount") == Num(p.discount.GetOr(0))
            && Field(d, "description") == Str(p.description.GetOr(""))
            && Field(d, "details") == Str(p.details.GetOr(""))
            && Field(d, "freeShipping") == Bool(p.freeShipping)
            && Field(d, "stock") == Num(p.stock)
  {
  }

  /** The list fields of a saved document. */
  lemma SavedListFields(randomId: string, p: Product)
    ensures var d := DocumentData(randomId, p);
            && Field(d, "colors") == List(Strs(p.colors.GetOr([])))
            && Field(d, "sizes") == List(Strs(p.sizes.GetOr([])))
            && Field(d, "images") == List(Strs(p.images))
  {
  }

  class ProductRepository {
    /** False when every database call throws, with `failure` as the exception's message. */
    const reachable: bool
    const failure: string
    /** The build's Appwrite project and product-image bucket. */
    const projectId: string
    const imageBucketId: string
    /** The product collection, in the store's order. */
    var documents: seq<ProductDoc>
    /** The files put into storage, in order. */
    var files: seq<StoredFile>

    constructor (reachable: bool, failure: string, projectId: string, imageBucketId: string,
                 documents: seq<ProductDoc>)
      ensures this.reachable == reachable && this.failure == failure
      ensures this.projectId == projectId && this.imageBucketId == imageBucketId
      ensures this.documents == documents && files == []
    {
      this.reachable := reachable;
      this.failure := failure;
      this.projectId := projectId;
      this.imageBucketId := imageBucketId;
      this.documents := documents;
      files := [];
    }

    /** `fetchProductsByCategory(category, page, excludeCategory)`, whose exclusion
        is "Best Deals" unless the caller says otherwise: at most one page, every
        product of the asked category and none of the excluded one. */
    function FetchProductsByCategory(category: Option<string>, page: int,
                                     excludeCategory: Option<string> := Some(BestDealsCategory))
      : (r: Result<seq<Product>>)
      reads this
      ensures r.Failure? <==> !reachable
      ensures r.Failure? ==> r.message == failure
      ensures r.Success? ==> |r.value| <= PageSize
      ensures r.Success? ==> forall p :: p in r.value ==>
                (category.Some? ==> p.category == category.value)
                && (excludeCategory.Some? && excludeCategory.value != Uncategorized
                    ==> p.category != excludeCategory.value)
    {
      if !reachable then Failure(failure)
      else
        var ps := ProductsOf(Run(documents, QueryList(category, page, excludeCategory)));
        RunQueryList(documents, category, page, excludeCategory);
        assert forall p :: p in ps ==>
                 (category.Some? ==> p.category == category.value)
                 && (excludeCategory.Some? && excludeCategory.value != Uncategorized
                     ==> p.category != excludeCategory.value)
        by {
          forall p | p in ps
            ensures (category.Some? ==> p.category == category.value)
                    && (excludeCategory.Some? && excludeCategory.value != Uncategorized
                        ==> p.category != excludeCategory.value)
          {
            CategoryFiltersHold(documents, category, excludeCategory, page, p);
          }
        }
        Success(ps)
    }

    /** `fetchBestDeals(page)`: one page of the "Best Deals" category. */
    function FetchBestDeals(page: int): (r: Result<seq<Product>>)
      reads this
      ensures r.Failure? <==> !reachable
      ensures r.Success? ==> |r.value| <= PageSize
      ensures r.Success? ==> forall p :: p in r.value ==> p.category == BestDealsCategory
    {
      FetchProductsByCategory(Some(BestDealsCategory), page, None)
    }

    /** The view URL of an uploaded file. It names the build's product-image
        bucket, whatever bucket the file was uploaded to. */
    function ImageUrl(fileId: string): string {
      EndPoint + "/storage/buckets/" + imageBucketId + "/files/" + fileId
      + "/view?project=" + projectId + "&mode=admin"
    }

    /** Different files have different URLs. */
    lemma ImageUrlInjective(a: string, b: string)
      requires ImageUrl(a) == ImageUrl(b)
      ensures a == b
    {
      var pre := EndPoint + "/storage/buckets/" + imageBucketId + "/files/";
      assert ImageUrl(a) == pre + a + ("/view?project=" + projectId + "&mode=admin");
      assert ImageUrl(b) == pre + b + ("/view?project=" + projectId + "&mode=admin");
      assert a == ImageUrl(a)[|pre|..|pre| + |a|];
      assert b == ImageUrl(b)[|pre|..|pre| + |b|];
    }

    /** The URLs of stored files, in order. */
    function UrlsOf(fs: seq<StoredFile>): (r: seq<string>)
      ensures |r| == |fs|
      ensures forall i :: 0 <= i < |fs| ==> r[i] == ImageUrl(fs[i].fileId)
    {
      if |fs| == 0 then [] else UrlsOf(fs[..|fs| - 1]) + [ImageUrl(fs[|fs| - 1].fileId)]
    }

    /** The URL list grows with the file list. */
    lemma UrlsOfAppend(fs: seq<StoredFile>, f: StoredFile)
      ensures UrlsOf(fs + [f]) == UrlsOf(fs) + [ImageUrl(f.fileId)]
    {
      assert (fs + [f])[..|fs|] == fs;
    }

    /** `uploadImagesToAppwrite`: upload each image under its indexed file name;
        `created[i]` is the id the store gave the i-th upload, or None when that
        upload threw and was skipped. The URLs are those of the stored files, in
        input order, at most one per image. */
    method UploadImagesToAppwrite(bucketId: string, imageByteArrays: seq<seq<bv8>>, productName: string,
                                  created: seq<Option<string>>)
      returns (imageUrls: seq<string>)
      requires |created| == |imageByteArrays|
      modifies this`files
      ensures files == old(files) + Uploaded(bucketId, imageByteArrays, productName, created, |created|)
      ensures imageUrls == UrlsOf(Uploaded(bucketId, imageByteArrays, productName, created, |created|))
      ensures |imageUrls| <= |imageByteArrays|
    {
      imageUrls := [];
      var uploaded: seq<StoredFile> := [];
      for index := 0 to |imageByteArrays|
        invariant uploaded == Uploaded(bucketId, imageByteArrays, productName, created, index)
        invariant imageUrls == UrlsOf(uploaded)
        invariant files == old(files)
      {
        var filename := FileName(productName, index);
        UploadedStep(bucketId, imageByteArrays, productName, created, index);
        if created[index].Some? {
          var file := StoredFile(bucketId, created[index].value, filename, ImageMimeType, imageByteArrays[index]);
          UrlsOfAppend(uploaded, file);
          uploaded := uploaded + [file];
          imageUrls := imageUrls + [ImageUrl(file.fileId)];
        } else {
          assert uploaded + [] == uploaded;
        }
      }
      files := files + uploaded;
    }

    /** `saveProductToCollection(product)` under the fresh id `randomId`; when the
        store throws, the exception is swallowed and nothing is written. */
    method SaveProductToCollection(product: Product, randomId: string)
      modifies this`documents
      ensures documents == old(documents) + (if reachable then [ProductDoc(randomId, DocumentData(randomId, product))] else [])
    {
      if reachable {
        documents := documents + [ProductDoc(randomId, DocumentData(randomId, product))];
      }
    }
  }
}
