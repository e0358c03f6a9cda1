/**
 * The photo gallery: the photo collection (`models/Photo.ts`), the storage bucket that holds the
 * image files, and the public queries of `action/photoActions.ts` (one category's photos, page by
 * page, newest first; the categories that have photos).
 */
module PhotoActions {
  import opened Text
  import opened Sorting

  /** A photo record; `createdAt` in milliseconds. */
  datatype Photo = Photo(
    id: string,
    userId: string,
    category: string,
    imageUrl: string,
    storagePath: string,
    createdAt: int)

  /** The photo collection and the set of object paths in the `photos` storage bucket. */
  class Gallery {
    var photos: seq<Photo>
    var objects: set<string>

    constructor (photos: seq<Photo>, objects: set<string>)
      ensures this.photos == photos && this.objects == objects
    {
      this.photos := photos;
      this.objects := objects;
    }
  }

  /** Every record points at a file in the bucket, and no two records share a file. */
  predicate Consistent(photos: seq<Photo>, objects: set<string>) {
    && (forall i :: 0 <= i < |photos| ==> photos[i].storagePath in objects)
    && (forall i, j :: 0 <= i < j < |photos| ==> photos[i].storagePath != photos[j].storagePath)
  }

  function CreatedAt(p: Photo): int { p.createdAt }

  function InCategory(category: string): Photo -> bool {
    (p: Photo) => p.category == category
  }

  /** `countDocuments({category})`: photos whose category is exactly `category`. */
  function CountIn(photos: seq<Photo>, category: string): (n: nat)
    ensures n <= |photos|
    ensures n > 0 <==> exists i :: 0 <= i < |photos| && photos[i].category == category
  {
    var hits := Filter(photos, InCategory(category));
    assert |hits| > 0 ==> hits[0] in photos && hits[0].category == category;
    |hits|
  }

  /** `Math.ceil(total / size)` for a positive page size. */
  function CeilDiv(total: nat, size: nat): (pages: nat)
    requires size > 0
    ensures pages * size >= total
    ensures pages > 0 ==> (pages - 1) * size < total
  {
    (total + size - 1) / size
  }

  /** One category's photos, newest first. */
  function Matching(photos: seq<Photo>, category: string): (r: seq<Photo>)
    ensures SortedDesc(r, CreatedAt)
    ensures multiset(r) == multiset(Filter(photos, InCategory(category)))
    ensures forall i :: 0 <= i < |r| ==> r[i].category == category
  {
    var chosen := Filter(photos, InCategory(category));
    SortDescSorted(chosen, CreatedAt);
    var r := SortDesc(chosen, CreatedAt);
    assert forall i :: 0 <= i < |r| ==> r[i].category == category by {
      forall i | 0 <= i < |r| ensures r[i].category == category {
        assert r[i] in multiset(chosen);
        var j :| 0 <= j < |chosen| && chosen[j] == r[i];
        assert InCategory(category)(chosen[j]);
      }
    }
    r
  }

  datatype PageOutcome =
    | CategoryRequired
    | QueryFailed
    | PhotoPage(photos: seq<Photo>, totalCount: nat, totalPages: nat, currentPage: int)

  /** The window `skip(skip).limit(limit)` of a list. */
  function Window<T>(s: seq<T>, skip: nat, limit: nat): (r: seq<T>)
    ensures |r| <= limit
    ensures forall k :: 0 <= k < |r| ==> skip + k < |s| && r[k] == s[skip + k]
    ensures |r| == if skip >= |s| then 0 else if skip + limit <= |s| then limit else |s| - skip
  {
    if skip >= |s| then [] else if skip + limit <= |s| then s[skip..skip + limit] else s[skip..]
  }

  /**
   * `getPhotosByCategory`: a blank category is refused before any query; a page number below 1
   * makes the skip negative, which the database rejects; otherwise the `(page-1)*limit`-th photo
   * onwards, at most `limit` of them, with the count and the number of pages.
   */
  function PhotosByCategory(photos: seq<Photo>, category: string, limit: nat, page: int): (r: PageOutcome)
    requires limit > 0
    ensures r == CategoryRequired <==> Trim(category) == ""
    ensures r == QueryFailed <==> Trim(category) != "" && page < 1
    ensures r.PhotoPage? ==>
      && |r.photos| <= limit
      && (forall i :: 0 <= i < |r.photos| ==> r.photos[i].category == Trim(category))
      && SortedDesc(r.photos, CreatedAt)
      && r.totalCount == CountIn(photos, Trim(category))
      && r.totalPages == CeilDiv(r.totalCount, limit)
      && r.currentPage == page
  {
    var trimmed := Trim(category);
    if trimmed == "" then CategoryRequired
    else if page < 1 then QueryFailed
    else CategoryPage(photos, trimmed, limit, page)
  }

  /** Page `page` (from 1) of one category's photos, newest first, with the count and the number of pages. */
  function CategoryPage(photos: seq<Photo>, category: string, limit: nat, page: int): (r: PageOutcome)
    requires limit > 0 && page >= 1
    ensures r.PhotoPage?
    ensures |r.photos| <= limit
    ensures forall i :: 0 <= i < |r.photos| ==> r.photos[i].category == category
    ensures SortedDesc(r.photos, CreatedAt)
    ensures r.totalCount == CountIn(photos, category)
    ensures r.totalPages == CeilDiv(r.totalCount, limit)
    ensures r.currentPage == page
    ensures r.photos == Window(Matching(photos, category), (page - 1) * limit, limit)
  {
    var all := Matching(photos, category);
    var skip: nat := (page - 1) * limit;
    var shown := Window(all, skip, limit);
    WindowSorted(all, skip, limit);
    MatchingCount(photos, category);
    PhotoPage(shown, |all|, CeilDiv(|all|, limit), page)
  }

  /** A window of a newest-first list is newest first. */
  lemma WindowSorted(all: seq<Photo>, skip: nat, limit: nat)
    requires SortedDesc(all, CreatedAt)
    ensures SortedDesc(Window(all, skip, limit), CreatedAt)
  {
    var shown := Window(all, skip, limit);
    forall i, j | 0 <= i < j < |shown| ensures CreatedAt(shown[i]) >= CreatedAt(shown[j]) {
      assert shown[i] == all[skip + i] && shown[j] == all[skip + j];
    }
  }

  lemma MatchingCount(photos: seq<Photo>, category: string)
    ensures |Matching(photos, category)| == CountIn(photos, category)
  {
    var all := Matching(photos, category);
    assert |multiset(all)| == |multiset(Filter(photos, InCategory(category)))|;
  }

  /** Euclidean division by a positive page size splits an index into a page and an offset. */
  lemma DivSplit(i: nat, size: nat)
    requires size > 0
    ensures (i / size) * size + i % size == i && 0 <= i % size < size
    ensures 0 <= i / size && 0 <= (i / size) * size <= i
  {
  }

  lemma MulMonotone(a: nat, b: nat, size: nat)
    requires a <= b
    ensures a * size <= b * size
  {
  }

  /** A multiple of the page size that fits in `x` takes at most `x / size` pages. */
  lemma DivLowerBound(q: nat, x: nat, size: nat)
    requires size > 0 && q * size <= x
    ensures q <= x / size
  {
    DivSplit(x, size);
    if q > x / size {
      MulMonotone(x / size + 1, q, size);
    }
  }

  /** The page holding index `i` of `n` entries is within the page count. */
  lemma PageWithinCount(i: nat, n: nat, size: nat)
    requires size > 0 && i < n
    ensures i / size + 1 <= CeilDiv(n, size)
  {
    var q := i / size;
    DivSplit(i, size);
    assert (q + 1) * size == q * size + size;
    DivLowerBound(q + 1, n + size - 1, size);
  }

  /** Every photo of the category is on exactly one page: the `i`-th newest is entry `i % limit` of page `i / limit + 1`, a page within the page count. */
  lemma PagesCoverCategory(photos: seq<Photo>, category: string, limit: nat, i: nat)
    requires limit > 0 && Trim(category) != ""
    requires i < |Matching(photos, Trim(category))|
    ensures var page := i / limit + 1;
      var r := PhotosByCategory(photos, category, limit, page);
      && r.PhotoPage? && 1 <= page <= r.totalPages
      && i % limit < |r.photos| && r.photos[i % limit] == Matching(photos, Trim(category))[i]
  {
    var q, k := i / limit, i % limit;
    DivSplit(i, limit);
    PageWithinCount(i, |Matching(photos, Trim(category))|, limit);
    MatchingCount(photos, Trim(category));
    var skip: nat := q * limit;
    assert (q + 1 - 1) * limit == skip;
    EntryOnPage(photos, Trim(category), limit, q + 1, skip, k);
  }

  /** Entry `k` of page `page` is the photo `skip + k` of the category's list, `skip` being `(page - 1) * limit`. */
  lemma EntryOnPage(photos: seq<Photo>, category: string, limit: nat, page: int, skip: nat, k: nat)
    requires limit > 0 && page >= 1 && k < limit && skip == (page - 1) * limit
    requires skip + k < |Matching(photos, category)|
    ensures var r := CategoryPage(photos, category, limit, page);
      k < |r.photos| && r.photos[k] == Matching(photos, category)[skip + k]
  {
    WindowAt(Matching(photos, category), skip, limit, k);
  }

  lemma WindowAt<T>(s: seq<T>, skip: nat, limit: nat, k: nat)
    requires k < limit && skip + k < |s|
    ensures k < |Window(s, skip, limit)| && Window(s, skip, limit)[k] == s[skip + k]
  {
  }

  /** The values of a list, each once, in order of first appearance (`distinct`). */
  function Distinct(s: seq<string>): (r: seq<string>)
    ensures forall x :: x in r <==> x in s
    ensures forall i, j :: 0 <= i < j < |r| ==> r[i] != r[j]
  {
    if s == [] then []
    else
      var d := Distinct(s[..|s| - 1]);
      assert s == s[..|s| - 1] + [s[|s| - 1]];
      if s[|s| - 1] in d then d else d + [s[|s| - 1]]
  }

  function Categories(photos: seq<Photo>): (r: seq<string>)
    ensures |r| == |photos| && forall i :: 0 <= i < |r| ==> r[i] == photos[i].category
  {
    seq(|photos|, i requires 0 <= i < |photos| => photos[i].category)
  }

  /**
   * `getAllCategories`: every distinct category whose photo count is positive; since each distinct
   * category was read off a stored photo, that is every distinct category.
   */
  method AllCategories(g: Gallery) returns (cats: seq<string>)
    ensures forall c :: c in cats <==> CountIn(g.photos, c) > 0
    ensures forall i, j :: 0 <= i < j < |cats| ==> cats[i] != cats[j]
    ensures cats == Distinct(Categories(g.photos))
  {
    var categories := Distinct(Categories(g.photos));
    cats := [];
    for i := 0 to |categories|
      invariant cats == categories[..i]
    {
      var count := CountIn(g.photos, categories[i]);
      assert categories[i] in Categories(g.photos);
      if count > 0 {
        cats := cats + [categories[i]];
      }
    }
    assert categories[..|categories|] == categories;
    forall c | CountIn(g.photos, c) > 0 ensures c in cats {
      var k :| 0 <= k < |g.photos| && g.photos[k].category == c;
      assert Categories(g.photos)[k] == c;
    }
  }
}
