/** Splitting an ordered feed into pages of ten (yatube/posts/utils.py).

    The source hands the sequence and the raw `page` query value to Django's
    `Paginator(queryset, COUNT_OF_POSTS).get_page(...)`. That library code is
    not part of this model; its behaviour is assumed here as follows, with no
    orphans and an allowed empty first page:
    - a feed of `n` items has `max(1, ceil(n / 10))` pages;
    - a missing or non-numeric page value selects page 1;
    - a number below 1 or above the page count selects the last page;
    - page `p` holds items `(p - 1) * 10` up to, not including,
      `min(p * 10, n)`. */
module Paging {

  /** `COUNT_OF_POSTS`: the number of items on a full page. */
  const CountOfPosts: nat := 10

  /** The raw `page` query parameter. */
  datatype PageParam = Missing | NotANumber | Number(n: int)

  /** One page of a feed with the metadata the templates use. */
  datatype Page<T> = Page(items: seq<T>, number: nat, numPages: nat)
  {
    predicate HasNext() { number < numPages }
    predicate HasPrevious() { number > 1 }
  }

  /** The number of pages for a feed of `count` items. */
  function NumPages(count: nat): (k: nat)
    ensures k >= 1
    ensures count == 0 ==> k == 1
    ensures count <= k * CountOfPosts
    ensures count == 0 || (k - 1) * CountOfPosts < count
  {
    if count == 0 then 1 else (count + CountOfPosts - 1) / CountOfPosts
  }

  /** The page that `get_page` settles on for the parameter `param`. */
  function PageNumber(param: PageParam, count: nat): (p: nat)
    ensures 1 <= p <= NumPages(count)
    ensures param.Missing? || param.NotANumber? ==> p == 1
    ensures param.Number? && 1 <= param.n <= NumPages(count) ==> p == param.n
    ensures param.Number? && !(1 <= param.n <= NumPages(count)) ==> p == NumPages(count)
  {
    match param
    case Missing => 1
    case NotANumber => 1
    case Number(n) => if 1 <= n <= NumPages(count) then n else NumPages(count)
  }

  /** The items on page `p`: a contiguous run of at most ten items, in the
      feed's own order, starting at item `(p - 1) * 10`; every page but the
      last is full, and only an empty feed has an empty page. */
  function PageItems<T>(items: seq<T>, p: nat): (r: seq<T>)
    requires 1 <= p <= NumPages(|items|)
    ensures |r| <= CountOfPosts
    ensures p < NumPages(|items|) ==> |r| == CountOfPosts
    ensures |items| > 0 ==> |r| > 0
    ensures (p - 1) * CountOfPosts + |r| <= |items|
    ensures forall k :: 0 <= k < |r| ==> r[k] == items[(p - 1) * CountOfPosts + k]
  {
    var lo := (p - 1) * CountOfPosts;
    var hi := if lo + CountOfPosts <= |items| then lo + CountOfPosts else |items|;
    items[lo..hi]
  }

  /** `paginator(queryset, request)`. */
  function Paginate<T>(items: seq<T>, param: PageParam): (r: Page<T>)
    ensures 1 <= r.number <= r.numPages == NumPages(|items|)
    ensures r.number == PageNumber(param, |items|)
    ensures r.items == PageItems(items, r.number)
  {
    var p := PageNumber(param, |items|);
    Page(PageItems(items, p), p, NumPages(|items|))
  }

  /** Pages `p`, `p + 1`, ..., up to the last one, joined in order. */
  function PagesFrom<T>(items: seq<T>, p: nat): seq<T>
    requires 1 <= p <= NumPages(|items|)
    decreases NumPages(|items|) - p
  {
    PageItems(items, p) + if p < NumPages(|items|) then PagesFrom(items, p + 1) else []
  }

  /** Joining pages `p` up to the last gives back the feed from item
      `(p - 1) * 10` on. */
  lemma {:induction false} PagesFromIsSuffix<T>(items: seq<T>, p: nat)
    requires 1 <= p <= NumPages(|items|)
    ensures (p - 1) * CountOfPosts <= |items|
    ensures PagesFrom(items, p) == items[(p - 1) * CountOfPosts..]
    decreases NumPages(|items|) - p
  {
    var lo := (p - 1) * CountOfPosts;
    var page := PageItems(items, p);
    if p < NumPages(|items|) {
      PagesFromIsSuffix(items, p + 1);
      assert |page| == CountOfPosts;
      assert page == items[lo..lo + CountOfPosts];
      assert items[lo..] == items[lo..lo + CountOfPosts] + items[lo + CountOfPosts..];
    } else {
      assert page == items[lo..lo + |page|];
      assert lo + |page| == |items|;
    }
  }

  /** Reading every page in order gives back the whole feed: each item
      appears on exactly one page, in its original position. */
  lemma PagesReassemble<T>(items: seq<T>)
    ensures PagesFrom(items, 1) == items
  {
    PagesFromIsSuffix(items, 1);
  }

  /** The test fixture of thirteen posts: page 1 is full, page 2 holds the
      remaining three, and there is no third page. */
  lemma ThirteenItems<T>(items: seq<T>)
    requires |items| == 13
    ensures NumPages(|items|) == 2
    ensures |Paginate(items, Missing).items| == 10
    ensures |Paginate(items, Number(2)).items| == 3
    ensures Paginate(items, Number(3)).number == 2
  {
  }

  /** The test fixture of two posts: page 1 holds both. */
  lemma TwoItems<T>(items: seq<T>)
    requires |items| == 2
    ensures Paginate(items, Missing).items == items
  {
  }
}
