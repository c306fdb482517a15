/**
 * The advanced gallery: generated sample images, search and category/style
 * filters, like and bookmark actions, and pagination on scroll.
 */
module AdvancedGallery {
  import opened Wrappers
  import Text
  import Decimal
  import Sequences

  datatype GalleryImage = GalleryImage(
    id: string,
    url: string,
    webpUrl: Option<string>,
    title: string,
    prompt: string,
    category: string,
    style: string,
    likes: int,
    isLiked: bool,
    isBookmarked: bool,
    author: string,
    timestamp: string,
    width: nat,
    height: nat)

  const Categories: seq<string> := ["nature", "architecture", "portrait", "abstract", "fantasy"]
  const Styles: seq<string> := ["photorealistic", "artistic", "cartoon", "oil-painting", "digital-art"]

  /** `Math.floor(Math.random() * 500)` and `Math.floor(Math.random() * 24)`. */
  type LikesDraw = x: nat | x < 500
  type HoursDraw = x: nat | x < 24

  /** The random draws for one generated image: a like count, two coin flips and an age in hours. */
  datatype Noise = Noise(likes: LikesDraw, liked: bool, bookmarked: bool, hours: HoursDraw)

  function ImageId(index: nat): string {
    "img-" + Decimal.Show(index)
  }

  lemma ImageIdInjective(i: nat, j: nat)
    requires ImageId(i) == ImageId(j)
    ensures i == j
  {
    assert ImageId(i)[4..] == Decimal.Show(i);
    assert ImageId(j)[4..] == Decimal.Show(j);
    Decimal.ShowInjective(i, j);
  }

  /** The fields `generateMockImages` derives from the index alone. */
  predicate Placed(img: GalleryImage, index: nat) {
    img.id == ImageId(index)
    && img.category == Categories[index % 5] && img.style == Styles[index % 5]
    && img.width == 400 && img.height == 300 + index % 200
  }

  function PhotoUrl(index: nat): string {
    "https://images.unsplash.com/photo-" + Decimal.Show(1500000000000 + index)
    + "?w=400&h=" + Decimal.Show(300 + index % 200) + "&fit=crop&auto=format"
  }

  /** The image at position `index`, with its random fields drawn as `n`. */
  function MockImage(index: nat, n: Noise): (img: GalleryImage)
    ensures Placed(img, index)
    ensures 10 <= img.likes < 510
    ensures img.isLiked == n.liked && img.isBookmarked == n.bookmarked
    ensures 300 <= img.height < 500
  {
    var category := Categories[index % 5];
    var style := Styles[index % 5];
    GalleryImage(
      ImageId(index),
      PhotoUrl(index),
      Some(PhotoUrl(index) + "&fm=webp"),
      "AI Generated " + category + " " + Decimal.Show(index),
      "A beautiful " + category + " scene in " + style + " style",
      category,
      style,
      n.likes + 10,
      n.liked,
      n.bookmarked,
      "Artist" + Decimal.Show(index % 10 + 1),
      Decimal.Show(n.hours) + "h ago",
      400,
      300 + index % 200)
  }

  /** `generateMockImages(start, count)`, with the random draws supplied by `noise`. */
  function Generate(start: nat, count: nat, noise: nat -> Noise): (r: seq<GalleryImage>)
    ensures |r| == count
    ensures forall i :: 0 <= i < count ==> r[i] == MockImage(start + i, noise(start + i))
    ensures forall i :: 0 <= i < count ==> Placed(r[i], start + i)
  {
    seq(count, i requires 0 <= i < count => MockImage(start + i, noise(start + i)))
  }

  /** Images whose ids come from their positions have pairwise different ids. */
  lemma PlacedIdsUnique(images: seq<GalleryImage>)
    requires forall i :: 0 <= i < |images| ==> images[i].id == ImageId(i)
    ensures forall i, j :: 0 <= i < j < |images| ==> images[i].id != images[j].id
  {
    forall i, j | 0 <= i < j < |images| ensures images[i].id != images[j].id {
      if images[i].id == images[j].id {
        ImageIdInjective(i, j);
      }
    }
  }

  // ---------------------------------------------------------------- filtering

  const All: string := "all"

  /** The search box: the term, ignoring case, in the title or the prompt. */
  predicate MatchesSearch(img: GalleryImage, term: string) {
    Text.Contains(Text.Lower(img.title), Text.Lower(term))
    || Text.Contains(Text.Lower(img.prompt), Text.Lower(term))
  }

  /** An image survives all three filters. */
  predicate Keep(img: GalleryImage, term: string, category: string, style: string) {
    (term == [] || MatchesSearch(img, term))
    && (category == All || img.category == category)
    && (style == All || img.style == style)
  }

  /** `filtered.filter(p)` when `active`, else `filtered` as it is. */
  function FilterIf(images: seq<GalleryImage>, active: bool, p: GalleryImage -> bool): seq<GalleryImage> {
    if active then Sequences.Filter(images, p) else images
  }

  function SearchTest(term: string): GalleryImage -> bool {
    img => MatchesSearch(img, term)
  }

  function CategoryTest(category: string): GalleryImage -> bool {
    (img: GalleryImage) => img.category == category
  }

  function StyleTest(style: string): GalleryImage -> bool {
    (img: GalleryImage) => img.style == style
  }

  function KeepTest(term: string, category: string, style: string): GalleryImage -> bool {
    img => Keep(img, term, category, style)
  }

  /** The filter effect: search, then category, then style, each only when set. */
  function Filtered(images: seq<GalleryImage>, term: string, category: string, style: string): seq<GalleryImage> {
    var s1 := FilterIf(images, term != [], SearchTest(term));
    var s2 := FilterIf(s1, category != All, CategoryTest(category));
    FilterIf(s2, style != All, StyleTest(style))
  }

  /**
   * The three filters in a row amount to one filter on their conjunction: the
   * result keeps exactly the images that pass all three, in their original order.
   */
  lemma FilteredSpec(images: seq<GalleryImage>, term: string, category: string, style: string)
    ensures Filtered(images, term, category, style) == Sequences.Filter(images, KeepTest(term, category, style))
    ensures forall img :: img in Filtered(images, term, category, style)
                      <==> img in images && Keep(img, term, category, style)
    ensures Sequences.IsSubsequence(Filtered(images, term, category, style), images)
  {
    var keep := KeepTest(term, category, style);
    FilteredIsKeep(images, term, category, style);
    Sequences.FilterIsSubsequence(images, keep);
  }

  lemma FilteredIsKeep(images: seq<GalleryImage>, term: string, category: string, style: string)
    ensures Filtered(images, term, category, style) == Sequences.Filter(images, KeepTest(term, category, style))
  {
    var q1 := (img: GalleryImage) => term == [] || MatchesSearch(img, term);
    var q2 := (img: GalleryImage) => category == All || img.category == category;
    var q3 := (img: GalleryImage) => style == All || img.style == style;
    var q12 := (img: GalleryImage) => q1(img) && q2(img);
    var s1 := FilterIf(images, term != [], SearchTest(term));
    var s2 := FilterIf(s1, category != All, CategoryTest(category));
    assert s2 == Sequences.Filter(images, q12) by {
      FilterIfIsFilter(images, term != [], SearchTest(term), q1);
      FilterIfIsFilter(s1, category != All, CategoryTest(category), q2);
      Sequences.FilterFuse(images, q1, q2, q12);
    }
    FilterIfIsFilter(s2, style != All, StyleTest(style), q3);
    Sequences.FilterFuse(images, q12, q3, KeepTest(term, category, style));
  }

  /** A skipped filter is a filter that keeps everything. */
  lemma FilterIfIsFilter(images: seq<GalleryImage>, active: bool, p: GalleryImage -> bool, q: GalleryImage -> bool)
    requires forall img :: q(img) == (!active || p(img))
    ensures FilterIf(images, active, p) == Sequences.Filter(images, q)
  {
    if active {
      Sequences.FilterFuse(images, q, q, p);
      Sequences.FilterIdempotent(images, q);
      Sequences.FilterSame(images, p, q);
    } else {
      Sequences.FilterAll(images, q);
    }
  }

  /** With no search and both filters on `all`, every image is shown. */
  lemma NoFilterShowsAll(images: seq<GalleryImage>)
    ensures Filtered(images, [], All, All) == images
  {
  }

  // ---------------------------------------------------------------- actions

  datatype Action = LikeAction | BookmarkAction

  /**
   * One image after an action: a like flips the heart and moves the count one
   * step toward the new state, a bookmark flips the bookmark; the id stays.
   */
  function Act(img: GalleryImage, action: Action): (r: GalleryImage)
    ensures r.id == img.id
    ensures r.isLiked == (if action == LikeAction then !img.isLiked else img.isLiked)
    ensures r.isBookmarked == (if action == BookmarkAction then !img.isBookmarked else img.isBookmarked)
    ensures r.likes == img.likes + (if action == BookmarkAction then 0 else if r.isLiked then 1 else -1)
  {
    match action
    case LikeAction => img.(isLiked := !img.isLiked, likes := if img.isLiked then img.likes - 1 else img.likes + 1)
    case BookmarkAction => img.(isBookmarked := !img.isBookmarked)
  }

  /** `handleImageAction(imageId, action)`: every image with that id is acted on, the rest kept. */
  function ApplyAction(images: seq<GalleryImage>, imageId: string, action: Action): (r: seq<GalleryImage>)
    ensures |r| == |images|
    ensures forall i :: 0 <= i < |r| ==> r[i] == if images[i].id == imageId then Act(images[i], action) else images[i]
  {
    if images == [] then []
    else [if images[0].id == imageId then Act(images[0], action) else images[0]]
         + ApplyAction(images[1..], imageId, action)
  }

  /** Acting changes none of the fields derived from the position. */
  lemma ActKeepsPlace(img: GalleryImage, action: Action, index: nat)
    ensures Placed(Act(img, action), index) == Placed(img, index)
  {
  }

  /** A like flips `isLiked` and moves `likes` by one toward the new state. */
  lemma LikeCounts(img: GalleryImage)
    ensures Act(img, LikeAction).isLiked != img.isLiked
    ensures Act(img, LikeAction).likes == img.likes + (if img.isLiked then -1 else 1)
    ensures Act(img, LikeAction).isBookmarked == img.isBookmarked
  {
  }

  /** A bookmark changes nothing but `isBookmarked`. */
  lemma BookmarkOnlyFlips(img: GalleryImage)
    ensures Act(img, BookmarkAction) == img.(isBookmarked := !img.isBookmarked)
  {
  }

  /** Two equal actions in a row restore the list. */
  lemma ActionTwiceRestores(images: seq<GalleryImage>, imageId: string, action: Action)
    ensures ApplyAction(ApplyAction(images, imageId, action), imageId, action) == images
  {
    var once := ApplyAction(images, imageId, action);
    var twice := ApplyAction(once, imageId, action);
    assert forall i :: 0 <= i < |images| ==> twice[i] == images[i];
  }

  // ---------------------------------------------------------------- pagination

  /** A batch generated from the current length continues the positions. */
  lemma PlacedAppend(images: seq<GalleryImage>, batch: seq<GalleryImage>)
    requires forall i :: 0 <= i < |images| ==> Placed(images[i], i)
    requires forall k :: 0 <= k < |batch| ==> Placed(batch[k], |images| + k)
    ensures forall i :: 0 <= i < |images + batch| ==> Placed((images + batch)[i], i)
  {
    forall i | 0 <= i < |images + batch| ensures Placed((images + batch)[i], i) {
      if i >= |images| {
        assert (images + batch)[i] == batch[i - |images|];
      } else {
        assert (images + batch)[i] == images[i];
      }
    }
  }

  const PageSize: nat := 20
  /** `loadMoreImages` stops offering more once it runs at this page. */
  const LastLoadPage: nat := 4

  class Gallery {
    const noise: nat -> Noise
    var images: seq<GalleryImage>
    var searchTerm: string
    var selectedCategory: string
    var selectedStyle: string
    var isLoading: bool
    var hasMore: bool
    var page: nat

    /**
     * The pagination invariant: `page` batches of twenty are loaded, each image
     * keeps the fields of its position, more is offered until the fifth page,
     * and a load only runs while more is offered.
     */
    predicate Valid()
      reads this
    {
      1 <= page <= LastLoadPage + 1
      && (hasMore <==> page <= LastLoadPage)
      && (isLoading ==> hasMore)
      && |images| == PageSize * page
      && forall i :: 0 <= i < |images| ==> Placed(images[i], i)
    }

    /** The gallery after its mount effect: the first twenty images and no filters. */
    constructor (noise: nat -> Noise)
      ensures this.noise == noise
      ensures images == Generate(0, PageSize, noise)
      ensures searchTerm == [] && selectedCategory == All && selectedStyle == All
      ensures !isLoading && hasMore && page == 1
      ensures Valid()
    {
      var first := Generate(0, PageSize, noise);
      PlacedAppend([], first);
      assert [] + first == first;
      this.noise := noise;
      images := first;
      searchTerm := [];
      selectedCategory := All;
      selectedStyle := All;
      isLoading := false;
      hasMore := true;
      page := 1;
    }

    /** The list on screen. */
    function FilteredImages(): seq<GalleryImage>
      reads this
    {
      Filtered(images, searchTerm, selectedCategory, selectedStyle)
    }

    /** The loaded images never exceed a hundred, and their ids are all different. */
    lemma Bounded()
      requires Valid()
      ensures |images| <= 100
      ensures forall i, j :: 0 <= i < j < |images| ==> images[i].id != images[j].id
    {
      PlacedIdsUnique(images);
    }

    /** `loadMoreImages` up to its timer: ignored while loading or when nothing more is offered. */
    method RequestMore() returns (started: bool)
      modifies this`isLoading
      ensures started <==> !old(isLoading) && hasMore
      ensures isLoading == (old(isLoading) || started)
      ensures old(Valid()) ==> Valid()
    {
      if isLoading || !hasMore {
        return false;
      }
      isLoading := true;
      started := true;
    }

    /**
     * The timer's callback: the next twenty images are appended, the page
     * advances, and more is offered no longer once the page that loaded was
     * the fourth or later.
     */
    method FinishLoad()
      requires isLoading
      modifies this`images, this`page, this`isLoading, this`hasMore
      ensures images == old(images) + Generate(PageSize * old(page), PageSize, noise)
      ensures page == old(page) + 1
      ensures !isLoading
      ensures hasMore == (old(hasMore) && old(page) < LastLoadPage)
      ensures old(Valid()) ==> Valid()
    {
      var batch := Generate(PageSize * page, PageSize, noise);
      if Valid() {
        PlacedAppend(images, batch);
      }
      images := images + batch;
      if page >= LastLoadPage {
        hasMore := false;
      }
      page := page + 1;
      isLoading := false;
    }

    /** `handleImageAction`: see `ApplyAction`; the pagination invariant is kept. */
    method HandleImageAction(imageId: string, action: Action)
      modifies this`images
      ensures images == ApplyAction(old(images), imageId, action)
      ensures old(Valid()) ==> Valid()
    {
      var before := images;
      images := ApplyAction(images, imageId, action);
      forall i | 0 <= i < |images| ensures Placed(images[i], i) == Placed(before[i], i) {
        ActKeepsPlace(before[i], action, i);
      }
    }

    method SetSearchTerm(term: string)
      modifies this`searchTerm
      ensures searchTerm == term
    {
      searchTerm := term;
    }

    method SetCategory(category: string)
      modifies this`selectedCategory
      ensures selectedCategory == category
    {
      selectedCategory := category;
    }

    method SetStyle(style: string)
      modifies this`selectedStyle
      ensures selectedStyle == style
    {
      selectedStyle := style;
    }
  }
}
