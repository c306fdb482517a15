/**
 * The gallery lightbox: one image of the gallery's filtered list at a time,
 * with previous/next navigation, a zoom between 50% and 300% in quarter
 * steps, an info panel, keyboard shortcuts, like/bookmark buttons that act
 * on the gallery, and a download named after the title.
 */
module Lightbox {
  import Text
  import opened AdvancedGallery

  // ---------------------------------------------------------------- position

  /** `images.findIndex(img => img.id === id)`: the first position with that id, or -1. */
  function IndexOf(images: seq<GalleryImage>, id: string): (k: int)
    ensures -1 <= k < |images|
    ensures k >= 0 ==> images[k].id == id && forall j :: 0 <= j < k ==> images[j].id != id
    ensures k == -1 <==> forall j :: 0 <= j < |images| ==> images[j].id != id
  {
    if images == [] then -1
    else if images[0].id == id then 0
    else
      var k := IndexOf(images[1..], id);
      if k == -1 then -1 else k + 1
  }

  predicate UniqueIds(images: seq<GalleryImage>) {
    forall i, j :: 0 <= i < j < |images| ==> images[i].id != images[j].id
  }

  /** With distinct ids every image is found at its own position. */
  lemma IndexOfUnique(images: seq<GalleryImage>, k: nat)
    requires UniqueIds(images) && k < |images|
    ensures IndexOf(images, images[k].id) == k
  {
  }

  /** Keeping a subset of a list with distinct ids keeps the ids distinct. */
  lemma {:induction false} FilterKeepsUnique(images: seq<GalleryImage>, p: GalleryImage -> bool)
    requires UniqueIds(images)
    ensures UniqueIds(Sequences.Filter(images, p))
  {
    if images != [] {
      var rest := images[1..];
      UniqueTail(images);
      FilterKeepsUnique(rest, p);
      var tail := Sequences.Filter(rest, p);
      if p(images[0]) {
        forall j | 0 <= j < |tail| ensures tail[j].id != images[0].id {
          assert tail[j] in rest;
          var m :| 0 <= m < |rest| && rest[m] == tail[j];
          assert rest[m] == images[m + 1];
        }
        UniqueCons(images[0], tail);
      }
    }
  }

  lemma UniqueTail(images: seq<GalleryImage>)
    requires images != [] && UniqueIds(images)
    ensures UniqueIds(images[1..])
  {
    var rest := images[1..];
    forall i, j | 0 <= i < j < |rest| ensures rest[i].id != rest[j].id {
      assert rest[i] == images[i + 1] && rest[j] == images[j + 1];
    }
  }

  lemma UniqueCons(x: GalleryImage, tail: seq<GalleryImage>)
    requires UniqueIds(tail)
    requires forall j :: 0 <= j < |tail| ==> tail[j].id != x.id
    ensures UniqueIds([x] + tail)
  {
    var r := [x] + tail;
    forall i, j | 0 <= i < j < |r| ensures r[i].id != r[j].id {
      assert r[j] == tail[j - 1];
      if i > 0 {
        assert r[i] == tail[i - 1];
      }
    }
  }

  /** The list a valid gallery hands the lightbox has distinct ids. */
  lemma ShownListUnique(images: seq<GalleryImage>, term: string, category: string, style: string)
    requires UniqueIds(images)
    ensures UniqueIds(Filtered(images, term, category, style))
  {
    FilteredSpec(images, term, category, style);
    FilterKeepsUnique(images, KeepTest(term, category, style));
  }

  // ---------------------------------------------------------------- actions and the list

  /** An action changes neither the id of an image nor whether the filters keep it. */
  lemma ActKeepsFilters(img: GalleryImage, action: Action, term: string, category: string, style: string)
    ensures Act(img, action).id == img.id
    ensures Keep(Act(img, action), term, category, style) == Keep(img, term, category, style)
  {
  }

  /** Filtering then acting is acting then filtering. */
  lemma {:induction false} FilterThenAct(images: seq<GalleryImage>, imageId: string, action: Action,
                                         term: string, category: string, style: string)
    ensures Sequences.Filter(ApplyAction(images, imageId, action), KeepTest(term, category, style))
         == ApplyAction(Sequences.Filter(images, KeepTest(term, category, style)), imageId, action)
  {
    var p := KeepTest(term, category, style);
    if images != [] {
      FilterThenAct(images[1..], imageId, action, term, category, style);
      var acted := ApplyAction(images, imageId, action);
      assert acted[1..] == ApplyAction(images[1..], imageId, action);
      ActKeepsFilters(images[0], action, term, category, style);
      assert p(acted[0]) == p(images[0]);
      if p(images[0]) {
        var kept := Sequences.Filter(images, p);
        assert kept == [images[0]] + Sequences.Filter(images[1..], p);
        assert kept[1..] == Sequences.Filter(images[1..], p);
      }
    }
  }

  /**
   * A like or a bookmark in the gallery reaches the lightbox's list as the
   * same action: nothing enters or leaves the list and nothing moves.
   */
  lemma ShownListAfterAction(images: seq<GalleryImage>, imageId: string, action: Action,
                             term: string, category: string, style: string)
    ensures Filtered(ApplyAction(images, imageId, action), term, category, style)
         == ApplyAction(Filtered(images, term, category, style), imageId, action)
  {
    FilteredIsKeep(images, term, category, style);
    FilteredIsKeep(ApplyAction(images, imageId, action), term, category, style);
    FilterThenAct(images, imageId, action, term, category, style);
  }

  /** An action never changes where an id is found. */
  lemma {:induction false} IndexOfAfterAction(images: seq<GalleryImage>, imageId: string, action: Action, id: string)
    ensures IndexOf(ApplyAction(images, imageId, action), id) == IndexOf(images, id)
  {
    if images != [] {
      IndexOfAfterAction(images[1..], imageId, action, id);
      assert ApplyAction(images, imageId, action)[1..] == ApplyAction(images[1..], imageId, action);
    }
  }

  // ---------------------------------------------------------------- the image shown

  /**
   * The current version of `img` in `images`: the first image with its id, or
   * `img` itself when the list holds none.
   */
  function Latest(images: seq<GalleryImage>, img: GalleryImage): (r: GalleryImage)
    ensures r.id == img.id
    ensures IndexOf(images, img.id) == -1 ==> r == img
    ensures IndexOf(images, img.id) >= 0 ==> r in images
  {
    var k := IndexOf(images, img.id);
    if k == -1 then img else images[k]
  }

  /**
   * As written, the lightbox shows the image object the gallery selected:
   * once a like or bookmark has gone through, that copy no longer agrees with
   * the gallery's own version of the image.
   */
  lemma SelectedCopyGoesStale(images: seq<GalleryImage>, selected: GalleryImage, action: Action)
    requires IndexOf(images, selected.id) >= 0 && images[IndexOf(images, selected.id)] == selected
    ensures Latest(ApplyAction(images, selected.id, action), selected) != selected
    ensures action == LikeAction ==> Latest(ApplyAction(images, selected.id, action), selected).isLiked != selected.isLiked
  {
    IndexOfAfterAction(images, selected.id, action, selected.id);
  }

  /** Reading the image back by id follows every action on it. */
  lemma LatestFollowsAction(images: seq<GalleryImage>, selected: GalleryImage, action: Action)
    requires IndexOf(images, selected.id) >= 0
    ensures Latest(ApplyAction(images, selected.id, action), selected) == Act(Latest(images, selected), action)
  {
    IndexOfAfterAction(images, selected.id, action, selected.id);
  }

  // ---------------------------------------------------------------- zoom

  const MinZoom: real := 0.5
  const MaxZoom: real := 3.0
  const ZoomStep: real := 0.25

  /** A zoom level is a whole number of quarter steps. */
  predicate OnQuarterStep(z: real) {
    (z * 4.0).Floor as real == z * 4.0
  }

  function Min(a: real, b: real): real { if a <= b then a else b }
  function Max(a: real, b: real): real { if a >= b then a else b }

  /** One quarter step either way stays on a quarter step. */
  lemma QuarterShift(z: real)
    ensures OnQuarterStep(z) ==> OnQuarterStep(z + ZoomStep) && OnQuarterStep(z - ZoomStep)
  {
    if OnQuarterStep(z) {
      var k := (z * 4.0).Floor;
      assert (z + ZoomStep) * 4.0 == (k + 1) as real;
      assert ((k + 1) as real).Floor == k + 1;
      assert (z - ZoomStep) * 4.0 == (k - 1) as real;
      assert ((k - 1) as real).Floor == k - 1;
    }
  }

  /** `Math.min(zoom + 0.25, 3)`. */
  function ZoomedIn(z: real): (r: real)
    ensures r <= MaxZoom
    ensures z <= MaxZoom ==> z <= r
    ensures MinZoom <= z <= MaxZoom && OnQuarterStep(z) ==> MinZoom <= r && OnQuarterStep(r)
  {
    QuarterShift(z);
    assert (MaxZoom * 4.0).Floor == 12;
    Min(z + ZoomStep, MaxZoom)
  }

  /** `Math.max(zoom - 0.25, 0.5)`. */
  function ZoomedOut(z: real): (r: real)
    ensures r >= MinZoom
    ensures z >= MinZoom ==> r <= z
    ensures MinZoom <= z <= MaxZoom && OnQuarterStep(z) ==> r <= MaxZoom && OnQuarterStep(r)
  {
    QuarterShift(z);
    assert (MinZoom * 4.0).Floor == 2;
    Max(z - ZoomStep, MinZoom)
  }

  /** Below the cap, zooming in then out returns to the same level; above the floor, out then in. */
  lemma ZoomStepsUndo(z: real)
    ensures MinZoom <= z <= MaxZoom - ZoomStep ==> ZoomedOut(ZoomedIn(z)) == z
    ensures MinZoom + ZoomStep <= z <= MaxZoom ==> ZoomedIn(ZoomedOut(z)) == z
  {
  }

  /** `Math.round(x)`: halves go up. */
  function Round(x: real): int {
    (x + 0.5).Floor
  }

  /** The percentage badge, `Math.round(zoom * 100)`: a multiple of 25 from 50 to 300. */
  function ZoomPercent(z: real): (p: int)
    requires MinZoom <= z <= MaxZoom && OnQuarterStep(z)
    ensures 50 <= p <= 300 && p % 25 == 0
    ensures p as real == z * 100.0
  {
    var k := (z * 4.0).Floor;
    assert z * 100.0 == (25 * k) as real;
    assert 2 <= k <= 12;
    Round(z * 100.0)
  }

  // ---------------------------------------------------------------- download

  /** `title.replace(/\s+/g, '-').toLowerCase()`. */
  function Slug(title: string): (s: string)
    ensures Text.NoWhitespace(s)
    ensures |s| <= |title|
  {
    var dashed := Text.ReplaceWhitespaceRuns(title, "-");
    Text.ReplaceLeavesNoWhitespace(title, "-");
    Text.ReplaceNoLonger(title, "-");
    var s := Text.Lower(dashed);
    assert Text.NoWhitespace(s) by {
      forall i | 0 <= i < |s| ensures !Text.IsWhitespace(s[i]) {
        assert s[i] == Text.LowerChar(dashed[i]);
      }
    }
    s
  }

  /** `handleDownload(format = 'jpg')`: the file name it gives the download. */
  function DownloadName(title: string, format: string := "jpg"): (name: string)
    ensures |name| == |Slug(title)| + 1 + |format|
    ensures name[..|Slug(title)|] == Slug(title)
    ensures name[|Slug(title)|] == '.' && name[|Slug(title)| + 1..] == format
  {
    Slug(title) + "." + format
  }

  /** A one-word title is only lower-cased. */
  lemma SlugOfWord(title: string)
    requires Text.NoWhitespace(title)
    ensures Slug(title) == Text.Lower(title)
  {
    Text.ReplaceIdentity(title, "-");
  }

  /** Words separated by any run of whitespace are joined by one `-`. */
  lemma SlugJoinsWords(word: string, run: string, rest: string)
    requires Text.NoWhitespace(word) && Text.NoWhitespace(rest)
    requires run != [] && forall i :: 0 <= i < |run| ==> Text.IsWhitespace(run[i])
    ensures Slug(word + run + rest) == Text.Lower(word) + "-" + Text.Lower(rest)
  {
    assert rest == [] || !Text.IsWhitespace(rest[0]);
    Text.ReplaceRun(word, run, rest, "-");
    Text.ReplaceIdentity(rest, "-");
    Text.ReplaceIdentity(word, "-");
    assert Text.ReplaceWhitespaceRuns(word + run + rest, "-") == word + "-" + rest;
    Text.LowerAppend(word, "-");
    Text.LowerAppend(word + "-", rest);
    assert Text.Lower("-") == "-" by {
      assert Text.Lower("-")[0] == Text.LowerChar('-');
    }
    assert Text.Lower(word + "-" + rest) == Text.Lower(word) + "-" + Text.Lower(rest);
  }

  // ---------------------------------------------------------------- the component

  /** The keys the lightbox listens to. */
  datatype Command = CloseCmd | PreviousCmd | NextCmd | ZoomInCmd | ZoomOutCmd | FitCmd | InfoCmd | NoCmd

  function KeyCommand(key: string): Command {
    if key == "Escape" then CloseCmd
    else if key == "ArrowLeft" then PreviousCmd
    else if key == "ArrowRight" then NextCmd
    else if key == "+" || key == "=" then ZoomInCmd
    else if key == "-" then ZoomOutCmd
    else if key == "0" then FitCmd
    else if key == "i" then InfoCmd
    else NoCmd
  }

  /** `+` and `=` both zoom in, and only the eight listed keys do anything. */
  lemma KeyCommandKeys(key: string)
    ensures KeyCommand(key) == ZoomInCmd <==> key == "+" || key == "="
    ensures KeyCommand(key) == NoCmd <==> key !in {"Escape", "ArrowLeft", "ArrowRight", "+", "=", "-", "0", "i"}
  {
  }

  class Lightbox {
    /** The gallery that opened the lightbox; its filtered list is the `images` prop. */
    const gallery: Gallery
    /** The gallery's `selectedImage`, the `image` prop. */
    var image: GalleryImage
    /** `selectedImage` is set: the lightbox is mounted. */
    var open: bool
    var zoom: real
    var showInfo: bool

    /** Opening the lightbox on an image: full size, info shown. */
    constructor (gallery: Gallery, image: GalleryImage)
      ensures this.gallery == gallery && this.image == image && open
      ensures zoom == 1.0 && showInfo
      ensures ZoomValid()
    {
      this.gallery := gallery;
      this.image := image;
      open := true;
      zoom := 1.0;
      showInfo := true;
    }

    predicate ZoomValid()
      reads this
    {
      MinZoom <= zoom <= MaxZoom && OnQuarterStep(zoom)
    }

    function Images(): seq<GalleryImage>
      reads gallery
    {
      gallery.FilteredImages()
    }

    function CurrentIndex(): int
      reads this, gallery
    {
      IndexOf(Images(), image.id)
    }

    predicate CanGoNext()
      reads this, gallery
    {
      CurrentIndex() < |Images()| - 1
    }

    predicate CanGoPrev()
      reads this, gallery
    {
      CurrentIndex() > 0
    }

    /** The image whose heart, like count and bookmark the info panel shows. */
    function Shown(): GalleryImage
      reads this, gallery
    {
      Latest(gallery.images, image)
    }

    /**
     * An image whose id the list does not hold sits at position -1: the badge
     * reads `0 of n`, there is no previous image, and next leads to the first.
     */
    lemma UnlistedNextIsFirst()
      requires forall j :: 0 <= j < |Images()| ==> Images()[j].id != image.id
      ensures CurrentIndex() + 1 == 0
      ensures !CanGoPrev()
      ensures CanGoNext() <==> |Images()| > 0
    {
    }

    /**
     * The header badge `{currentIndex + 1} of {images.length}`: the position
     * counted from 1, 0 for an image the list does not hold, and the length.
     */
    function Counter(): (c: (nat, nat))
      reads this, gallery
      ensures c.0 <= c.1 && c.1 == |Images()|
    {
      (CurrentIndex() + 1, |Images()|)
    }

    /** The badge's position names the shown image, and reads 0 exactly when the list lacks it. */
    lemma CounterNamesShown()
      ensures Counter().0 == 0 <==> forall j :: 0 <= j < |Images()| ==> Images()[j].id != image.id
      ensures Counter().0 > 0 ==> Images()[Counter().0 - 1].id == image.id
    {
    }

    /** `handleNext`: the following image, back to full size; nothing at the end. */
    method Next()
      modifies this`image, this`zoom
      ensures old(CanGoNext()) ==> image == Images()[old(CurrentIndex()) + 1] && zoom == 1.0
      ensures old(CanGoNext()) && UniqueIds(Images()) ==> CurrentIndex() == old(CurrentIndex()) + 1
      ensures old(CanGoNext()) && UniqueIds(Images()) ==> Counter().0 == old(Counter().0) + 1
      ensures !old(CanGoNext()) ==> image == old(image) && zoom == old(zoom)
      ensures old(ZoomValid()) ==> ZoomValid()
    {
      if CanGoNext() {
        var k := CurrentIndex() + 1;
        image := Images()[k];
        zoom := 1.0;
        if UniqueIds(Images()) {
          IndexOfUnique(Images(), k);
        }
        assert OnQuarterStep(1.0);
      }
    }

    /** `handlePrevious`: the preceding image, back to full size; nothing at the start. */
    method Previous()
      modifies this`image, this`zoom
      ensures old(CanGoPrev()) ==> image == Images()[old(CurrentIndex()) - 1] && zoom == 1.0
      ensures old(CanGoPrev()) && UniqueIds(Images()) ==> CurrentIndex() == old(CurrentIndex()) - 1
      ensures old(CanGoPrev()) && UniqueIds(Images()) ==> Counter().0 == old(Counter().0) - 1
      ensures !old(CanGoPrev()) ==> image == old(image) && zoom == old(zoom)
      ensures old(ZoomValid()) ==> ZoomValid()
    {
      if CanGoPrev() {
        var k := CurrentIndex() - 1;
        image := Images()[k];
        zoom := 1.0;
        if UniqueIds(Images()) {
          IndexOfUnique(Images(), k);
        }
        assert OnQuarterStep(1.0);
      }
    }

    method ZoomIn()
      modifies this`zoom
      ensures zoom == ZoomedIn(old(zoom))
      ensures old(ZoomValid()) ==> ZoomValid()
    {
      zoom := ZoomedIn(zoom);
    }

    method ZoomOut()
      modifies this`zoom
      ensures zoom == ZoomedOut(old(zoom))
      ensures old(ZoomValid()) ==> ZoomValid()
    {
      zoom := ZoomedOut(zoom);
    }

    /** The `Fit` button and the `0` key. */
    method Fit()
      modifies this`zoom
      ensures zoom == 1.0 && ZoomValid()
    {
      zoom := 1.0;
      assert OnQuarterStep(1.0);
    }

    method ToggleInfo()
      modifies this`showInfo
      ensures showInfo == !old(showInfo)
    {
      showInfo := !showInfo;
    }

    /** `onClose`: the gallery clears its selection. */
    method Close()
      modifies this`open
      ensures !open
    {
      open := false;
    }

    /** The keyboard handler. */
    method HandleKey(key: string)
      modifies this`image, this`zoom, this`showInfo, this`open
      ensures open == (old(open) && KeyCommand(key) != CloseCmd)
      ensures showInfo == (if KeyCommand(key) == InfoCmd then !old(showInfo) else old(showInfo))
      ensures image == (match KeyCommand(key)
                        case NextCmd => if old(CanGoNext()) then Images()[old(CurrentIndex()) + 1] else old(image)
                        case PreviousCmd => if old(CanGoPrev()) then Images()[old(CurrentIndex()) - 1] else old(image)
                        case _ => old(image))
      ensures zoom == (match KeyCommand(key)
                       case NextCmd => if old(CanGoNext()) then 1.0 else old(zoom)
                       case PreviousCmd => if old(CanGoPrev()) then 1.0 else old(zoom)
                       case ZoomInCmd => ZoomedIn(old(zoom))
                       case ZoomOutCmd => ZoomedOut(old(zoom))
                       case FitCmd => 1.0
                       case _ => old(zoom))
      ensures old(ZoomValid()) ==> ZoomValid()
    {
      var command := KeyCommand(key);
      match command
      case CloseCmd => Close();
      case PreviousCmd => Previous();
      case NextCmd => Next();
      case ZoomInCmd => ZoomIn();
      case ZoomOutCmd => ZoomOut();
      case FitCmd => Fit();
      case InfoCmd => ToggleInfo();
      case NoCmd =>
    }

    /**
     * The heart or bookmark button: the gallery's `handleImageAction` on the
     * selected id. The list the lightbox walks keeps its order and positions,
     * and the image read back by id shows the action.
     */
    method Act(action: Action)
      modifies gallery`images
      ensures gallery.images == ApplyAction(old(gallery.images), image.id, action)
      ensures Images() == ApplyAction(old(Images()), image.id, action)
      ensures CurrentIndex() == old(CurrentIndex())
      ensures IndexOf(old(gallery.images), image.id) >= 0 ==> Shown() == AdvancedGallery.Act(old(Shown()), action)
      ensures old(gallery.Valid()) ==> gallery.Valid()
    {
      var before := gallery.images;
      gallery.HandleImageAction(image.id, action);
      ShownListAfterAction(before, image.id, action, gallery.searchTerm, gallery.selectedCategory, gallery.selectedStyle);
      IndexOfAfterAction(Filtered(before, gallery.searchTerm, gallery.selectedCategory, gallery.selectedStyle),
                         image.id, action, image.id);
      if IndexOf(before, image.id) >= 0 {
        LatestFollowsAction(before, image, action);
      }
    }
  }
}
