/**
 * The community gallery: three shared images, a prompt search and a style
 * chip (`all`, `photorealistic`, `artistic`, `fantasy`), both ignoring case.
 */
module CommunityGallery {
  import Text
  import Sequences

  datatype CommunityImage = CommunityImage(
    id: string,
    prompt: string,
    style: string,
    likes: nat,
    author: string,
    timestamp: string)

  const CommunityImages: seq<CommunityImage> := [
    CommunityImage("1", "A futuristic cityscape at sunset with neon lights", "Photorealistic", 156, "ArtMaster", "2h ago"),
    CommunityImage("2", "Majestic dragon flying over mountains", "Fantasy", 243, "DragonLord", "4h ago"),
    CommunityImage("3", "Peaceful zen garden with cherry blossoms", "Artistic", 89, "ZenMaster", "6h ago")
  ]

  const AllFilter: string := "all"
  const FilterChips: seq<string> := [AllFilter, "photorealistic", "artistic", "fantasy"]

  /** The prompt holds the search term, ignoring case. */
  predicate MatchesSearch(img: CommunityImage, term: string) {
    Text.Contains(Text.Lower(img.prompt), Text.Lower(term))
  }

  /** The chip is `all`, or names the image's style ignoring case. */
  predicate MatchesFilter(img: CommunityImage, filter: string) {
    filter == AllFilter || Text.Lower(img.style) == Text.Lower(filter)
  }

  function KeepTest(term: string, filter: string): CommunityImage -> bool {
    img => MatchesSearch(img, term) && MatchesFilter(img, filter)
  }

  /** `filteredImages`: the images passing both tests, in their original order. */
  function FilteredImages(images: seq<CommunityImage>, term: string, filter: string): (r: seq<CommunityImage>)
    ensures forall img :: img in r <==> img in images && MatchesSearch(img, term) && MatchesFilter(img, filter)
    ensures Sequences.IsSubsequence(r, images)
    ensures |r| <= |images|
  {
    Sequences.FilterIsSubsequence(images, KeepTest(term, filter));
    Sequences.Filter(images, KeepTest(term, filter))
  }

  /** An empty search under the `all` chip shows every image. */
  lemma NoFilterShowsAll(images: seq<CommunityImage>)
    ensures FilteredImages(images, "", AllFilter) == images
  {
    forall i | 0 <= i < |images| ensures KeepTest("", AllFilter)(images[i]) {
      Text.ContainsEmpty(Text.Lower(images[i].prompt));
    }
    Sequences.FilterAll(images, KeepTest("", AllFilter));
  }

  /** Narrowing the search never brings an image back: a longer term keeps a subset. */
  lemma LongerTermKeepsFewer(images: seq<CommunityImage>, term: string, more: string, filter: string)
    ensures forall img :: img in FilteredImages(images, term + more, filter) ==> img in FilteredImages(images, term, filter)
  {
    forall img | img in FilteredImages(images, term + more, filter)
      ensures img in FilteredImages(images, term, filter)
    {
      var p := Text.Lower(img.prompt);
      Text.LowerAppend(term, more);
      Text.ContainsAt(p, Text.Lower(term + more));
      var i: nat :| Text.OccursAt(p, Text.Lower(term + more), i);
      var t := Text.Lower(term);
      assert p[i..i + |t|] == t by {
        assert Text.Lower(term + more)[..|t|] == t;
      }
      assert Text.OccursAt(p, t, i);
      Text.ContainsAt(p, t);
    }
  }

  /** `filter` over a three-element list. */
  lemma FilterThree(a: CommunityImage, b: CommunityImage, c: CommunityImage, p: CommunityImage -> bool)
    ensures Sequences.Filter([a, b, c], p)
         == (if p(a) then [a] else []) + (if p(b) then [b] else []) + (if p(c) then [c] else [])
  {
    assert [a, b, c][1..] == [b, c];
    assert [b, c][1..] == [c];
    assert [c][1..] == [];
    assert Sequences.Filter([c], p) == if p(c) then [c] else [];
    assert Sequences.Filter([b, c], p) == (if p(b) then [b] else []) + Sequences.Filter([c], p);
    assert Sequences.Filter([a, b, c], p) == (if p(a) then [a] else []) + Sequences.Filter([b, c], p);
  }

  /** With an empty search only the chip decides. */
  lemma EmptySearchMatches(img: CommunityImage)
    ensures MatchesSearch(img, "")
  {
    Text.ContainsEmpty(Text.Lower(img.prompt));
  }

  /**
   * Each style chip picks exactly the image of that style, whatever the case of
   * its style name, from three images styled as the community's are.
   */
  lemma ChipsPickOneEach(a: CommunityImage, b: CommunityImage, c: CommunityImage)
    requires a.style == "Photorealistic" && b.style == "Fantasy" && c.style == "Artistic"
    ensures FilteredImages([a, b, c], "", "photorealistic") == [a]
    ensures FilteredImages([a, b, c], "", "fantasy") == [b]
    ensures FilteredImages([a, b, c], "", "artistic") == [c]
  {
    var p := Text.Lower("Photorealistic");
    assert |p| == 14 && p[0] == 'p';
    var f := Text.Lower("Fantasy");
    assert |f| == 7 && f[0] == 'f';
    var r := Text.Lower("Artistic");
    assert |r| == 8 && r[0] == 'a';
    EmptySearchMatches(a);
    EmptySearchMatches(b);
    EmptySearchMatches(c);
    FilterThree(a, b, c, KeepTest("", "photorealistic"));
    FilterThree(a, b, c, KeepTest("", "fantasy"));
    FilterThree(a, b, c, KeepTest("", "artistic"));
  }

  /** The count badge: the size of the whole collection, not of the filtered view. */
  function CountBadge(): nat {
    |CommunityImages|
  }

  /** A chip or a search can leave fewer images on screen than the badge counts. */
  lemma BadgeCountsUnfiltered()
    ensures |FilteredImages(CommunityImages, "", "fantasy")| == 1 < CountBadge() == 3
  {
    var s := CommunityImages;
    assert s == [s[0], s[1], s[2]];
    ChipsPickOneEach(s[0], s[1], s[2]);
  }
}
