/**
 * The usage calculator: four sliders give image counts, the total credit need
 * is a weighted sum, and the recommended package is the first one large enough.
 */
module UsageCalculator {
  import opened Wrappers

  /** The slider values: basic, HD and ultra-HD images, and batch generations. */
  datatype Usage = Usage(basic: nat, hd: nat, ultraHd: nat, batch: nat)

  const InitialUsage: Usage := Usage(50, 20, 5, 3)

  /** Credits per item. */
  const BasicCost: nat := 1
  const HdCost: nat := 2
  const UltraHdCost: nat := 5
  const BatchCost: nat := 8

  /** A credit package; the price is in cents. */
  datatype Package = Package(credits: nat, priceCents: nat, popular: bool, savings: Option<nat>)

  const Packages: seq<Package> := [
    Package(100, 999, false, None),
    Package(500, 3999, true, Some(20)),
    Package(1000, 6999, false, Some(30)),
    Package(2500, 14999, false, Some(40))
  ]

  /** `calculateTotalCredits`. */
  function TotalCredits(u: Usage): (t: nat)
    ensures t >= u.basic + u.hd + u.ultraHd + u.batch
  {
    u.basic * BasicCost + u.hd * HdCost + u.ultraHd * UltraHdCost + u.batch * BatchCost
  }

  /** Raising any one slider never lowers the total. */
  lemma TotalMonotone(u: Usage, v: Usage)
    requires u.basic <= v.basic && u.hd <= v.hd && u.ultraHd <= v.ultraHd && u.batch <= v.batch
    ensures TotalCredits(u) <= TotalCredits(v)
  {
  }

  /** Each further item adds exactly its price. */
  lemma TotalAddsPrice(u: Usage)
    ensures TotalCredits(u.(basic := u.basic + 1)) == TotalCredits(u) + BasicCost
    ensures TotalCredits(u.(hd := u.hd + 1)) == TotalCredits(u) + HdCost
    ensures TotalCredits(u.(ultraHd := u.ultraHd + 1)) == TotalCredits(u) + UltraHdCost
    ensures TotalCredits(u.(batch := u.batch + 1)) == TotalCredits(u) + BatchCost
  {
  }

  /** The position `creditPackages.find(pkg => pkg.credits >= total)` stops at; `|pkgs|` when none qualifies. */
  function FindIndex(pkgs: seq<Package>, total: int): (k: nat)
    ensures k <= |pkgs|
    ensures forall j :: 0 <= j < k ==> pkgs[j].credits < total
    ensures k < |pkgs| ==> pkgs[k].credits >= total
  {
    if pkgs == [] then 0
    else if pkgs[0].credits >= total then 0
    else 1 + FindIndex(pkgs[1..], total)
  }

  /** `recommendPackage`: the first sufficient package, else the largest one. */
  function Recommend(total: int): (p: Package)
    ensures p in Packages
  {
    var k := FindIndex(Packages, total);
    if k < |Packages| then Packages[k] else Packages[|Packages| - 1]
  }

  predicate StrictlyIncreasing(pkgs: seq<Package>) {
    forall i, j :: 0 <= i < j < |pkgs| ==> pkgs[i].credits < pkgs[j].credits
  }

  lemma PackagesIncreasing()
    ensures StrictlyIncreasing(Packages)
  {
  }

  /**
   * Because the packages grow strictly, the recommendation is the smallest
   * package that covers the need; when none does, it is the largest.
   */
  lemma RecommendSmallestSufficient(total: int)
    ensures (exists k :: 0 <= k < |Packages| && Packages[k].credits >= total) ==>
      Recommend(total).credits >= total
      && forall q :: q in Packages && q.credits >= total ==> Recommend(total).credits <= q.credits
    ensures (forall k :: 0 <= k < |Packages| ==> Packages[k].credits < total) ==>
      Recommend(total) == Packages[3] && Recommend(total).credits < total
  {
    PackagesIncreasing();
    var k := FindIndex(Packages, total);
    if k < |Packages| {
      forall q | q in Packages && q.credits >= total ensures Packages[k].credits <= q.credits {
        var m :| 0 <= m < |Packages| && Packages[m] == q;
        assert !(m < k);
      }
    }
  }

  /** What the sliders can produce: each value a multiple of its step, up to its maximum. */
  predicate OnSliders(u: Usage) {
    u.basic <= 500 && u.basic % 5 == 0
    && u.hd <= 200 && u.hd % 2 == 0
    && u.ultraHd <= 50
    && u.batch <= 20
  }

  /** Within the sliders' range the need is at most 1310, so a package always covers it. */
  lemma SlidersNeverNeedFallback(u: Usage)
    requires OnSliders(u)
    ensures TotalCredits(u) <= 1310
    ensures Recommend(TotalCredits(u)).credits >= TotalCredits(u)
  {
    assert Packages[3].credits >= TotalCredits(u);
    RecommendSmallestSufficient(TotalCredits(u));
  }

  /** The sliders' start values need 139 credits, and the 500-credit package is recommended. */
  lemma InitialRecommendation()
    ensures OnSliders(InitialUsage)
    ensures TotalCredits(InitialUsage) == 139
    ensures Recommend(139) == Packages[1] && Recommend(139).credits == 500
  {
  }

  /**
   * The advertised savings are the saving in price per credit, measured
   * against the 100-credit package, rounded up to a whole percent.
   */
  lemma AdvertisedSavingsMatchUnitPrice(i: nat)
    requires 1 <= i < |Packages|
    ensures Packages[i].savings.Some?
    ensures var p := Packages[i]; var base := Packages[0];
      // savings% = 100 - 100 * (p.price / p.credits) / (base.price / base.credits), scaled to integers
      var exact := 100 * p.credits * base.priceCents - 100 * p.priceCents * base.credits;
      var scale := p.credits * base.priceCents;
      (p.savings.value - 1) * scale < exact <= p.savings.value * scale
  {
    assert i == 1 || i == 2 || i == 3;
  }
}
