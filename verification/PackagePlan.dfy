/** The plan of steps derived from a package's tree: one upload per image, the campaign, its ad sets,
    their ads, and the activation. What the worker relies on of a plan holds of every derived one. */
module PackagePlan {
  import opened Wrappers
  import opened Decimals
  import opened Separators
  import opened SortedStrings
  import opened PublicationSaga
  import opened PublicationWorker
  import opened PublicationRuns
  import opened PublicationProgress

  type Checksum = string

  datatype PlannedAd = PlannedAd(image: Option<Checksum>)

  /** An asset group is itself the ad, with images of its own. */
  datatype PlannedAdSet = PlannedAdSet(assetGroup: Option<seq<Checksum>>, ads: seq<PlannedAd>)

  type Tree = seq<PlannedAdSet>

  const CAMPAIGN_REF := "campaign"

  /** All of a checksum that an image's reference holds. */
  function Start(c: Checksum): string {
    if |c| <= 12 then c else c[..12]
  }

  function ImageRef(c: Checksum): string {
    "img#" + Start(c)
  }

  function AdSetRef(i: nat): string {
    "as#" + Digits(i + 1)
  }

  function AdRef(i: nat, j: nat): string {
    AdSetRef(i) + "/" + ("ad#" + Digits(j + 1))
  }

  function ImageRefs(images: seq<Checksum>): seq<string> {
    seq(|images|, n requires 0 <= n < |images| => ImageRef(images[n]))
  }

  // ---------------------------------------------------------------------------
  // Steps
  // ---------------------------------------------------------------------------

  function ImagesOfAds(ads: seq<PlannedAd>): (images: seq<Checksum>)
    ensures |images| <= |ads|
  {
    if ads == [] then []
    else
      var last := ads[|ads| - 1];
      ImagesOfAds(ads[..|ads| - 1]) + if last.image.Some? then [last.image.value] else []
  }

  /** The images of the ads of the first `n` ad sets. */
  function AdImages(tree: Tree, n: nat): seq<Checksum>
    requires n <= |tree|
  {
    if n == 0 then [] else AdImages(tree, n - 1) + ImagesOfAds(tree[n - 1].ads)
  }

  /** The images of the asset groups among the first `n` ad sets. */
  function GroupImages(tree: Tree, n: nat): seq<Checksum>
    requires n <= |tree|
  {
    if n == 0 then []
    else GroupImages(tree, n - 1) + if tree[n - 1].assetGroup.Some? then tree[n - 1].assetGroup.value else []
  }

  /** The images as they stand in the tree, the ads' before the asset groups'. */
  function Images(tree: Tree): seq<Checksum> {
    AdImages(tree, |tree|) + GroupImages(tree, |tree|)
  }

  /** The first of the images with that reference. */
  function FirstImage(images: seq<Checksum>, localRef: string): Option<Checksum> {
    if images == [] then None
    else if ImageRef(images[0]) == localRef then Some(images[0])
    else FirstImage(images[1..], localRef)
  }

  /** An upload is derived for a checksum but keeps its reference only: what it carries to the platform
      is the first image of the tree with that reference. */
  function UploadStep(tree: Tree, c: Checksum): Template {
    Template(UploadCreative, ImageRef(c), None, None, [], FirstImage(Images(tree), ImageRef(c)))
  }

  function AdSetStep(s: PlannedAdSet, i: nat): Template {
    Template(CreateAdSet, AdSetRef(i), Some(CAMPAIGN_REF), None,
             if s.assetGroup.Some? then SortedSet(ImageRefs(s.assetGroup.value)) else [], None)
  }

  function AdStep(a: PlannedAd, i: nat, j: nat): Template {
    Template(CreateAd, AdRef(i, j), Some(AdSetRef(i)), None,
             if a.image.Some? then [ImageRef(a.image.value)] else [], None)
  }

  function UploadSteps(tree: Tree, images: seq<Checksum>): (steps: Plan)
    ensures |steps| == |images|
  {
    seq(|images|, n requires 0 <= n < |images| => UploadStep(tree, images[n]))
  }

  function AdSetSteps(tree: Tree): (steps: Plan)
    ensures |steps| == |tree|
  {
    seq(|tree|, i requires 0 <= i < |tree| => AdSetStep(tree[i], i))
  }

  function AdStepsOf(s: PlannedAdSet, i: nat): (steps: Plan)
    ensures |steps| == |s.ads|
  {
    seq(|s.ads|, j requires 0 <= j < |s.ads| => AdStep(s.ads[j], i, j))
  }

  /** The ads of the first `n` ad sets. */
  function AdSteps(tree: Tree, n: nat): Plan
    requires n <= |tree|
  {
    if n == 0 then [] else AdSteps(tree, n - 1) + AdStepsOf(tree[n - 1], n - 1)
  }

  const CAMPAIGN_STEP := Template(CreateCampaign, CAMPAIGN_REF, None, None, [], None)

  /** What is the ad: an asset group, or each ad of any other ad set. */
  function AdRefs(tree: Tree): set<string> {
    (set i: nat | i < |tree| && tree[i].assetGroup.Some? :: AdSetRef(i)) +
    (set i: nat, j: nat | i < |tree| && tree[i].assetGroup.None? && j < |tree[i].ads| :: AdRef(i, j))
  }

  function ActivationStep(tree: Tree): Template {
    Template(ActivateCampaign, CAMPAIGN_REF, Some(CAMPAIGN_REF), Some(|AdRefs(tree)|), [], None)
  }

  /** The plan with an upload for each of the images, in their order. */
  function Derive(tree: Tree, images: seq<Checksum>): Plan {
    UploadSteps(tree, images) + [CAMPAIGN_STEP] + AdSetSteps(tree) + AdSteps(tree, |tree|) + [ActivationStep(tree)]
  }

  /** The checksums of the package's images, each once and in order. */
  function Uploads(tree: Tree): seq<Checksum> {
    SortedSet(Images(tree))
  }

  function PlanOf(tree: Tree): Plan {
    Derive(tree, Uploads(tree))
  }

  // ---------------------------------------------------------------------------
  // Bounds
  // ---------------------------------------------------------------------------

  const MAX_AD_SETS := 3
  const MAX_ADS_PER_AD_SET := 4
  const MAX_ADS_TOTAL := 12
  const MAX_DISTINCT_IMAGES := 20
  const MIN_STEPS := 3
  const MAX_STEPS := 29

  /** An asset group has three images and no ads; any other ad set has from one to four ads. */
  predicate LegalAdSet(s: PlannedAdSet) {
    if s.assetGroup.Some? then |s.assetGroup.value| == 3 && s.ads == [] else 1 <= |s.ads| <= MAX_ADS_PER_AD_SET
  }

  ghost predicate LegalTree(tree: Tree) {
    1 <= |tree| <= MAX_AD_SETS && forall i :: 0 <= i < |tree| ==> LegalAdSet(tree[i])
  }

  function AdCount(tree: Tree, n: nat): nat
    requires n <= |tree|
  {
    if n == 0 then 0 else AdCount(tree, n - 1) + |tree[n - 1].ads|
  }

  /** The bounds that a package is proposed within. */
  ghost predicate Proposable(tree: Tree) {
    LegalTree(tree) && AdCount(tree, |tree|) <= MAX_ADS_TOTAL && |Uploads(tree)| <= MAX_DISTINCT_IMAGES
  }

  lemma {:induction false} AtMostFourEach(tree: Tree, n: nat)
    requires LegalTree(tree) && n <= |tree|
    ensures |AdImages(tree, n)| + |GroupImages(tree, n)| <= MAX_ADS_PER_AD_SET * n
    ensures |AdSteps(tree, n)| == AdCount(tree, n) <= MAX_ADS_PER_AD_SET * n
  {
    if n > 0 {
      AtMostFourEach(tree, n - 1);
      assert LegalAdSet(tree[n - 1]);
    }
  }

  /** The bounds on each ad set imply those on the whole package, at most twelve images are uploaded,
      and the plan's length is one that an approval accepts. */
  lemma PlansFitTheEnvelope(tree: Tree)
    requires LegalTree(tree)
    ensures Proposable(tree) && |Uploads(tree)| <= 12
    ensures MIN_STEPS <= |PlanOf(tree)| <= MAX_STEPS
  {
    AtMostFourEach(tree, |tree|);
    SortedSetFacts(Images(tree));
  }

  /** Ad sets without an asset group, each of as many ads without an image. */
  function Grid(adSets: nat, ads: nat): Tree {
    seq(adSets, i => PlannedAdSet(None, seq(ads, j => PlannedAd(None))))
  }

  lemma {:induction false} GridCount(adSets: nat, ads: nat, n: nat)
    requires n <= adSets
    ensures AdCount(Grid(adSets, ads), n) == n * ads
  {
    if n > 0 {
      GridCount(adSets, ads, n - 1);
    }
  }

  /** The bounds are reached: of such packages those from one ad set to three with one to four ads each are
      legal and no others, and the largest has the twelve ads that a package may have. */
  lemma GridIsLegalExactly(adSets: nat, ads: nat)
    ensures LegalTree(Grid(adSets, ads)) <==> 1 <= adSets <= 3 && 1 <= ads <= 4
    ensures AdCount(Grid(adSets, ads), adSets) == adSets * ads
    ensures AdCount(Grid(3, 4), 3) == MAX_ADS_TOTAL
  {
    GridCount(adSets, ads, adSets);
    GridCount(3, 4, 3);
    if adSets > 0 {
      assert |Grid(adSets, ads)[0].ads| == ads;
    }
  }

  /** The longest plans are those of three ad sets with four ads each, every one with its own image. */
  lemma LongestExactlyWhenFull(tree: Tree)
    requires LegalTree(tree)
    ensures |PlanOf(tree)| == MAX_STEPS <==>
            |tree| == MAX_AD_SETS && AdCount(tree, |tree|) == MAX_ADS_TOTAL && |Uploads(tree)| == 12
  {
    AtMostFourEach(tree, |tree|);
    SortedSetFacts(Images(tree));
  }

  // ---------------------------------------------------------------------------
  // The images of a tree
  // ---------------------------------------------------------------------------

  predicate HasImage(ads: seq<PlannedAd>, c: Checksum) {
    exists j :: 0 <= j < |ads| && ads[j].image == Some(c)
  }

  predicate HasGroupImage(s: PlannedAdSet, c: Checksum) {
    s.assetGroup.Some? && c in s.assetGroup.value
  }

  predicate InAdSet(s: PlannedAdSet, c: Checksum) {
    HasGroupImage(s, c) || HasImage(s.ads, c)
  }

  predicate IsImage(tree: Tree, c: Checksum) {
    exists i :: 0 <= i < |tree| && InAdSet(tree[i], c)
  }

  lemma {:induction false} ImagesOfAdsAreTheirs(ads: seq<PlannedAd>, c: Checksum)
    ensures c in ImagesOfAds(ads) <==> HasImage(ads, c)
  {
    if ads != [] {
      var init, last := ads[..|ads| - 1], ads[|ads| - 1];
      ImagesOfAdsAreTheirs(init, c);
      assert HasImage(ads, c) <==> HasImage(init, c) || last.image == Some(c) by {
        if HasImage(init, c) {
          var j :| 0 <= j < |init| && init[j].image == Some(c);
          assert ads[j].image == Some(c);
        }
        if HasImage(ads, c) {
          var j :| 0 <= j < |ads| && ads[j].image == Some(c);
          assert j < |init| ==> init[j].image == Some(c);
        }
      }
    }
  }

  lemma {:induction false} ImagesUpTo(tree: Tree, n: nat, c: Checksum)
    requires n <= |tree|
    ensures c in AdImages(tree, n) || c in GroupImages(tree, n) <==> exists i :: 0 <= i < n && InAdSet(tree[i], c)
  {
    if n > 0 {
      ImagesUpTo(tree, n - 1, c);
      ImagesOfAdsAreTheirs(tree[n - 1].ads, c);
    }
  }

  /** One upload is planned for each image of the package, in the order of their checksums. What it
      carries to the platform is another matter. */
  lemma UploadsAreTheImages(tree: Tree, c: Checksum)
    ensures Ascending(Uploads(tree)) && (c in Uploads(tree) <==> IsImage(tree, c))
  {
    SortedSetFacts(Images(tree));
    ImagesUpTo(tree, |tree|, c);
  }

  ghost predicate Covers(images: seq<Checksum>, tree: Tree) {
    forall c :: IsImage(tree, c) ==> c in images
  }

  // ---------------------------------------------------------------------------
  // Local references
  // ---------------------------------------------------------------------------

  lemma RefFacts(i: nat, k: nat)
    ensures '/' !in AdSetRef(i) && AdSetRef(i)[0] == 'a'
    ensures AdSetRef(i) == AdSetRef(k) ==> i == k
  {
    var digits := Digits(i + 1);
    DigitsReadBack(i + 1);
    assert forall n :: 0 <= n < |digits| ==> IsDigit(digits[n]);
    assert AdSetRef(i)[3..] == Digits(i + 1) && AdSetRef(k)[3..] == Digits(k + 1);
    if AdSetRef(i) == AdSetRef(k) {
      DigitsInjective(i + 1, k + 1);
    }
  }

  lemma AdRefFacts(i: nat, j: nat, k: nat, l: nat)
    ensures '/' in AdRef(i, j) && AdRef(i, j)[0] == 'a'
    ensures AdRef(i, j) == AdRef(k, l) ==> i == k && j == l
  {
    RefFacts(i, k);
    RefFacts(k, i);
    assert AdRef(i, j)[|AdSetRef(i)|] == '/';
    if AdRef(i, j) == AdRef(k, l) {
      SplitAtFirst('/', AdSetRef(i), "ad#" + Digits(j + 1), AdSetRef(k), "ad#" + Digits(l + 1));
      assert ("ad#" + Digits(j + 1))[3..] == Digits(j + 1) && ("ad#" + Digits(l + 1))[3..] == Digits(l + 1);
      DigitsInjective(j + 1, l + 1);
    }
  }

  lemma Short(n: nat)
    requires n < 13
    ensures |Digits(n + 1)| <= 2
  {
  }

  // ---------------------------------------------------------------------------
  // The ads of a tree
  // ---------------------------------------------------------------------------

  predicate IsAdStep(tree: Tree, t: Template, i: int, j: int) {
    0 <= i < |tree| && 0 <= j < |tree[i].ads| && t == AdStep(tree[i].ads[j], i, j)
  }

  /** The step is one of an ad of the first `n` ad sets. */
  predicate FromTree(tree: Tree, t: Template, n: nat) {
    exists i, j :: 0 <= i < |tree| && i < n && 0 <= j < |tree[i].ads| && IsAdStep(tree, t, i, j)
  }

  ghost predicate Complete(tree: Tree, steps: Plan, n: nat) {
    forall i, j :: 0 <= i < |tree| && i < n && 0 <= j < |tree[i].ads| ==> AdStep(tree[i].ads[j], i, j) in steps
  }

  predicate DistinctRefs(steps: Plan) {
    forall s, r :: 0 <= s < r < |steps| ==> steps[s].localRef != steps[r].localRef
  }

  ghost predicate AllFromTree(tree: Tree, steps: Plan, n: nat) {
    forall t :: t in steps ==> FromTree(tree, t, n)
  }

  ghost predicate AllOwn(tree: Tree, own: Plan, i: nat)
    requires i < |tree|
  {
    && (forall t :: t in own ==> exists j :: 0 <= j < |tree[i].ads| && IsAdStep(tree, t, i, j))
    && (forall j :: 0 <= j < |tree[i].ads| ==> AdStep(tree[i].ads[j], i, j) in own)
    && DistinctRefs(own)
  }

  lemma OwnAds(tree: Tree, i: nat)
    requires i < |tree|
    ensures AllOwn(tree, AdStepsOf(tree[i], i), i)
  {
    var own := AdStepsOf(tree[i], i);
    forall t | t in own ensures exists j :: 0 <= j < |tree[i].ads| && IsAdStep(tree, t, i, j) {
      var j :| 0 <= j < |own| && own[j] == t;
      assert IsAdStep(tree, t, i, j);
    }
    forall j | 0 <= j < |tree[i].ads| ensures AdStep(tree[i].ads[j], i, j) in own {
      assert own[j] == AdStep(tree[i].ads[j], i, j);
    }
    forall s, r | 0 <= s < r < |own| ensures own[s].localRef != own[r].localRef {
      AdRefFacts(i, s, i, r);
    }
  }

  lemma FromTreeGrows(tree: Tree, t: Template, n: nat)
    requires FromTree(tree, t, n)
    ensures FromTree(tree, t, n + 1)
  {
    var i, j :| 0 <= i < |tree| && i < n && 0 <= j < |tree[i].ads| && IsAdStep(tree, t, i, j);
    assert IsAdStep(tree, t, i, j);
  }

  lemma OtherSetsDiffer(tree: Tree, n: nat, a: Template, b: Template)
    requires n < |tree| && FromTree(tree, a, n) && exists j :: 0 <= j < |tree[n].ads| && IsAdStep(tree, b, n, j)
    ensures a.localRef != b.localRef
  {
    var i, j :| 0 <= i < |tree| && i < n && 0 <= j < |tree[i].ads| && IsAdStep(tree, a, i, j);
    var l :| 0 <= l < |tree[n].ads| && IsAdStep(tree, b, n, l);
    AdRefFacts(i, j, n, l);
  }

  lemma DistinctWithOwn(tree: Tree, i: nat, before: Plan, own: Plan)
    requires i < |tree| && AllFromTree(tree, before, i) && DistinctRefs(before) && AllOwn(tree, own, i)
    ensures DistinctRefs(before + own)
  {
    forall s, r | 0 <= s < r < |before + own| ensures (before + own)[s].localRef != (before + own)[r].localRef {
      if s < |before| && r >= |before| {
        assert before[s] in before && own[r - |before|] in own;
        OtherSetsDiffer(tree, i, before[s], own[r - |before|]);
      }
    }
  }

  lemma {:induction false} AdStepsAreTheAds(tree: Tree, n: nat)
    requires n <= |tree|
    ensures var steps := AdSteps(tree, n);
            AllFromTree(tree, steps, n) && Complete(tree, steps, n) && DistinctRefs(steps)
  {
    if n > 0 {
      var before, own := AdSteps(tree, n - 1), AdStepsOf(tree[n - 1], n - 1);
      AdStepsAreTheAds(tree, n - 1);
      OwnAds(tree, n - 1);
      DistinctWithOwn(tree, n - 1, before, own);
    }
  }

  // ---------------------------------------------------------------------------
  // The plan, place by place
  // ---------------------------------------------------------------------------

  /** Where in the plan what stands: uploads, the campaign, the ad sets, the ads, the activation. */
  ghost predicate Laid(plan: Plan, tree: Tree, images: seq<Checksum>) {
    var u, a := |images|, |images| + 1 + |tree|;
    && a < |plan|
    && (forall n :: 0 <= n < u ==> plan[n] == UploadStep(tree, images[n]))
    && plan[u] == CAMPAIGN_STEP
    && (forall n :: u < n < a ==> plan[n] == AdSetStep(tree[n - u - 1], n - u - 1))
    && (forall n :: a <= n < |plan| - 1 ==> FromTree(tree, plan[n], |tree|))
    && plan[|plan| - 1] == ActivationStep(tree)
  }

  ghost predicate HasPlace(plan: Plan, t: Template, from: nat) {
    exists n :: from <= n < |plan| - 1 && plan[n] == t
  }

  ghost predicate AdsOnce(plan: Plan, tree: Tree, from: nat) {
    && (forall m, n :: from <= m < n < |plan| - 1 ==> plan[m].localRef != plan[n].localRef)
    && (forall i, j :: 0 <= i < |tree| && 0 <= j < |tree[i].ads| ==> HasPlace(plan, AdStep(tree[i].ads[j], i, j), from))
  }

  ghost predicate InRow(plan: Plan, uploads: Plan, adSets: Plan, ads: Plan, last: Template) {
    var u, a := |uploads|, |uploads| + 1 + |adSets|;
    && |plan| == a + |ads| + 1
    && (forall n :: 0 <= n < u ==> plan[n] == uploads[n])
    && plan[u] == CAMPAIGN_STEP
    && (forall n :: u < n < a ==> plan[n] == adSets[n - u - 1])
    && (forall n :: a <= n < |plan| - 1 ==> plan[n] == ads[n - a])
    && plan[|plan| - 1] == last
  }

  lemma PlacesInRow(uploads: Plan, adSets: Plan, ads: Plan, last: Template)
    ensures InRow(uploads + [CAMPAIGN_STEP] + adSets + ads + [last], uploads, adSets, ads, last)
  {
  }

  lemma AdsInRow(plan: Plan, tree: Tree, uploads: Plan, adSets: Plan, ads: Plan, last: Template)
    requires InRow(plan, uploads, adSets, ads, last)
    requires AllFromTree(tree, ads, |tree|) && Complete(tree, ads, |tree|) && DistinctRefs(ads)
    ensures AdsOnce(plan, tree, |uploads| + 1 + |adSets|)
    ensures forall n :: |uploads| + 1 + |adSets| <= n < |plan| - 1 ==> FromTree(tree, plan[n], |tree|)
  {
    var a := |uploads| + 1 + |adSets|;
    forall n | a <= n < |plan| - 1 ensures FromTree(tree, plan[n], |tree|) {
      assert ads[n - a] in ads;
    }
    forall i, j | 0 <= i < |tree| && 0 <= j < |tree[i].ads| ensures HasPlace(plan, AdStep(tree[i].ads[j], i, j), a) {
      var s :| 0 <= s < |ads| && ads[s] == AdStep(tree[i].ads[j], i, j);
      assert plan[a + s] == ads[a + s - a];
    }
  }

  lemma DerivedIsLaid(tree: Tree, images: seq<Checksum>)
    ensures var plan := Derive(tree, images); Laid(plan, tree, images) && AdsOnce(plan, tree, |images| + 1 + |tree|)
  {
    var uploads, adSets, ads := UploadSteps(tree, images), AdSetSteps(tree), AdSteps(tree, |tree|);
    var last := ActivationStep(tree);
    AdStepsAreTheAds(tree, |tree|);
    PlacesInRow(uploads, adSets, ads, last);
    AdsInRow(Derive(tree, images), tree, uploads, adSets, ads, last);
  }

  /** The refs of what is not an ad: each stands at one place. */
  lemma RefsAt(plan: Plan, tree: Tree, images: seq<Checksum>, n: nat, i: nat)
    requires Laid(plan, tree, images) && n < |plan| - 1
    ensures plan[n].localRef == CAMPAIGN_REF <==> n == |images|
    ensures i < |tree| ==> (plan[n].localRef == AdSetRef(i) <==> n == |images| + 1 + i)
  {
    var u, a := |images|, |images| + 1 + |tree|;
    RefFacts(i, i);
    if n < u {
      assert plan[n].localRef[0] == 'i';
    } else if n == u {
      assert CAMPAIGN_REF[0] == 'c';
    } else if n < a {
      RefFacts(n - u - 1, i);
    } else {
      var k, j :| 0 <= k < |tree| && k < |tree| && 0 <= j < |tree[k].ads| && IsAdStep(tree, plan[n], k, j);
      AdRefFacts(k, j, k, j);
    }
  }

  lemma ParentsAreUnique(plan: Plan, tree: Tree, images: seq<Checksum>, n: nat)
    requires Laid(plan, tree, images) && n < |plan|
    ensures OneParent(plan, n)
  {
    var u, a := |images|, |images| + 1 + |tree|;
    if plan[n].parentLocalRef == Some(CAMPAIGN_REF) {
      forall m | 0 <= m < n ensures IsParent(plan, n, m) <==> m == u {
        RefsAt(plan, tree, images, m, 0);
      }
      assert IsParent(plan, n, u);
    } else if plan[n].parentLocalRef.Some? {
      var i, j :| 0 <= i < |tree| && i < |tree| && 0 <= j < |tree[i].ads| && IsAdStep(tree, plan[n], i, j);
      forall m | 0 <= m < n ensures IsParent(plan, n, m) <==> m == u + 1 + i {
        RefsAt(plan, tree, images, m, i);
      }
      assert IsParent(plan, n, u + 1 + i);
    }
  }

  lemma {:induction false} FirstWithUpTo(plan: Plan, r: string, k: nat) returns (j: nat)
    requires k < |plan| && plan[k].localRef == r
    ensures j <= k && FirstWith(plan, r, j)
  {
    if m: nat :| m < k && plan[m].localRef == r {
      j := FirstWithUpTo(plan, r, m);
    } else {
      j := k;
    }
  }

  lemma ImageOfSource(plan: Plan, tree: Tree, images: seq<Checksum>, n: nat, r: string) returns (c: Checksum)
    requires Laid(plan, tree, images) && Covers(images, tree) && n < |plan| && r in plan[n].dependsOn
    ensures n > |images| && c in images && r == ImageRef(c)
  {
    var u, a := |images|, |images| + 1 + |tree|;
    if n < a {
      var s := tree[n - u - 1];
      var refs := ImageRefs(s.assetGroup.value);
      SortedSetFacts(refs);
      var m :| 0 <= m < |refs| && refs[m] == r;
      c := s.assetGroup.value[m];
      assert InAdSet(s, c);
    } else {
      var i, j :| 0 <= i < |tree| && i < |tree| && 0 <= j < |tree[i].ads| && IsAdStep(tree, plan[n], i, j);
      c := tree[i].ads[j].image.value;
      assert InAdSet(tree[i], c);
    }
    assert IsImage(tree, c);
  }

  lemma SourcesComeFirst(plan: Plan, tree: Tree, images: seq<Checksum>, n: nat, r: string)
    requires Laid(plan, tree, images) && Covers(images, tree) && n < |plan| && r in plan[n].dependsOn
    ensures exists j :: 0 <= j < n && FirstWith(plan, r, j)
  {
    var u, a := |images|, |images| + 1 + |tree|;
    var c := ImageOfSource(plan, tree, images, n, r);
    var k :| 0 <= k < u && images[k] == c;
    assert plan[k].localRef == r;
    var j := FirstWithUpTo(plan, r, k);
  }

  lemma AdSetStepFits(s: PlannedAdSet, i: nat)
    requires i < MAX_AD_SETS
    ensures WellFormed(AdSetStep(s, i))
  {
    Short(i);
  }

  lemma StepsAreWellFormed(plan: Plan, tree: Tree, images: seq<Checksum>, n: nat)
    requires Laid(plan, tree, images) && LegalTree(tree) && n < |plan|
    ensures WellFormed(plan[n]) && (plan[n].kind.ActivateCampaign? <==> n == |plan| - 1)
  {
    var u, a := |images|, |images| + 1 + |tree|;
    if n < u {
    } else if u < n < a {
      AdSetStepFits(tree[n - u - 1], n - u - 1);
    } else if a <= n < |plan| - 1 {
      var i, j :| 0 <= i < |tree| && i < |tree| && 0 <= j < |tree[i].ads| && IsAdStep(tree, plan[n], i, j);
      assert LegalAdSet(tree[i]);
    }
  }

  // ---------------------------------------------------------------------------
  // As many places as ads
  // ---------------------------------------------------------------------------

  lemma {:induction false} OnePlaceEach(plan: Plan, places: set<nat>, refs: set<string>)
    requires forall n :: n in places ==> n < |plan| && plan[n].localRef in refs
    requires forall r :: r in refs ==> exists n :: n in places && n < |plan| && plan[n].localRef == r
    requires forall m, n :: m in places && n in places && m != n ==> plan[m].localRef != plan[n].localRef
    ensures |places| == |refs|
    decreases |refs|
  {
    if refs == {} {
      assert places == {};
    } else {
      var r :| r in refs;
      var n :| n in places && n < |plan| && plan[n].localRef == r;
      forall q | q in refs - {r} ensures exists m :: m in places - {n} && m < |plan| && plan[m].localRef == q {
        var m :| m in places && m < |plan| && plan[m].localRef == q;
        assert m in places - {n};
      }
      OnePlaceEach(plan, places - {n}, refs - {r});
    }
  }

  lemma AdRefsStartAlike(tree: Tree, r: string)
    requires r in AdRefs(tree)
    ensures r != "" && r[0] == 'a'
  {
    if i: nat :| i < |tree| && tree[i].assetGroup.Some? && r == AdSetRef(i) {
      RefFacts(i, i);
    } else {
      var i: nat, j: nat :| i < |tree| && tree[i].assetGroup.None? && j < |tree[i].ads| && r == AdRef(i, j);
      AdRefFacts(i, j, i, j);
    }
  }

  lemma OtherRefsStartApart(plan: Plan, tree: Tree, images: seq<Checksum>, n: nat)
    requires Laid(plan, tree, images) && n < |plan| && (n <= |images| || n == |plan| - 1)
    ensures plan[n].localRef != "" && plan[n].localRef[0] != 'a'
  {
    assert CAMPAIGN_REF[0] == 'c';
  }

  lemma AdPlace(plan: Plan, tree: Tree, images: seq<Checksum>, n: nat)
    requires Laid(plan, tree, images) && n < |plan| && plan[n].localRef in AdRefs(tree)
    ensures |images| < n < |plan| - 1
  {
    AdRefsStartAlike(tree, plan[n].localRef);
    if n <= |images| || n == |plan| - 1 {
      OtherRefsStartApart(plan, tree, images, n);
    }
  }

  lemma AdsStandApart(plan: Plan, tree: Tree, images: seq<Checksum>, m: nat, n: nat)
    requires Laid(plan, tree, images) && AdsOnce(plan, tree, |images| + 1 + |tree|)
    requires |images| < m < n < |plan| - 1
    ensures plan[m].localRef != plan[n].localRef
  {
    var u, a := |images|, |images| + 1 + |tree|;
    if m < a {
      RefsAt(plan, tree, images, m, m - u - 1);
      RefsAt(plan, tree, images, n, m - u - 1);
    }
  }

  lemma EveryAdHasAPlace(plan: Plan, tree: Tree, images: seq<Checksum>, r: string)
    requires Laid(plan, tree, images) && AdsOnce(plan, tree, |images| + 1 + |tree|) && r in AdRefs(tree)
    ensures exists n :: n in Ads(plan, AdRefs(tree)) && n < |plan| && plan[n].localRef == r
  {
    var u := |images|;
    if i: nat :| i < |tree| && tree[i].assetGroup.Some? && r == AdSetRef(i) {
      assert plan[u + 1 + i].localRef == r;
      assert u + 1 + i in Ads(plan, AdRefs(tree));
    } else {
      var i: nat, j: nat :| i < |tree| && tree[i].assetGroup.None? && j < |tree[i].ads| && r == AdRef(i, j);
      assert HasPlace(plan, AdStep(tree[i].ads[j], i, j), u + 1 + |tree|);
      var n :| u + 1 + |tree| <= n < |plan| - 1 && plan[n] == AdStep(tree[i].ads[j], i, j);
      assert n in Ads(plan, AdRefs(tree));
    }
  }

  lemma AsManyPlacesAsAds(plan: Plan, tree: Tree, images: seq<Checksum>)
    requires Laid(plan, tree, images) && AdsOnce(plan, tree, |images| + 1 + |tree|)
    ensures |Ads(plan, AdRefs(tree))| == |AdRefs(tree)| && CAMPAIGN_REF !in AdRefs(tree)
  {
    var places := Ads(plan, AdRefs(tree));
    forall n | n in places ensures |images| < n < |plan| - 1 {
      AdPlace(plan, tree, images, n);
    }
    forall r | r in AdRefs(tree) ensures exists n :: n in places && n < |plan| && plan[n].localRef == r {
      EveryAdHasAPlace(plan, tree, images, r);
    }
    forall m, n | m in places && n in places && m != n ensures plan[m].localRef != plan[n].localRef {
      AdsStandApart(plan, tree, images, if m < n then m else n, if m < n then n else m);
    }
    OnePlaceEach(plan, places, AdRefs(tree));
    assert CAMPAIGN_REF[0] == 'c';
    if CAMPAIGN_REF in AdRefs(tree) {
      AdRefsStartAlike(tree, CAMPAIGN_REF);
    }
  }

  // ---------------------------------------------------------------------------
  // What the worker relies on
  // ---------------------------------------------------------------------------

  lemma SomethingIsTheAd(tree: Tree)
    requires LegalTree(tree)
    ensures AdRefs(tree) != {}
  {
    assert LegalAdSet(tree[0]);
    if tree[0].assetGroup.Some? {
      assert AdSetRef(0) in AdRefs(tree);
    } else {
      assert AdRef(0, 0) in AdRefs(tree);
    }
  }

  /** Every plan derived from a legal package is one the worker can carry through: activation last and
      alone, every parent one earlier step, every image uploaded before it is used, and the activation
      waiting for exactly the package's ads. */
  lemma DerivedPlansCanBeRun(tree: Tree, images: seq<Checksum>)
    requires LegalTree(tree) && Covers(images, tree)
    ensures Derived(Derive(tree, images), AdRefs(tree))
  {
    var plan := Derive(tree, images);
    DerivedIsLaid(tree, images);
    AsManyPlacesAsAds(plan, tree, images);
    SomethingIsTheAd(tree);
    forall n | 0 <= n < |plan|
      ensures WellFormed(plan[n]) && OneParent(plan, n) && (plan[n].kind.ActivateCampaign? <==> n == |plan| - 1)
    {
      StepsAreWellFormed(plan, tree, images, n);
      ParentsAreUnique(plan, tree, images, n);
    }
    forall n, r | 0 <= n < |plan| && r in plan[n].dependsOn ensures exists j :: 0 <= j < n && FirstWith(plan, r, j) {
      SourcesComeFirst(plan, tree, images, n, r);
    }
  }

  /** From the approval of any legal package, one undisturbed cycle per step publishes it. */
  lemma ProposedPackagesPublish(tree: Tree, id: Id, w: World, events: seq<Event>)
    requires LegalTree(tree) && Fresh(id, w) && RowsChecked(w.tables)
    requires AllGood(PlanOf(tree), AdRefs(tree), w.tables.publications[id], events)
    requires |events| == |PlanOf(tree)|
    ensures RunFrom(PlanOf(tree), id, w, events).package.Published?
  {
    forall c | IsImage(tree, c) ensures c in Uploads(tree) {
      UploadsAreTheImages(tree, c);
    }
    DerivedPlansCanBeRun(tree, Uploads(tree));
    GoodCyclesComplete(PlanOf(tree), AdRefs(tree), id, w, events);
  }

  // ---------------------------------------------------------------------------
  // Which image is shown where
  // ---------------------------------------------------------------------------

  lemma SameRefSameStart(c: Checksum, d: Checksum)
    ensures ImageRef(c) == ImageRef(d) <==> Start(c) == Start(d)
  {
    assert ImageRef(c)[4..] == Start(c) && ImageRef(d)[4..] == Start(d);
  }

  /** No other image of the tree stands before this one and begins with the same twelve characters. */
  ghost predicate FirstOfItsStart(images: seq<Checksum>, c: Checksum) {
    exists n :: 0 <= n < |images| && images[n] == c
                && forall m :: 0 <= m < n && Start(images[m]) == Start(c) ==> images[m] == c
  }

  lemma {:induction false} FirstImageIsFirst(images: seq<Checksum>, c: Checksum)
    ensures FirstImage(images, ImageRef(c)) == Some(c) <==> FirstOfItsStart(images, c)
  {
    if images != [] {
      var rest := images[1..];
      FirstImageIsFirst(rest, c);
      SameRefSameStart(images[0], c);
      if images[0] == c {
        assert FirstOfItsStart(images, c);
      } else if FirstOfItsStart(rest, c) && Start(images[0]) != Start(c) {
        var n :| 0 <= n < |rest| && rest[n] == c
                 && forall m :: 0 <= m < n && Start(rest[m]) == Start(c) ==> rest[m] == c;
        forall m | 0 <= m < n + 1 && Start(images[m]) == Start(c) ensures images[m] == c {
          assert images[m] == rest[m - 1];
        }
        assert images[n + 1] == c;
      }
    }
  }

  /** The step that the image's reference resolves to uploads that image. */
  ghost predicate ShowsItself(plan: Plan, c: Checksum) {
    exists j :: 0 <= j < |plan| && FirstWith(plan, ImageRef(c), j) && plan[j].checksum == Some(c)
  }

  ghost predicate IsUploaded(plan: Plan, c: Checksum) {
    exists j :: 0 <= j < |plan| && plan[j].checksum == Some(c)
  }

  lemma {:induction false} FirstImageHasTheRef(images: seq<Checksum>, r: string)
    ensures FirstImage(images, r).Some? ==> ImageRef(FirstImage(images, r).value) == r
  {
    if images != [] {
      FirstImageHasTheRef(images[1..], r);
    }
  }

  /** The first step with an image's reference is an upload, and carries what that reference stands for. */
  lemma RefResolves(tree: Tree, images: seq<Checksum>, c: Checksum) returns (j: nat)
    requires c in images
    ensures var plan := Derive(tree, images);
            j < |plan| && FirstWith(plan, ImageRef(c), j) && plan[j].checksum == FirstImage(Images(tree), ImageRef(c))
  {
    var plan := Derive(tree, images);
    DerivedIsLaid(tree, images);
    var k :| 0 <= k < |images| && images[k] == c;
    j := FirstWithUpTo(plan, ImageRef(c), k);
  }

  lemma CarriedByAnUpload(tree: Tree, images: seq<Checksum>, c: Checksum)
    requires IsUploaded(Derive(tree, images), c)
    ensures FirstImage(Images(tree), ImageRef(c)) == Some(c)
  {
    var plan := Derive(tree, images);
    DerivedIsLaid(tree, images);
    var j :| 0 <= j < |plan| && plan[j].checksum == Some(c);
    if j < |images| {
      FirstImageHasTheRef(Images(tree), ImageRef(images[j]));
    }
  }

  /** An image's reference holds only the first twelve characters of its checksum. Wherever the image
      stands it is shown, and it is uploaded at all, exactly when no other image stands before it in the
      tree and begins with the same twelve: otherwise that other one is shown in its place. */
  lemma ShownExactlyWhenFirst(tree: Tree, c: Checksum)
    requires IsImage(tree, c)
    ensures ShowsItself(PlanOf(tree), c) <==> FirstOfItsStart(Images(tree), c)
    ensures IsUploaded(PlanOf(tree), c) <==> FirstOfItsStart(Images(tree), c)
  {
    var plan := PlanOf(tree);
    UploadsAreTheImages(tree, c);
    var j := RefResolves(tree, Uploads(tree), c);
    FirstImageIsFirst(Images(tree), c);
    if IsUploaded(plan, c) {
      CarriedByAnUpload(tree, Uploads(tree), c);
    }
  }

  lemma {:induction false} FirstAmong(images: seq<Checksum>, n: nat) returns (c: Checksum)
    requires n < |images|
    ensures c in images && Start(c) == Start(images[n]) && FirstOfItsStart(images, c)
  {
    if m: nat :| m < n && Start(images[m]) == Start(images[n]) {
      c := FirstAmong(images, m);
    } else {
      c := images[n];
    }
  }

  lemma OneFirstEach(images: seq<Checksum>, c: Checksum, d: Checksum)
    requires FirstOfItsStart(images, c) && FirstOfItsStart(images, d) && Start(c) == Start(d)
    ensures c == d
  {
  }

  /** Every image of a package is shown in its own places exactly when no two of them begin with the same
      twelve characters. */
  lemma AllShownExactlyWhenStartsDiffer(tree: Tree)
    ensures (forall c :: IsImage(tree, c) ==> ShowsItself(PlanOf(tree), c)) <==>
            (forall c, d :: IsImage(tree, c) && IsImage(tree, d) && Start(c) == Start(d) ==> c == d)
  {
    forall c ensures c in Images(tree) <==> IsImage(tree, c) {
      ImagesUpTo(tree, |tree|, c);
    }
    forall c | IsImage(tree, c) ensures ShowsItself(PlanOf(tree), c) <==> FirstOfItsStart(Images(tree), c) {
      ShownExactlyWhenFirst(tree, c);
    }
    if forall c :: IsImage(tree, c) ==> ShowsItself(PlanOf(tree), c) {
      forall c, d | IsImage(tree, c) && IsImage(tree, d) && Start(c) == Start(d) ensures c == d {
        OneFirstEach(Images(tree), c, d);
      }
    }
    if forall c, d :: IsImage(tree, c) && IsImage(tree, d) && Start(c) == Start(d) ==> c == d {
      forall c | IsImage(tree, c) ensures ShowsItself(PlanOf(tree), c) {
        var n :| 0 <= n < |Images(tree)| && Images(tree)[n] == c;
        var d := FirstAmong(Images(tree), n);
        assert IsImage(tree, d);
      }
    }
  }

  function TwoAds(c: Checksum, d: Checksum): Tree {
    [PlannedAdSet(None, [PlannedAd(Some(c)), PlannedAd(Some(d))])]
  }

  lemma ImagesOfTwoAds(c: Checksum, d: Checksum)
    ensures Images(TwoAds(c, d)) == [c, d]
  {
    var tree := TwoAds(c, d);
    var ads := tree[0].ads;
    assert ads[..1] == [PlannedAd(Some(c))] && ads[..1][..0] == [];
    assert ImagesOfAds(ads[..1]) == [c];
    assert AdImages(tree, 1) == AdImages(tree, 0) + ImagesOfAds(ads) == [c, d];
    assert GroupImages(tree, 1) == GroupImages(tree, 0) + [] == [];
  }

  lemma TwoAdsAreLegal(c: Checksum, d: Checksum)
    ensures LegalTree(TwoAds(c, d)) && IsImage(TwoAds(c, d), c) && IsImage(TwoAds(c, d), d)
  {
    var ads := TwoAds(c, d)[0].ads;
    assert ads[0].image == Some(c) && ads[1].image == Some(d);
    assert InAdSet(TwoAds(c, d)[0], c) && InAdSet(TwoAds(c, d)[0], d);
  }

  /** Of two ads whose different images begin alike, both show the first one's, whatever the order in
      which the two were planned for upload; the second one's is never uploaded. */
  lemma OneImageShownForTwo(c: Checksum, d: Checksum)
    requires c != d && Start(c) == Start(d)
    ensures var plan := PlanOf(TwoAds(c, d));
            && LegalTree(TwoAds(c, d)) && !IsUploaded(plan, d)
            && exists j :: 0 <= j < |plan| && FirstWith(plan, ImageRef(d), j) && plan[j].checksum == Some(c)
  {
    var tree := TwoAds(c, d);
    ImagesOfTwoAds(c, d);
    TwoAdsAreLegal(c, d);
    ShownExactlyWhenFirst(tree, d);
    assert FirstOfItsStart(Images(tree), c) by { assert Images(tree)[0] == c; }
    if FirstOfItsStart(Images(tree), d) {
      OneFirstEach(Images(tree), c, d);
    }
    UploadsAreTheImages(tree, d);
    SameRefSameStart(c, d);
    FirstImageIsFirst(Images(tree), c);
    var j := RefResolves(tree, Uploads(tree), d);
  }

  lemma WrongImageIsReachable()
    ensures var plan := PlanOf(TwoAds("aaaaaaaaaaaa1", "aaaaaaaaaaaa0"));
            exists j :: 0 <= j < |plan| && FirstWith(plan, ImageRef("aaaaaaaaaaaa0"), j)
                        && plan[j].checksum == Some("aaaaaaaaaaaa1")
  {
    assert "aaaaaaaaaaaa0"[12] != "aaaaaaaaaaaa1"[12];
    OneImageShownForTwo("aaaaaaaaaaaa1", "aaaaaaaaaaaa0");
  }

  // ---------------------------------------------------------------------------
  // The plan as it is built, step by step
  // ---------------------------------------------------------------------------

  method FindImage(images: seq<Checksum>, localRef: string) returns (image: Option<Checksum>)
    ensures image == FirstImage(images, localRef)
  {
    for n := 0 to |images|
      invariant FirstImage(images, localRef) == FirstImage(images[n..], localRef)
    {
      if ImageRef(images[n]) == localRef {
        return Some(images[n]);
      }
    }
    return None;
  }

  method AppendUploads(steps: Plan, tree: Tree, images: seq<Checksum>) returns (plan: Plan)
    ensures plan == steps + UploadSteps(tree, images)
  {
    plan := steps;
    for n := 0 to |images|
      invariant plan == steps + UploadSteps(tree, images)[..n]
    {
      var localRef := ImageRef(images[n]);
      var image := FindImage(Images(tree), localRef);
      plan := plan + [Template(UploadCreative, localRef, None, None, [], image)];
    }
  }

  method AppendAdSets(steps: Plan, tree: Tree) returns (plan: Plan)
    ensures plan == steps + AdSetSteps(tree)
  {
    plan := steps;
    for i := 0 to |tree|
      invariant plan == steps + AdSetSteps(tree)[..i]
    {
      plan := plan + [AdSetStep(tree[i], i)];
    }
  }

  method AppendAdsOf(steps: Plan, s: PlannedAdSet, i: nat) returns (plan: Plan)
    ensures plan == steps + AdStepsOf(s, i)
  {
    plan := steps;
    for j := 0 to |s.ads|
      invariant plan == steps + AdStepsOf(s, i)[..j]
    {
      plan := plan + [AdStep(s.ads[j], i, j)];
    }
  }

  method AppendAds(steps: Plan, tree: Tree) returns (plan: Plan)
    ensures plan == steps + AdSteps(tree, |tree|)
  {
    plan := steps;
    for i := 0 to |tree|
      invariant plan == steps + AdSteps(tree, i)
    {
      plan := AppendAdsOf(plan, tree[i], i);
    }
  }

  method DeriveStepPlan(tree: Tree) returns (plan: Plan)
    ensures plan == PlanOf(tree)
  {
    plan := AppendUploads([], tree, Uploads(tree));
    plan := plan + [CAMPAIGN_STEP];
    plan := AppendAdSets(plan, tree);
    plan := AppendAds(plan, tree);
    plan := plan + [ActivationStep(tree)];
  }
}
