/** The trainee's exam run. Each slide shows an image whose hazard regions
    are hidden; a click is tested against the regions in list order, a new
    hit scores the region's weight, a miss counts against the trainee, and
    the answers are revealed after the third miss or once every region is
    found. The running total carries over from slide to slide and is posted
    as a score record after the last one. */
module InteractionJudge {

  import opened Common
  import opened Geometry

  /** Misses allowed before the answers are revealed. */
  const MaxMiss: int := 3

  /** The exam id posted when the exam had no name. */
  const FallbackExamId: string := "Fallback-Training"

  // ---------------------------------------------------------------------
  // The hit test

  /** The first region at or after `k` whose closed box contains `u`. */
  function FirstHitFrom(regions: seq<Region>, u: RatioPoint, k: nat): (r: Option<nat>)
    requires k <= |regions|
    ensures r.Some? ==> k <= r.value < |regions| && InBox(regions[r.value].rect, u)
    ensures r.Some? ==> forall j :: k <= j < r.value ==> !InBox(regions[j].rect, u)
    ensures r.None? <==> forall j :: k <= j < |regions| ==> !InBox(regions[j].rect, u)
    decreases |regions| - k
  {
    if k == |regions| then None
    else if InBox(regions[k].rect, u) then Some(k)
    else FirstHitFrom(regions, u, k + 1)
  }

  /** The region a click at `u` hits: the first one in list order whose box
      contains the point, whatever its shape. */
  function FirstHit(regions: seq<Region>, u: RatioPoint): (r: Option<nat>)
    ensures r.Some? ==> r.value < |regions| && InBox(regions[r.value].rect, u)
    ensures r.Some? ==> forall j :: 0 <= j < r.value ==> !InBox(regions[j].rect, u)
    ensures r.None? <==> forall j :: 0 <= j < |regions| ==> !InBox(regions[j].rect, u)
  {
    FirstHitFrom(regions, u, 0)
  }

  /** The collision loop: scan the regions in order and stop at the first
      whose box contains the point. */
  method FindHit(regions: seq<Region>, u: RatioPoint) returns (hit: Option<nat>)
    ensures hit == FirstHit(regions, u)
  {
    hit := None;
    var i := 0;
    while i < |regions|
      invariant 0 <= i <= |regions|
      invariant hit == None
      invariant forall j :: 0 <= j < i ==> !InBox(regions[j].rect, u)
    {
      var r := regions[i].rect;
      if u.xRatio >= r.x && u.xRatio <= r.x + r.w && u.yRatio >= r.y && u.yRatio <= r.y + r.h {
        hit := Some(i);
        break;
      }
      i := i + 1;
    }
  }

  /** The click position in ratio space. Unlike the annotation engine's
      conversion it is not clamped, so a click outside the image lies
      outside [0,1]. */
  function ClickPoint(e: PointerEvent, b: DisplayedBox): RatioPoint
  {
    RatioPoint((e.clientX - b.left) / b.width, (e.clientY - b.top) / b.height)
  }

  /** On the image itself both conversions agree. */
  lemma ClickPointInsideImage(e: PointerEvent, b: DisplayedBox)
    requires 0.0 <= e.clientX - b.left <= b.width && 0.0 <= e.clientY - b.top <= b.height
    ensures ClickPoint(e, b) == RatioPos(e, b)
  {
    var p := RatioPos(e, b);
    assert p.xRatio * b.width == e.clientX - b.left;
    assert p.yRatio * b.height == e.clientY - b.top;
  }

  // ---------------------------------------------------------------------
  // One slide

  /** The state of one slide: its regions, the ids found so far, the miss
      counter, the reveal flag and the running total of the whole exam. */
  datatype Slide = Slide(regions: seq<Region>, found: seq<string>, missCount: int, revealed: bool, total: int)

  /** A freshly loaded slide: nothing found, no miss, answers hidden; the
      total carries over. */
  function Loaded(regions: seq<Region>, total: int): Slide
  {
    Slide(regions, [], 0, false, total)
  }

  /** The score of a hit on `r`. */
  function HitWeight(r: Region): (w: int)
    ensures w != 0
    ensures r.scoreWeight != 0 ==> w == r.scoreWeight
    ensures r.scoreWeight == 0 ==> w == DefaultWeight
  {
    OrDefault(r.scoreWeight, DefaultWeight)
  }

  /** A click at `u`. */
  function Click(s: Slide, u: RatioPoint): (r: Slide)
    ensures r.regions == s.regions
    ensures s.revealed ==> r == s
    ensures !s.revealed && FirstHit(s.regions, u).Some? && s.regions[FirstHit(s.regions, u).value].id in s.found ==> r == s
    ensures !s.revealed && FirstHit(s.regions, u).Some? && s.regions[FirstHit(s.regions, u).value].id !in s.found ==>
              var hit := s.regions[FirstHit(s.regions, u).value];
              && r.found == s.found + [hit.id]
              && r.total == s.total + HitWeight(hit)
              && r.missCount == s.missCount
              && (r.revealed <==> |r.found| >= |s.regions|)
    ensures !s.revealed && FirstHit(s.regions, u).None? ==>
              && r.found == s.found && r.total == s.total
              && r.missCount == s.missCount + 1
              && (r.revealed <==> s.missCount + 1 >= MaxMiss)
  {
    if s.revealed then s
    else match FirstHit(s.regions, u)
      case Some(k) =>
        var hit := s.regions[k];
        if hit.id in s.found then s
        else
          var found := s.found + [hit.id];
          s.(found := found, total := s.total + HitWeight(hit), revealed := |found| >= |s.regions|)
      case None =>
        s.(missCount := s.missCount + 1, revealed := s.missCount + 1 >= MaxMiss)
  }

  /** A sequence of clicks on one slide. */
  function Run(s: Slide, us: seq<RatioPoint>): Slide
    decreases |us|
  {
    if us == [] then s else Run(Click(s, us[0]), us[1..])
  }

  /** The slide's invariant: the miss counter stays within 0..3 and three
      misses reveal; found ids are distinct ids of the slide's regions; a
      non-empty slide whose regions are all counted as found is revealed. */
  predicate Inv(s: Slide)
  {
    && 0 <= s.missCount <= MaxMiss
    && (s.missCount == MaxMiss ==> s.revealed)
    && NoDup(s.found)
    && (forall i :: 0 <= i < |s.found| ==> s.found[i] in RegionIds(s.regions))
    && (|s.regions| > 0 && |s.found| >= |s.regions| ==> s.revealed)
  }

  lemma LoadedInv(regions: seq<Region>, total: int)
    ensures Inv(Loaded(regions, total))
  {
  }

  /** Every click keeps the invariant. */
  lemma ClickKeepsInv(s: Slide, u: RatioPoint)
    requires Inv(s)
    ensures Inv(Click(s, u))
  {
    if !s.revealed {
      match FirstHit(s.regions, u)
      case Some(k) =>
        var hit := s.regions[k];
        assert RegionIds(s.regions)[k] == hit.id;
      case None =>
    }
  }

  /** A whole run of clicks keeps the invariant. */
  lemma {:induction false} RunKeepsInv(s: Slide, us: seq<RatioPoint>)
    requires Inv(s)
    ensures Inv(Run(s, us))
    decreases |us|
  {
    if us != [] {
      ClickKeepsInv(s, us[0]);
      RunKeepsInv(Click(s, us[0]), us[1..]);
    }
  }

  /** Once revealed, no click changes anything. */
  lemma {:induction false} RunWhileRevealed(s: Slide, us: seq<RatioPoint>)
    requires s.revealed
    ensures Run(s, us) == s
    decreases |us|
  {
    if us != [] {
      RunWhileRevealed(Click(s, us[0]), us[1..]);
    }
  }

  /** Clicks that all miss: the counter rises by one per click up to 3, and
      the answers are revealed exactly when three misses have accumulated. */
  lemma {:induction false} MissRun(s: Slide, us: seq<RatioPoint>)
    requires !s.revealed && 0 <= s.missCount < MaxMiss
    requires forall i :: 0 <= i < |us| ==> FirstHit(s.regions, us[i]).None?
    ensures Run(s, us).missCount == if s.missCount + |us| <= MaxMiss then s.missCount + |us| else MaxMiss
    ensures Run(s, us).revealed <==> s.missCount + |us| >= MaxMiss
    ensures Run(s, us).found == s.found && Run(s, us).total == s.total
    decreases |us|
  {
    if us != [] {
      var s1 := Click(s, us[0]);
      if s1.revealed {
        RunWhileRevealed(s1, us[1..]);
      } else {
        assert forall i :: 0 <= i < |us[1..]| ==> FirstHit(s1.regions, us[1..][i]).None? by {
          forall i | 0 <= i < |us[1..]| ensures FirstHit(s1.regions, us[1..][i]).None? {
            assert us[1..][i] == us[i + 1];
          }
        }
        MissRun(s1, us[1..]);
      }
    }
  }

  /** The score the found ids are worth: each id's weight is that of the
      first region carrying it. */
  function Earned(regions: seq<Region>, found: seq<string>): int
  {
    if found == [] then 0
    else Earned(regions, found[..|found| - 1]) + WeightOf(regions, found[|found| - 1])
  }

  function WeightOf(regions: seq<Region>, id: string): int
  {
    match IndexOf(RegionIds(regions), id)
    case Some(k) => HitWeight(regions[k])
    case None => 0
  }

  /** With distinct region ids a click adds to the total exactly the weight
      of what it adds to the found list. */
  lemma ClickScores(s: Slide, u: RatioPoint)
    requires NoDup(RegionIds(s.regions))
    ensures Click(s, u).total - Earned(s.regions, Click(s, u).found) == s.total - Earned(s.regions, s.found)
  {
    var r := Click(s, u);
    if !s.revealed && FirstHit(s.regions, u).Some? {
      var k := FirstHit(s.regions, u).value;
      var hit := s.regions[k];
      if hit.id !in s.found {
        assert r.found[..|r.found| - 1] == s.found;
        var ids := RegionIds(s.regions);
        assert ids[k] == hit.id;
        IndexOfAt(ids, hit.id, k);
      }
    }
  }

  /** Over a run on a slide with distinct region ids, the total grows by
      exactly the weight of the regions found. */
  lemma {:induction false} RunScores(s: Slide, us: seq<RatioPoint>)
    requires NoDup(RegionIds(s.regions))
    ensures Run(s, us).regions == s.regions
    ensures Run(s, us).total - Earned(s.regions, Run(s, us).found) == s.total - Earned(s.regions, s.found)
    decreases |us|
  {
    if us != [] {
      ClickScores(s, us[0]);
      RunScores(Click(s, us[0]), us[1..]);
    }
  }

  /** The success banner's test: as many found ids as regions, and at least
      one region. */
  predicate AllFound(s: Slide)
  {
    |s.found| == |s.regions| && |s.regions| > 0
  }

  lemma {:induction false} SubsetCard<T>(a: set<T>, b: set<T>)
    requires a <= b
    ensures |a| <= |b|
    ensures |a| == |b| ==> a == b
    decreases |b|
  {
    if a != {} {
      var x :| x in a;
      SubsetCard(a - {x}, b - {x});
      if |a| == |b| {
        assert a == (a - {x}) + {x};
        assert b == (b - {x}) + {x};
      }
    } else if |a| == |b| {
      assert b == {};
    }
  }

  /** With distinct region ids the banner shows exactly when every region
      has been found and the slide has regions. */
  lemma AllFoundIff(s: Slide)
    requires Inv(s) && NoDup(RegionIds(s.regions))
    ensures AllFound(s) <==> |s.regions| > 0 && forall k :: 0 <= k < |s.regions| ==> s.regions[k].id in s.found
  {
    var ids := RegionIds(s.regions);
    var F := set x | x in s.found;
    var I := set x | x in ids;
    NoDupCard(s.found);
    NoDupCard(ids);
    assert F <= I;
    SubsetCard(F, I);
    if AllFound(s) {
      forall k | 0 <= k < |s.regions| ensures s.regions[k].id in s.found {
        assert ids[k] in I;
      }
    }
    if |s.regions| > 0 && forall k :: 0 <= k < |s.regions| ==> s.regions[k].id in s.found {
      assert I <= F by {
        forall x | x in I ensures x in F {
          var k :| 0 <= k < |ids| && ids[k] == x;
          assert s.regions[k].id == x;
        }
      }
      SubsetCard(I, F);
    }
  }

  // ---------------------------------------------------------------------
  // The exam run

  /** An exam as the exam list delivers it. */
  datatype Exam = Exam(examName: string, slides: seq<string>)

  /** The record posted when the last slide is done. */
  datatype ScoreRecord = ScoreRecord(userName: string, examId: string, score: int, completedAt: int)

  class Judge {
    var isTesting: bool
    var selectedExam: Option<Exam>
    /** The exam's slides, by image name. */
    var images: seq<string>
    var currentIndex: int
    /** The current slide's regions; none before the first load. */
    var metaData: Option<seq<Region>>
    var foundItems: seq<string>
    var missCount: int
    var showHints: bool
    var userName: string
    /** The running exam's name; "" before an exam starts. */
    var examId: string
    var totalScore: int

    /** The current slide as a value. */
    function CurrentSlide(): Slide
      reads this
      requires metaData.Some?
    {
      Slide(metaData.value, foundItems, missCount, showHints, totalScore)
    }

    predicate Valid()
      reads this
    {
      0 <= currentIndex && (metaData.Some? ==> Inv(CurrentSlide()))
    }

    /** The judge before any exam: the user name is the random one chosen
        at start-up. */
    constructor(name: string, exam: Option<Exam>)
      ensures Valid()
      ensures !isTesting && selectedExam == exam && images == [] && currentIndex == 0
      ensures metaData == None && foundItems == [] && missCount == 0 && !showHints
      ensures userName == name && examId == "" && totalScore == 0
    {
      isTesting := false;
      selectedExam := exam;
      images := [];
      currentIndex := 0;
      metaData := None;
      foundItems := [];
      missCount := 0;
      showHints := false;
      userName := name;
      examId := "";
      totalScore := 0;
    }

    /** Loading a slide's regions (none when there is no slide): nothing
        found, no miss, answers hidden; the total is kept. */
    method LoadQuestion(img: Option<string>, regions: seq<Region>)
      requires Valid()
      modifies this`metaData, this`foundItems, this`missCount, this`showHints
      ensures Valid()
      ensures img.None? ==> metaData == old(metaData) && foundItems == old(foundItems)
                            && missCount == old(missCount) && showHints == old(showHints)
      ensures img.Some? ==> metaData.Some? && CurrentSlide() == Loaded(regions, totalScore)
    {
      if img.None? {
        return;
      }
      metaData := Some(regions);
      foundItems := [];
      missCount := 0;
      showHints := false;
    }

    /** Starting the selected exam: index and total go to 0 and the first
        slide is loaded. An exam without slides loads nothing. */
    method StartExam(firstRegions: seq<Region>)
      requires Valid()
      modifies this
      ensures Valid()
      ensures selectedExam == old(selectedExam) && userName == old(userName)
      ensures old(selectedExam).None? ==>
                && isTesting == old(isTesting) && images == old(images) && currentIndex == old(currentIndex)
                && totalScore == old(totalScore) && examId == old(examId) && metaData == old(metaData)
                && foundItems == old(foundItems) && missCount == old(missCount) && showHints == old(showHints)
      ensures old(selectedExam).Some? ==>
                && isTesting && images == old(selectedExam).value.slides && currentIndex == 0
                && totalScore == 0 && examId == old(selectedExam).value.examName
                && (|images| > 0 ==> metaData.Some? && CurrentSlide() == Loaded(firstRegions, 0))
                && (|images| == 0 ==> metaData == old(metaData) && foundItems == old(foundItems)
                                      && missCount == old(missCount) && showHints == old(showHints))
    {
      if selectedExam.None? {
        return;
      }
      var exam := selectedExam.value;
      examId := exam.examName;
      images := exam.slides;
      currentIndex := 0;
      totalScore := 0;
      LoadQuestion(if |images| > 0 then Some(images[0]) else None, firstRegions);
      isTesting := true;
    }

    /** A click on the image (`image` is its box, none while it is not
        mounted). With the answers revealed, or without an image or regions,
        nothing happens; otherwise the slide takes one `Click` step at the
        unclamped click position. */
    method HandleCanvasClick(e: PointerEvent, image: Option<DisplayedBox>)
      requires Valid()
      modifies this`foundItems, this`missCount, this`showHints, this`totalScore
      ensures Valid()
      ensures (image.None? || metaData.None?) ==>
                foundItems == old(foundItems) && missCount == old(missCount)
                && showHints == old(showHints) && totalScore == old(totalScore)
      ensures image.Some? && metaData.Some? ==>
                CurrentSlide() == Click(old(CurrentSlide()), ClickPoint(e, image.value))
    {
      if showHints {
        return;
      }
      if image.None? || metaData.None? {
        return;
      }
      var regions := metaData.value;
      var u := ClickPoint(e, image.value);
      ghost var before := CurrentSlide();
      var hit := FindHit(regions, u);
      if hit.Some? {
        var item := regions[hit.value];
        if item.id !in foundItems {
          foundItems := foundItems + [item.id];
          totalScore := totalScore + HitWeight(item);
          if |foundItems| >= |regions| {
            showHints := true;
          }
        }
      } else {
        missCount := missCount + 1;
        if missCount >= MaxMiss {
          showHints := true;
        }
      }
      ClickKeepsInv(before, u);
    }

    /** The success banner's test for the current slide. */
    predicate IsAllFound()
      reads this
    {
      metaData.Some? && |foundItems| == |metaData.value| && |metaData.value| > 0
    }

    /** Advancing. Before the last slide the next one is loaded and the
        total carries over. On the last slide the score record is posted;
        when the post goes through the run ends and index and total go back
        to 0, and when the network fails nothing changes. The button is only
        rendered once the answers are shown. */
    method HandleNext(nextRegions: seq<Region>, now: int, networkFails: bool) returns (record: Option<ScoreRecord>)
      requires Valid()
      requires showHints
      modifies this
      ensures Valid()
      ensures selectedExam == old(selectedExam) && images == old(images) && userName == old(userName)
      ensures examId == old(examId)
      ensures old(currentIndex) < |images| - 1 ==>
                && record == None && currentIndex == old(currentIndex) + 1
                && isTesting == old(isTesting) && totalScore == old(totalScore)
                && metaData.Some? && CurrentSlide() == Loaded(nextRegions, old(totalScore))
      ensures old(currentIndex) >= |images| - 1 ==>
                && record == Some(ScoreRecord(userName, if examId == "" then FallbackExamId else examId,
                                              old(totalScore), now))
                && metaData == old(metaData) && foundItems == old(foundItems)
                && missCount == old(missCount) && showHints == old(showHints)
                && (networkFails ==> isTesting == old(isTesting) && currentIndex == old(currentIndex)
                                     && totalScore == old(totalScore))
                && (!networkFails ==> !isTesting && currentIndex == 0 && totalScore == 0)
    {
      if currentIndex < |images| - 1 {
        currentIndex := currentIndex + 1;
        LoadQuestion(Some(images[currentIndex]), nextRegions);
        return None;
      }
      record := Some(ScoreRecord(userName, if examId == "" then FallbackExamId else examId, totalScore, now));
      if !networkFails {
        isTesting := false;
        currentIndex := 0;
        totalScore := 0;
      }
    }
  }

  /** The banner test on the judge agrees with the slide-level one. */
  lemma IsAllFoundIsAllFound(j: Judge)
    requires j.metaData.Some?
    ensures j.IsAllFound() <==> AllFound(j.CurrentSlide())
  {
  }
}
