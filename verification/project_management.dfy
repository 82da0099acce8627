/** The project-management page (src/pages/ProjectManagement.tsx): the
    cyclic blueprint slideshow and its image file names, the stage stepper
    with its lookup and "Continue" cycling, and the labels and anchors
    derived from the procedure's chapter and section titles. */
module ProjectManagement {

  import opened Strings

  // ---- Blueprint slideshow ---------------------------------------------------

  const TotalSlides: nat := 11

  /** JavaScript integer division for a positive divisor: the quotient is
      truncated toward zero, unlike Dafny's `/`. */
  function JsQuot(a: int, b: int): (q: int)
    requires b > 0
    ensures a >= 0 ==> q >= 0
    ensures a < 0 ==> q <= 0
  {
    if a >= 0 then a / b else -((-a) / b)
  }

  /** JavaScript `a % b` for a positive divisor: the remainder of the
      truncating division, so it takes the sign of the dividend, unlike
      Dafny's `%`. */
  function JsRem(a: int, b: int): (r: int)
    requires b > 0
    ensures a == b * JsQuot(a, b) + r
    ensures a >= 0 ==> r == a % b && 0 <= r < b
    ensures a < 0 ==> -b < r <= 0
  {
    if a >= 0 then a % b
    else
      var q := (-a) / b;
      assert -a == b * q + (-a) % b;
      assert b * (-q) == -(b * q);
      -((-a) % b)
  }

  datatype Slideshow = Slideshow(currentSlide: int, isFullscreen: bool)

  function InitialSlideshow(): (s: Slideshow)
    ensures s.currentSlide == 0 && !s.isFullscreen
  {
    Slideshow(0, false)
  }

  predicate ValidSlide(s: Slideshow) {
    0 <= s.currentSlide < TotalSlides
  }

  /** `nextSlide`: one step right, wrapping from the last slide to the first. */
  function NextSlide(s: Slideshow): (t: Slideshow)
    ensures t.isFullscreen == s.isFullscreen
    ensures ValidSlide(s) ==> ValidSlide(t)
    ensures ValidSlide(s) && s.currentSlide < TotalSlides - 1 ==> t.currentSlide == s.currentSlide + 1
    ensures ValidSlide(s) && s.currentSlide == TotalSlides - 1 ==> t.currentSlide == 0
  {
    s.(currentSlide := JsRem(s.currentSlide + 1, TotalSlides))
  }

  /** `prevSlide`: one step left, wrapping from the first slide to the last. */
  function PrevSlide(s: Slideshow): (t: Slideshow)
    ensures t.isFullscreen == s.isFullscreen
    ensures ValidSlide(s) ==> ValidSlide(t)
    ensures ValidSlide(s) && s.currentSlide > 0 ==> t.currentSlide == s.currentSlide - 1
    ensures ValidSlide(s) && s.currentSlide == 0 ==> t.currentSlide == TotalSlides - 1
  {
    s.(currentSlide := JsRem(s.currentSlide - 1 + TotalSlides, TotalSlides))
  }

  /** `toggleFullscreen`: flips the flag; the slide stays. */
  function ToggleFullscreen(s: Slideshow): (t: Slideshow)
    ensures t.isFullscreen == !s.isFullscreen && t.currentSlide == s.currentSlide
  {
    s.(isFullscreen := !s.isFullscreen)
  }

  /** Going right then left, or left then right, returns to the same slide. */
  lemma NextPrevInverse(s: Slideshow)
    requires ValidSlide(s)
    ensures PrevSlide(NextSlide(s)) == s
    ensures NextSlide(PrevSlide(s)) == s
  {
  }

  /** The slideshow after `n` clicks on "next". */
  function NextTimes(s: Slideshow, n: nat): (t: Slideshow)
    ensures t.isFullscreen == s.isFullscreen
    decreases n
  {
    if n == 0 then s else NextSlide(NextTimes(s, n - 1))
  }

  /** `n` clicks on "next" advance by `n` modulo the number of slides. */
  lemma {:induction false} NextTimesAdvances(s: Slideshow, n: nat)
    requires ValidSlide(s)
    ensures NextTimes(s, n).currentSlide == (s.currentSlide + n) % TotalSlides
    decreases n
  {
    if n > 0 {
      NextTimesAdvances(s, n - 1);
      StepRemainder(s.currentSlide + n - 1);
    }
  }

  /** One more step after a remainder is the remainder of one more. */
  lemma StepRemainder(a: nat)
    ensures (a % TotalSlides + 1) % TotalSlides == (a + 1) % TotalSlides
  {
    var q := a / TotalSlides;
    var r := a % TotalSlides;
    assert a == TotalSlides * q + r;
    if r + 1 == TotalSlides {
      assert a + 1 == TotalSlides * (q + 1);
    } else {
      assert a + 1 == TotalSlides * q + (r + 1);
    }
  }

  /** Any multiple of eleven clicks on "next" (eleven in particular) comes
      back to the starting slide. */
  lemma FullCyclesReturn(s: Slideshow, n: nat)
    requires ValidSlide(s) && n % TotalSlides == 0
    ensures NextTimes(s, n) == s
  {
    NextTimesAdvances(s, n);
    var k := n / TotalSlides;
    assert n == TotalSlides * k;
    AddCycles(s.currentSlide, k);
  }

  /** Adding whole cycles of slides leaves the remainder unchanged. */
  lemma {:induction false} AddCycles(c: int, k: nat)
    requires 0 <= c < TotalSlides
    ensures (c + TotalSlides * k) % TotalSlides == c
    decreases k
  {
    if k > 0 {
      AddCycles(c, k - 1);
      assert c + TotalSlides * k == (c + TotalSlides * (k - 1)) + TotalSlides;
    }
  }

  const SlidePrefix: string := "/images/blueprint/slide-"
  const SlideSuffix: string := ".png"

  /** `getSlidePath(index)`: the 1-based slide number, left-padded with '0'
      to two characters, inside the blueprint image path. */
  function SlidePath(index: nat): (p: string)
    ensures IsPrefix(SlidePrefix, p) && IsSuffix(SlideSuffix, p)
    ensures index < 99 ==> |p| == |SlidePrefix| + 2 + |SlideSuffix|
  {
    SlidePrefix + PadStart(DecimalString(index + 1), 2, '0') + SlideSuffix
  }

  /** Leading zeros do not change the value of a numeral. */
  lemma {:induction false} LeadingZerosIgnored(zeros: string, s: string)
    requires AllDigits(s) && forall i :: 0 <= i < |zeros| ==> zeros[i] == '0'
    ensures AllDigits(zeros + s)
    ensures DigitsValue(zeros + s) == DigitsValue(s)
    decreases |s|
  {
    var t := zeros + s;
    assert forall i :: 0 <= i < |t| ==> IsDigit(t[i]) by {
      forall i | 0 <= i < |t| ensures IsDigit(t[i]) {
        if i >= |zeros| { assert t[i] == s[i - |zeros|]; }
      }
    }
    if |s| == 0 {
      ZerosValue(zeros);
      assert t == zeros;
    } else {
      LeadingZerosIgnored(zeros, s[..|s| - 1]);
      assert t[..|t| - 1] == zeros + s[..|s| - 1];
    }
  }

  /** A string of zeros has value zero. */
  lemma {:induction false} ZerosValue(zeros: string)
    requires forall i :: 0 <= i < |zeros| ==> zeros[i] == '0'
    ensures AllDigits(zeros) && DigitsValue(zeros) == 0
    decreases |zeros|
  {
    if |zeros| > 0 {
      ZerosValue(zeros[..|zeros| - 1]);
    }
  }

  /** The slide number written in an image path, if it has the expected shape. */
  function SlideNumber(p: string): (n: Option<nat>)
    ensures n.Some? ==> IsPrefix(SlidePrefix, p) && IsSuffix(SlideSuffix, p)
  {
    if |p| >= |SlidePrefix| + |SlideSuffix| && IsPrefix(SlidePrefix, p) && IsSuffix(SlideSuffix, p)
       && AllDigits(p[|SlidePrefix|..|p| - |SlideSuffix|])
    then Some(DigitsValue(p[|SlidePrefix|..|p| - |SlideSuffix|]))
    else None
  }

  /** Reading the number back from a slide's path gives its 1-based number. */
  lemma SlidePathRoundTrip(index: nat)
    ensures SlideNumber(SlidePath(index)) == Some(index + 1)
  {
    var d := DecimalString(index + 1);
    var padded := PadStart(d, 2, '0');
    var p := SlidePath(index);
    var zeros := padded[..|padded| - |d|];
    assert padded == zeros + d;
    LeadingZerosIgnored(zeros, d);
    DecimalRoundTrip(index + 1);
    assert p[|SlidePrefix|..|p| - |SlideSuffix|] == padded;
  }

  /** Distinct slides have distinct image files. */
  lemma SlidePathInjective(i: nat, j: nat)
    requires SlidePath(i) == SlidePath(j)
    ensures i == j
  {
    SlidePathRoundTrip(i);
    SlidePathRoundTrip(j);
  }

  /** The first and the last of the eleven slides. */
  lemma SlidePathExamples()
    ensures SlidePath(0) == "/images/blueprint/slide-01.png"
    ensures SlidePath(10) == "/images/blueprint/slide-11.png"
  {
    assert DecimalString(1) == "1";
    assert DecimalString(11) == "11";
  }

  // ---- Stage stepper ---------------------------------------------------------

  datatype Section = Section(heading: string, body: string)
  datatype Chapter = Chapter(chapterTitle: string, sections: seq<Section>)
  datatype Stage = Stage(id: int, title: string, fullContent: seq<Chapter>)

  /** `stages.find(s => s.id === id)`: the first stage with that id. */
  function FindStage(stages: seq<Stage>, id: int): (r: Option<Stage>)
    ensures r.None? <==> forall i :: 0 <= i < |stages| ==> stages[i].id != id
    ensures r.Some? ==> r.value.id == id && r.value in stages
    ensures r.Some? ==> exists i :: 0 <= i < |stages| && stages[i] == r.value
                                   && forall j :: 0 <= j < i ==> stages[j].id != id
    decreases |stages|
  {
    if |stages| == 0 then None
    else if stages[0].id == id then Some(stages[0])
    else
      var r := FindStage(stages[1..], id);
      if r.Some? then
        assert forall j :: 1 <= j < |stages| ==> stages[j] == stages[1..][j - 1];
        r
      else None
  }

  /** `activeStage`: the stage with the selected id, else the first stage;
      with no stages at all there is none. */
  function ActiveStage(stages: seq<Stage>, activeStageId: int): (r: Option<Stage>)
    ensures r.None? <==> |stages| == 0
    ensures (exists i :: 0 <= i < |stages| && stages[i].id == activeStageId) ==> r.Some? && r.value.id == activeStageId
    ensures (forall i :: 0 <= i < |stages| ==> stages[i].id != activeStageId) && |stages| > 0 ==> r == Some(stages[0])
    ensures FindStage(stages, activeStageId).Some? ==> r == FindStage(stages, activeStageId)
    ensures r.Some? ==> r.value in stages
  {
    match FindStage(stages, activeStageId)
    case Some(s) => Some(s)
    case None => if |stages| > 0 then Some(stages[0]) else None
  }

  /** The stepper's state: the selected stage id (1 on entry). */
  datatype Stepper = Stepper(activeStageId: int)

  function InitialStepper(): (s: Stepper)
    ensures s.activeStageId == 1
  {
    Stepper(1)
  }

  /** Clicking a stage in the overview selects its id. */
  function SelectStage(s: Stepper, stage: Stage): (t: Stepper)
    ensures t.activeStageId == stage.id
  {
    Stepper(stage.id)
  }

  /** "Continue to Next Stage": ids below 5 advance by one, anything else
      goes back to 1. */
  function ContinueStage(s: Stepper): (t: Stepper)
    ensures s.activeStageId < 5 ==> t.activeStageId == s.activeStageId + 1
    ensures s.activeStageId >= 5 ==> t.activeStageId == 1
  {
    Stepper(if s.activeStageId < 5 then s.activeStageId + 1 else 1)
  }

  /** The ids 1..5 are closed under "Continue". */
  lemma ContinueStaysInRange(s: Stepper)
    requires 1 <= s.activeStageId <= 5
    ensures 1 <= ContinueStage(s).activeStageId <= 5
  {
  }

  /** Five clicks on "Continue" come back to the same stage: 1→2→3→4→5→1. */
  lemma ContinueCycles(s: Stepper)
    requires 1 <= s.activeStageId <= 5
    ensures ContinueStage(ContinueStage(ContinueStage(ContinueStage(ContinueStage(s))))) == s
  {
  }

  // ---- Labels and anchors ----------------------------------------------------

  /** The sidebar's chapter label: the title up to its first ':' (all of it
      when there is none). */
  function ChapterLabel(chapterTitle: string): (lbl: string)
    ensures ':' !in lbl && IsPrefix(lbl, chapterTitle)
    ensures ':' !in chapterTitle ==> lbl == chapterTitle
  {
    BeforeFirst(chapterTitle, ':')
  }

  /** A title "Name: subtitle" is labelled "Name". */
  lemma ChapterLabelOfColonTitle(name: string, rest: string)
    requires ':' !in name
    ensures ChapterLabel(name + ":" + rest) == name
  {
    BeforeFirstJoin(name, rest, ':');
  }

  /** The number of leading decimal digits of `s`. */
  function DigitRun(s: string): (k: nat)
    ensures k <= |s| && AllDigits(s[..k])
    ensures k < |s| ==> !IsDigit(s[k])
    decreases |s|
  {
    if |s| > 0 && IsDigit(s[0]) then
      var k := DigitRun(s[1..]);
      assert s[..k + 1] == [s[0]] + s[1..][..k];
      k + 1
    else 0
  }

  const StepWord: string := "Step "

  /** `heading.replace(/^Step \d+: /, '')`: one anchored prefix "Step ",
      one or more digits, ": " is removed; any other heading is unchanged. */
  function StripStepPrefix(heading: string): (r: string)
    ensures IsSuffix(r, heading)
    ensures !IsPrefix(StepWord, heading) ==> r == heading
  {
    if IsPrefix(StepWord, heading) then
      var rest := heading[|StepWord|..];
      var k := DigitRun(rest);
      if k >= 1 && IsPrefix(": ", rest[k..]) then rest[k + 2..] else heading
    else heading
  }

  /** The number of digits in front of a non-digit is exactly their count. */
  lemma DigitRunOfDigits(d: string, rest: string)
    requires AllDigits(d) && |rest| > 0 && !IsDigit(rest[0])
    ensures DigitRun(d + rest) == |d|
    decreases |d|
  {
    if |d| > 0 {
      assert (d + rest)[1..] == d[1..] + rest;
      DigitRunOfDigits(d[1..], rest);
    } else {
      assert d + rest == rest;
    }
  }

  /** A numbered heading loses exactly its "Step <n>: " prefix. */
  lemma StripNumberedHeading(digits: string, title: string)
    requires |digits| >= 1 && AllDigits(digits)
    ensures StripStepPrefix(StepWord + digits + ": " + title) == title
  {
    var h := StepWord + digits + ": " + title;
    var rest := h[|StepWord|..];
    assert rest == digits + (": " + title);
    DigitRunOfDigits(digits, ": " + title);
    assert rest[|digits|..] == ": " + title;
    assert rest[|digits| + 2..] == title;
  }

  /** A heading is changed only when it has the numbered shape
      "Step <digits>: title"; every other heading is shown unchanged. */
  lemma StripOnlyNumbered(heading: string)
    ensures StripStepPrefix(heading) != heading ==>
              exists digits: string, title: string ::
                |digits| >= 1 && AllDigits(digits) && heading == StepWord + digits + ": " + title
  {
    if IsPrefix(StepWord, heading) {
      var rest := heading[|StepWord|..];
      var k := DigitRun(rest);
      if k >= 1 && IsPrefix(": ", rest[k..]) {
        var digits := rest[..k];
        var title := rest[k + 2..];
        assert rest == digits + ": " + title;
        assert heading == StepWord + digits + ": " + title;
      }
    }
  }

  /** JavaScript's remainder of -1 by 11 is -1 where Dafny's is 10, which
      is why `prevSlide` adds the slide count before taking the remainder. */
  lemma JsRemOfNegative()
    ensures JsRem(-1, TotalSlides) == -1
    ensures (-1) % TotalSlides == 10
  {
  }

  /** Only one prefix goes: "Step 1: Step 2: x" becomes "Step 2: x". */
  lemma StripOnlyOnce(title: string)
    ensures StripStepPrefix("Step 1: Step 2: " + title) == "Step 2: " + title
  {
    assert "Step 1: Step 2: " + title == StepWord + "1" + ": " + ("Step 2: " + title);
    StripNumberedHeading("1", "Step 2: " + title);
  }

  /** Without a digit the prefix does not match: "Step : x" stays. */
  lemma StripNeedsADigit(title: string)
    ensures StripStepPrefix("Step : " + title) == "Step : " + title
  {
    var h := "Step : " + title;
    assert h[|StepWord|..][0] == ':';
  }

  /** The anchor id of section `sIdx` of chapter `idx`. */
  function AnchorId(idx: nat, sIdx: nat): (id: string)
    ensures IsPrefix("section-", id)
  {
    "section-" + DecimalString(idx) + "-" + DecimalString(sIdx)
  }

  /** The sidebar link's `href`: the anchor id as a fragment. */
  function SidebarHref(idx: nat, sIdx: nat): (href: string)
    ensures |href| >= 1 && href[0] == '#'
  {
    "#" + AnchorId(idx, sIdx)
  }

  /** Every sidebar link points at the anchor that the content gives the
      same section. */
  lemma LinksReachAnchors(idx: nat, sIdx: nat)
    ensures SidebarHref(idx, sIdx)[1..] == AnchorId(idx, sIdx)
  {
  }

  /** Distinct (chapter, section) pairs get distinct anchor ids. */
  lemma AnchorIdInjective(i1: nat, j1: nat, i2: nat, j2: nat)
    requires AnchorId(i1, j1) == AnchorId(i2, j2)
    ensures i1 == i2 && j1 == j2
  {
    var a1 := DecimalString(i1);
    var a2 := DecimalString(i2);
    var b1 := DecimalString(j1);
    var b2 := DecimalString(j2);
    var s1 := AnchorId(i1, j1);
    var s2 := AnchorId(i2, j2);
    assert s1[8..] == a1 + "-" + b1;
    assert s2[8..] == a2 + "-" + b2;
    DecimalHasNo(i1, '-');
    DecimalHasNo(i2, '-');
    JoinInjective(a1, b1, a2, b2, '-');
    DecimalInjective(i1, i2);
    DecimalInjective(j1, j2);
  }
}
