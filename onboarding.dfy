/** The onboarding carousel: the slide counter behind Next and Skip, the page
    indicators and the button caption. */
module Onboarding {
  import opened Wrappers

  datatype Slide = Slide(id: int, title: string, color: string)

  const Slides: seq<Slide> := [
    Slide(1, "Discover Amazing Destinations", "#2E7D32"),
    Slide(2, "Connect with Fellow Travelers", "#FF6F00"),
    Slide(3, "Track Your Adventures", "#1976D2")
  ]

  /** The tabs route both Next (on the last slide) and Skip replace the screen with. */
  const TabsRoute: string := "/(tabs)"

  /** The slide shown, and where the router was sent, if anywhere. */
  datatype OnboardingState = OnboardingState(currentIndex: int, replacedWith: Option<string>)

  const Initial: OnboardingState := OnboardingState(0, None)

  /** `handleNext`: one slide further below the last slide; on the last one
      the router leaves for the tabs and the index stays. */
  function HandleNext(s: OnboardingState): (r: OnboardingState)
    ensures s.currentIndex < |Slides| - 1 ==> r == s.(currentIndex := s.currentIndex + 1)
    ensures s.currentIndex >= |Slides| - 1 ==> r == s.(replacedWith := Some(TabsRoute))
  {
    if s.currentIndex < |Slides| - 1 then s.(currentIndex := s.currentIndex + 1)
    else s.(replacedWith := Some(TabsRoute))
  }

  /** `handleSkip`: leave for the tabs from any slide. */
  function HandleSkip(s: OnboardingState): (r: OnboardingState)
    ensures r == s.(replacedWith := Some(TabsRoute))
  {
    s.(replacedWith := Some(TabsRoute))
  }

  /** The state after `n` presses on Next. */
  function PressNext(s: OnboardingState, n: nat): OnboardingState
    decreases n
  {
    if n == 0 then s else PressNext(HandleNext(s), n - 1)
  }

  /** From the first slide, `n` presses show slide `min(n, 2)`, and the router
      leaves exactly from the third press on. */
  lemma {:induction false} PressNextFromStart(n: nat)
    ensures PressNext(Initial, n).currentIndex == if n < |Slides| - 1 then n else |Slides| - 1
    ensures PressNext(Initial, n).replacedWith.Some? <==> n >= |Slides|
  {
    PressNextFrom(Initial, n);
  }

  lemma {:induction false} PressNextFrom(s: OnboardingState, n: nat)
    requires 0 <= s.currentIndex < |Slides| && s.replacedWith.None?
    ensures var last := |Slides| - 1;
      PressNext(s, n).currentIndex == if s.currentIndex + n < last then s.currentIndex + n else last
    ensures PressNext(s, n).replacedWith.Some? <==> s.currentIndex + n >= |Slides|
    ensures PressNext(s, n).replacedWith.Some? ==> PressNext(s, n).replacedWith == Some(TabsRoute)
    decreases n
  {
    if n > 0 {
      if s.currentIndex < |Slides| - 1 {
        PressNextFrom(HandleNext(s), n - 1);
      } else {
        PressNextStays(HandleNext(s), n - 1);
      }
    }
  }

  /** Once on the last slide and away, further presses change nothing. */
  lemma {:induction false} PressNextStays(s: OnboardingState, n: nat)
    requires s.currentIndex == |Slides| - 1 && s.replacedWith == Some(TabsRoute)
    ensures PressNext(s, n) == s
    decreases n
  {
    if n > 0 {
      PressNextStays(HandleNext(s), n - 1);
    }
  }

  /** Next alone keeps the index within the slides. */
  lemma NextKeepsIndexInRange(s: OnboardingState)
    requires 0 <= s.currentIndex < |Slides|
    ensures 0 <= HandleNext(s).currentIndex < |Slides|
  {
  }

  /** The width of page indicator `index`: 20 for the current slide, 8 otherwise. */
  function IndicatorWidth(s: OnboardingState, index: int): (width: int)
    ensures width == 20 <==> index == s.currentIndex
  {
    if s.currentIndex == index then 20 else 8
  }

  /** Exactly one indicator is wide, the current slide's. */
  lemma OneActiveIndicator(s: OnboardingState)
    requires 0 <= s.currentIndex < |Slides|
    ensures IndicatorWidth(s, s.currentIndex) == 20
    ensures forall i :: 0 <= i < |Slides| && IndicatorWidth(s, i) == 20 ==> i == s.currentIndex
  {
  }

  /** The Next button's caption. */
  function NextCaption(s: OnboardingState): (caption: string)
    ensures caption == "Get Started" <==> s.currentIndex == |Slides| - 1
    ensures caption != "Get Started" ==> caption == "Next"
  {
    if s.currentIndex == |Slides| - 1 then "Get Started" else "Next"
  }

  /** The button says 'Get Started' exactly when pressing it leaves. */
  lemma CaptionMatchesNext(s: OnboardingState)
    requires 0 <= s.currentIndex < |Slides| && s.replacedWith.None?
    ensures NextCaption(s) == "Get Started" <==> HandleNext(s).replacedWith.Some?
  {
  }
}
