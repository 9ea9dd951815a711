/** Paging through onboarding (XIVE/UI/onboarding/OnboardingViewModel.swift). */
module Onboarding {
  import opened OnboardingState

  /** The page shown and whether "start" was pressed on the last page. */
  datatype Pager = Pager(state: InformationState, isLastPage: bool)

  /** `moveToNext` on values: the next case of `allCases`, or, on the last page,
      the same page with `isLastPage` raised. */
  function Next(p: Pager): (q: Pager)
    ensures RawValue(p.state) < 2 ==> q == Pager(AllCases()[RawValue(p.state) + 1], p.isLastPage)
    ensures RawValue(p.state) == 2 ==> q == Pager(p.state, true)
  {
    var i := RawValue(p.state);
    if i < |AllCases()| - 1 then Pager(AllCases()[i + 1], p.isLastPage) else Pager(p.state, true)
  }

  /** Paging never goes back and never lowers `isLastPage`. */
  lemma NextIsMonotone(p: Pager)
    ensures RawValue(p.state) <= RawValue(Next(p).state)
    ensures p.isLastPage ==> Next(p).isLastPage
  {
  }

  /** `isLastPage` is raised by a press on the third page and by nothing else. */
  lemma NextRaisesLastPageOnlyOnThird(p: Pager)
    ensures !p.isLastPage ==> (Next(p).isLastPage <==> p.state == Third)
  {
  }

  /** `n` presses from the first page. */
  function Presses(p: Pager, n: nat): Pager
    decreases n
  {
    if n == 0 then p else Presses(Next(p), n - 1)
  }

  /** From a fresh start: two presses reach the third page, the third press
      finishes, and further presses change nothing. */
  lemma {:induction false} WalkThrough(n: nat)
    ensures Presses(Pager(First, false), 2) == Pager(Third, false)
    ensures n >= 3 ==> Presses(Pager(First, false), n) == Pager(Third, true)
  {
    if n >= 3 {
      assert Presses(Pager(First, false), 3) == Pager(Third, true);
      FinishedStays(n - 3);
      PressesSplit(Pager(First, false), 3, n - 3);
    }
  }

  lemma {:induction false} FinishedStays(n: nat)
    ensures Presses(Pager(Third, true), n) == Pager(Third, true)
  {
    if n > 0 {
      FinishedStays(n - 1);
    }
  }

  lemma {:induction false} PressesSplit(p: Pager, a: nat, b: nat)
    ensures Presses(p, a + b) == Presses(Presses(p, a), b)
    decreases a
  {
    if a > 0 {
      PressesSplit(Next(p), a - 1, b);
    }
  }

  class OnboardingViewModel {
    /** `model.informationState`. */
    var informationState: InformationState
    var isLastPage: bool

    /** `OnboardingModel`'s initial page is passed in. */
    constructor (initial: InformationState)
      ensures informationState == initial && !isLastPage
    {
      informationState, isLastPage := initial, false;
    }

    method MoveToNext()
      modifies this
      ensures Pager(informationState, isLastPage) == Next(old(Pager(informationState, isLastPage)))
    {
      var allStates := AllCases();
      var currentIndex := RawValue(informationState);
      if currentIndex < |allStates| - 1 {
        informationState := allStates[currentIndex + 1];
      } else {
        isLastPage := true;
      }
    }

    /** The getter of `tabSelectionBinding`. */
    function TabSelection(): (s: InformationState)
      reads this
      ensures s == informationState
    {
      informationState
    }

    /** The setter of `tabSelectionBinding` (a swipe in the page view). */
    method SetTabSelection(newValue: InformationState)
      modifies this`informationState
      ensures informationState == newValue && isLastPage == old(isLastPage)
    {
      informationState := newValue;
    }
  }
}
