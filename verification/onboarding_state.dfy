/** The three onboarding pages (XIVE/UI/onboarding/OnboardingInformationState.swift)
    and the per-page constants the onboarding screen looks up. */
module OnboardingState {
  import opened Wrappers
  import Decimal

  datatype InformationState = First | Second | Third

  /** `allCases`, in declaration order. */
  function AllCases(): (cases: seq<InformationState>)
    ensures |cases| == 3
    ensures forall i, j :: 0 <= i < j < |cases| ==> cases[i] != cases[j]
  {
    [First, Second, Third]
  }

  /** The `Int` raw value. */
  function RawValue(s: InformationState): (raw: nat)
    ensures raw < |AllCases()| && AllCases()[raw] == s
  {
    match s
    case First => 0
    case Second => 1
    case Third => 2
  }

  /** `init?(rawValue:)`. */
  function FromRawValue(raw: int): (s: Option<InformationState>)
    ensures s.Some? <==> 0 <= raw < 3
  {
    if 0 <= raw < 3 then Some(AllCases()[raw]) else None
  }

  lemma RawValueRoundTrip(s: InformationState, raw: int)
    ensures FromRawValue(RawValue(s)) == Some(s)
    ensures FromRawValue(raw).Some? ==> RawValue(FromRawValue(raw).value) == raw
  {
  }

  /** `id`: the decimal text of the raw value. */
  function Id(s: InformationState): (id: string)
    ensures Decimal.ParseInt(id) == Some(RawValue(s))
  {
    Decimal.IntToDecimalRoundTrip(RawValue(s));
    Decimal.IntToDecimal(RawValue(s))
  }

  /** `Identifiable` needs distinct pages to have distinct ids. */
  lemma IdInjective(s: InformationState, t: InformationState)
    requires Id(s) == Id(t)
    ensures s == t
  {
    Decimal.IntToDecimalInjective(RawValue(s), RawValue(t));
  }

  /** `lottieFileName`: the animation of page n is `Onboarding_n`. */
  function LottieFileName(s: InformationState): (name: string)
    ensures name == "Onboarding_" + Decimal.IntToDecimal(RawValue(s) + 1)
  {
    match s
    case First => "Onboarding_1"
    case Second => "Onboarding_2"
    case Third => "Onboarding_3"
  }

  /** `width` of the animation frame. */
  function Width(s: InformationState): (w: nat)
    ensures s != Third ==> w == 400
    ensures s == Third ==> w == 520
  {
    match s
    case First => 400
    case Second => 400
    case Third => 520
  }

  /** `height` of the animation frame. */
  function Height(s: InformationState): (h: nat)
    ensures s != Third ==> h == 400
    ensures s == Third ==> h == 300
  {
    match s
    case First => 400
    case Second => 400
    case Third => 300
  }

  /** `headerText`: no page has a header. */
  function HeaderText(s: InformationState): (text: string)
    ensures text == []
  {
    ""
  }
}
