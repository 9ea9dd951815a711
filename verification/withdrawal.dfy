/** The account withdrawal form (XIVE/UI/Setting/WithdrawalView.swift): an agreement
    checkbox that reveals six reason checkboxes, a free-text reason under the last
    one, and the request body built from the lowest checked reason. */
module Withdrawal {
  import opened Wrappers
  import opened Store

  const ReasonCount: nat := 6
  /** The index of the "other" reason, the one with a free-text field. */
  const OtherIndex: nat := 5

  /** `reasonOption(for:)`: the server's code for the reason at `index`. */
  function ReasonOption(index: int): (code: string)
    ensures 0 <= index < 5 ==> code == "OPTION" + [('1' as int + index) as char]
    ensures index == OtherIndex ==> code == "OTHER_OPTION"
    ensures !(0 <= index < ReasonCount) ==> code == "NONE"
  {
    match index
    case 0 => "OPTION1"
    case 1 => "OPTION2"
    case 2 => "OPTION3"
    case 3 => "OPTION4"
    case 4 => "OPTION5"
    case 5 => "OTHER_OPTION"
    case _ => "NONE"
  }

  /** The inverse table: which reason a code stands for. */
  function ReasonIndex(code: string): (index: Option<nat>)
    ensures index.Some? ==> index.value < ReasonCount
  {
    if code == "OPTION1" then Some(0)
    else if code == "OPTION2" then Some(1)
    else if code == "OPTION3" then Some(2)
    else if code == "OPTION4" then Some(3)
    else if code == "OPTION5" then Some(4)
    else if code == "OTHER_OPTION" then Some(5)
    else None
  }

  /** Each of the six reasons has its own code, and the code gives the reason back. */
  lemma ReasonOptionRoundTrip(index: int)
    ensures 0 <= index < ReasonCount ==> ReasonIndex(ReasonOption(index)) == Some(index as nat)
    ensures !(0 <= index < ReasonCount) ==> ReasonIndex(ReasonOption(index)) == None
  {
  }

  lemma ReasonOptionInjective(i: int, j: int)
    requires 0 <= i < ReasonCount && 0 <= j < ReasonCount && ReasonOption(i) == ReasonOption(j)
    ensures i == j
  {
    ReasonOptionRoundTrip(i);
    ReasonOptionRoundTrip(j);
  }

  /** `reasonsChecked.contains(true)`. */
  predicate AnyChecked(checked: seq<bool>)
  {
    exists i :: 0 <= i < |checked| && checked[i]
  }

  /** `reasonsChecked.firstIndex(of: true) ?? 0`. */
  function SelectedReason(checked: seq<bool>): (index: nat)
    ensures AnyChecked(checked) ==> index < |checked| && checked[index]
                                    && forall j :: 0 <= j < index ==> !checked[j]
    ensures !AnyChecked(checked) ==> index == 0
  {
    if checked == [] then 0
    else if checked[0] then 0
    else
      var k := SelectedReason(checked[1..]);
      if AnyChecked(checked[1..]) then k + 1
      else
        assert !AnyChecked(checked) by {
          forall i | 0 <= i < |checked| ensures !checked[i] {
            if i > 0 { assert checked[i] == checked[1..][i - 1]; }
          }
        }
        0
  }

  /** The `withdrawalOption` and `content` entries of the request body. */
  function WithdrawalBody(checked: seq<bool>, otherReason: string): (body: map<string, string>)
    ensures body.Keys == {"withdrawalOption", "content"}
    ensures body["withdrawalOption"] == ReasonOption(SelectedReason(checked))
    ensures body["content"] == if body["withdrawalOption"] == "OTHER_OPTION" then otherReason else "NONE"
  {
    var option := ReasonOption(SelectedReason(checked));
    map["withdrawalOption" := option, "content" := if option == "OTHER_OPTION" then otherReason else "NONE"]
  }

  /** The free text goes out only when "other" is the only reason checked: a reason
      checked before it takes the option, and the text is replaced by "NONE". */
  lemma FreeTextOnlyForOtherAlone(checked: seq<bool>, otherReason: string)
    requires |checked| == ReasonCount
    ensures WithdrawalBody(checked, otherReason)["withdrawalOption"] == "OTHER_OPTION" <==>
            checked[OtherIndex] && forall j :: 0 <= j < OtherIndex ==> !checked[j]
  {
    var k := SelectedReason(checked);
    if checked[OtherIndex] && forall j :: 0 <= j < OtherIndex ==> !checked[j] {
      assert AnyChecked(checked);
      assert k == OtherIndex;
    }
    if ReasonOption(k) == "OTHER_OPTION" {
      ReasonOptionRoundTrip(k);
      assert k == OtherIndex;
    }
  }

  /** With a reason checked, the option sent is never "NONE" and names a checked reason. */
  lemma SubmittedOptionIsChecked(checked: seq<bool>, otherReason: string)
    requires |checked| == ReasonCount && AnyChecked(checked)
    ensures var code := WithdrawalBody(checked, otherReason)["withdrawalOption"];
      ReasonIndex(code).Some? && checked[ReasonIndex(code).value]
  {
    ReasonOptionRoundTrip(SelectedReason(checked));
  }

  class WithdrawalForm {
    var agreementChecked: bool
    var reasonsChecked: array<bool>
    var showReasonSection: bool
    var otherReason: string

    /** Six reason entries, and the reason section shown exactly while the
        agreement is checked. */
    ghost predicate Valid()
      reads this
    {
      reasonsChecked.Length == ReasonCount && showReasonSection == agreementChecked
    }

    /** The initial `@State`: nothing checked, the reasons hidden, no free text. */
    constructor ()
      ensures Valid() && fresh(reasonsChecked)
      ensures reasonsChecked[..] == [false, false, false, false, false, false]
      ensures !agreementChecked && !showReasonSection && otherReason == []
    {
      agreementChecked, showReasonSection, otherReason := false, false, [];
      reasonsChecked := new bool[ReasonCount](_ => false);
    }

    /** The agreement button: flips the agreement and shows the reasons exactly
        while it is checked. */
    method ToggleAgreement()
      requires Valid()
      modifies this`agreementChecked, this`showReasonSection
      ensures Valid()
      ensures agreementChecked == !old(agreementChecked)
      ensures showReasonSection == agreementChecked
    {
      agreementChecked := !agreementChecked;
      showReasonSection := agreementChecked;
    }

    /** The button of reason `index`: flips that entry alone. */
    method ToggleReason(index: nat)
      requires Valid() && index < ReasonCount
      modifies reasonsChecked
      ensures reasonsChecked[index] == !old(reasonsChecked[index])
      ensures forall j :: 0 <= j < ReasonCount && j != index ==> reasonsChecked[j] == old(reasonsChecked[j])
    {
      reasonsChecked[index] := !reasonsChecked[index];
    }

    /** The free-text field for reason 5 is shown: it sits inside the reason
        section, under a checked reason 5. */
    function ShowsOtherReasonField(): (shown: bool)
      reads this, reasonsChecked
      requires Valid()
      ensures shown <==> agreementChecked && reasonsChecked[OtherIndex]
    {
      showReasonSection && reasonsChecked[OtherIndex]
    }

    /** Withdrawing the agreement hides the free-text field, even when reason 5
        stays checked. */
    lemma OtherReasonFieldNeedsAgreement()
      requires Valid() && !agreementChecked
      ensures !ShowsOtherReasonField()
    {
    }

    /** `canWithdraw`: the button is enabled. */
    function CanWithdraw(): (enabled: bool)
      reads this, reasonsChecked
      requires Valid()
      ensures enabled <==> agreementChecked && exists i :: 0 <= i < ReasonCount && reasonsChecked[i]
    {
      agreementChecked && AnyChecked(reasonsChecked[..])
    }

    /** `withdraw`: the request body, or `None` when the session tokens are missing. */
    method Withdraw(d: Defaults) returns (body: Option<map<string, string>>)
      requires Valid()
      ensures body.Some? <==> Tokens(d).Some?
      ensures body.Some? ==> body.value == WithdrawalBody(reasonsChecked[..], otherReason)
    {
      if Tokens(d).None? {
        return None;
      }
      body := Some(WithdrawalBody(reasonsChecked[..], otherReason));
    }
  }

  /** A finished withdrawal request: only status 200 (with data, without a
      transport error) stores `isLoggedIn = false` and leads back to the login
      screen; every other answer changes nothing. */
  function WithdrawalReply(d: Defaults, transportError: bool, hasData: bool, status: Option<int>)
    : (r: (Defaults, bool))
    ensures r.1 <==> !transportError && hasData && status == Some(200)
    ensures r.1 ==> r.0 == d[IsLoggedInKey := BoolValue(false)] && !BoolFor(r.0, IsLoggedInKey)
    ensures !r.1 ==> r.0 == d
  {
    if !transportError && hasData && status.Some? && status.value == 200 then
      (d[IsLoggedInKey := BoolValue(false)], true)
    else
      (d, false)
  }
}
