/** The one-to-one inquiry form (XIVE/UI/Setting/OneToOneView.swift): an email
    field, a content editor capped at 500 characters, and a submit button that is
    enabled only for a well-formed email and non-empty content. */
module Inquiry {
  import opened Wrappers
  import opened Store
  import Decimal

  const MaxContentLength: nat := 500

  // ---------------------------------------------------------------------------
  // isValidEmail: the pattern  [A-Z0-9a-z._%+-]+@[A-Za-z0-9.-]+\.[A-Za-z]{2,64}
  // matched against the whole string (NSPredicate MATCHES).

  predicate IsAsciiLetter(c: char)
  {
    ('a' <= c <= 'z') || ('A' <= c <= 'Z')
  }

  predicate IsAsciiAlphanumeric(c: char)
  {
    IsAsciiLetter(c) || ('0' <= c <= '9')
  }

  predicate IsLocalChar(c: char)
  {
    IsAsciiAlphanumeric(c) || c == '.' || c == '_' || c == '%' || c == '+' || c == '-'
  }

  predicate IsDomainChar(c: char)
  {
    IsAsciiAlphanumeric(c) || c == '.' || c == '-'
  }

  predicate AllLocal(s: string)   { forall i :: 0 <= i < |s| ==> IsLocalChar(s[i]) }
  predicate AllDomain(s: string)  { forall i :: 0 <= i < |s| ==> IsDomainChar(s[i]) }
  predicate AllLetters(s: string) { forall i :: 0 <= i < |s| ==> IsAsciiLetter(s[i]) }

  /** The language of the pattern, stated by where its `@` and its last `.` stand. */
  ghost predicate MatchesEmailPattern(s: string)
  {
    exists at, dot :: SplitsAsEmail(s, at, dot)
  }

  /** The index of the first `c` in `s`. */
  function FirstIndexOf(s: string, c: char): (r: Option<nat>)
    ensures r.None? ==> forall i :: 0 <= i < |s| ==> s[i] != c
    ensures r.Some? ==> r.value < |s| && s[r.value] == c && forall i :: 0 <= i < r.value ==> s[i] != c
  {
    if s == [] then None
    else if s[0] == c then Some(0)
    else match FirstIndexOf(s[1..], c)
      case None => None
      case Some(k) => Some(k + 1)
  }

  /** The index of the last `c` in `s`. */
  function LastIndexOf(s: string, c: char): (r: Option<nat>)
    ensures r.None? ==> forall i :: 0 <= i < |s| ==> s[i] != c
    ensures r.Some? ==> r.value < |s| && s[r.value] == c && forall i :: r.value < i < |s| ==> s[i] != c
  {
    if s == [] then None
    else if s[|s| - 1] == c then Some(|s| - 1)
    else LastIndexOf(s[..|s| - 1], c)
  }

  /** `isValidEmail`: split at the first `@` and at the last `.` after it. */
  predicate IsValidEmail(email: string): (valid: bool)
    ensures valid ==> '@' in email && 6 <= |email|
  {
    match FirstIndexOf(email, '@')
    case None => false
    case Some(at) =>
      var rest := email[at + 1..];
      match LastIndexOf(rest, '.')
      case None => false
      case Some(k) =>
        0 < at && 0 < k && AllLocal(email[..at]) && AllDomain(rest[..k]) &&
        2 <= |rest| - k - 1 <= 64 && AllLetters(rest[k + 1..])
  }

  /** The shape of one match: local part, `@`, domain, `.`, top-level domain. */
  predicate SplitsAsEmail(s: string, at: int, dot: int)
  {
    0 < at && at + 1 < dot && dot < |s| &&
    s[at] == '@' && s[dot] == '.' &&
    AllLocal(s[..at]) && AllDomain(s[at + 1..dot]) &&
    2 <= |s| - dot - 1 <= 64 && AllLetters(s[dot + 1..])
  }

  lemma ValidEmailSplits(s: string)
    requires IsValidEmail(s)
    ensures MatchesEmailPattern(s)
  {
    var at := FirstIndexOf(s, '@').value;
    var rest := s[at + 1..];
    var k := LastIndexOf(rest, '.').value;
    var dot := at + 1 + k;
    assert s[at + 1..dot] == rest[..k];
    assert s[dot + 1..] == rest[k + 1..];
    assert s[dot] == rest[k];
    assert SplitsAsEmail(s, at, dot);
  }

  lemma SplitEmailIsValid(s: string, at: int, dot: int)
    requires SplitsAsEmail(s, at, dot)
    ensures IsValidEmail(s)
  {
    // no local character is '@', so `at` is the first one
    forall i | 0 <= i < at ensures s[i] != '@' {
      assert s[..at][i] == s[i];
    }
    assert FirstIndexOf(s, '@') == Some(at);
    var rest := s[at + 1..];
    var k := dot - at - 1;
    // no letter is '.', so `dot` is the last one
    forall i | k < i < |rest| ensures rest[i] != '.' {
      assert rest[i] == s[dot + 1..][i - k - 1];
    }
    assert LastIndexOf(rest, '.') == Some(k);
    assert rest[..k] == s[at + 1..dot];
    assert rest[k + 1..] == s[dot + 1..];
  }

  /** The email check accepts exactly the strings the pattern matches. */
  lemma IsValidEmailMatchesPattern(s: string)
    ensures IsValidEmail(s) <==> MatchesEmailPattern(s)
  {
    if IsValidEmail(s) {
      ValidEmailSplits(s);
    }
    if MatchesEmailPattern(s) {
      var at, dot :| SplitsAsEmail(s, at, dot);
      SplitEmailIsValid(s, at, dot);
    }
  }

  lemma NoEmailWithoutAt(s: string)
    requires forall i :: 0 <= i < |s| ==> s[i] != '@'
    ensures !IsValidEmail(s)
  {
  }

  // ---------------------------------------------------------------------------
  // The content editor

  /** `String(inquiryContent.prefix(500))` when the content is too long. */
  function Truncate(content: string): (r: string)
    ensures |r| <= MaxContentLength && |r| <= |content| && r == content[..|r|]
    ensures |content| <= MaxContentLength ==> r == content
    ensures |content| > MaxContentLength ==> |r| == MaxContentLength
  {
    if |content| > MaxContentLength then content[..MaxContentLength] else content
  }

  lemma TruncateIdempotent(content: string)
    ensures Truncate(Truncate(content)) == Truncate(content)
  {
  }

  /** The counter under the editor: the content length, a slash, the limit. */
  function CounterLabel(content: string): (shown: string)
    ensures |shown| > 4 && shown[|shown| - 4..] == "/500"
    ensures Decimal.ParseInt(shown[..|shown| - 4]) == Some(|content|)
  {
    var digits := Decimal.IntToDecimal(|content|);
    Decimal.IntToDecimalRoundTrip(|content|);
    assert (digits + "/500")[..|digits|] == digits;
    digits + "/500"
  }

  /** `validateForm`'s condition for disabling the submit button. */
  predicate SubmitDisabled(email: string, content: string): (disabled: bool)
    ensures !disabled ==> 6 <= |email| && 1 <= |content| <= MaxContentLength
    ensures email == [] || content == [] || |content| > MaxContentLength ==> disabled
  {
    email == [] || !IsValidEmail(email) || content == [] || |content| > MaxContentLength
  }

  /** An enabled button means a pattern-matching email and 1 to 500 characters. */
  lemma EnabledMeansWellFormed(email: string, content: string)
    requires !SubmitDisabled(email, content)
    ensures MatchesEmailPattern(email) && 1 <= |content| <= MaxContentLength
  {
    IsValidEmailMatchesPattern(email);
  }

  /** The body of the `inquiries` request. */
  function InquiryBody(email: string, content: string): (body: JsonObject)
    ensures body.Keys == {"email", "contents"}
    ensures StringField(body, "email") == Some(email) && StringField(body, "contents") == Some(content)
  {
    map["email" := JString(email), "contents" := JString(content)]
  }

  class InquiryForm {
    var userEmail: string
    var inquiryContent: string
    var isSubmitDisabled: bool

    constructor ()
      ensures userEmail == [] && inquiryContent == [] && isSubmitDisabled
    {
      userEmail, inquiryContent, isSubmitDisabled := [], [], true;
    }

    /** `validateForm`. */
    method ValidateForm()
      modifies this`isSubmitDisabled
      ensures isSubmitDisabled <==> (userEmail == [] || !IsValidEmail(userEmail)
                                     || inquiryContent == [] || |inquiryContent| > MaxContentLength)
    {
      isSubmitDisabled := userEmail == [] || !IsValidEmail(userEmail)
                          || inquiryContent == [] || |inquiryContent| > MaxContentLength;
    }

    /** Typing in the email field: the `onChange` handlers revalidate. */
    method EditEmail(email: string)
      modifies this`userEmail, this`isSubmitDisabled
      ensures userEmail == email && inquiryContent == old(inquiryContent)
      ensures isSubmitDisabled == SubmitDisabled(email, inquiryContent)
    {
      userEmail := email;
      ValidateForm();
    }

    /** Typing in the editor: the `onChange` handler revalidates and cuts the
        content to 500 characters; the cut is itself a change, which runs the
        handler once more on the shortened content. */
    method EditContent(content: string)
      modifies this`inquiryContent, this`isSubmitDisabled
      ensures inquiryContent == Truncate(content) && userEmail == old(userEmail)
      ensures isSubmitDisabled == SubmitDisabled(userEmail, Truncate(content))
    {
      inquiryContent := content;
      ValidateForm();
      if |inquiryContent| > MaxContentLength {
        inquiryContent := inquiryContent[..MaxContentLength];
        ValidateForm();
      }
    }

    /** `sendInquiry`: the body sent, or `None` when the session tokens are missing. */
    method SendInquiry(d: Defaults) returns (body: Option<JsonObject>)
      ensures body.Some? <==> Tokens(d).Some?
      ensures body.Some? ==> body.value == InquiryBody(userEmail, inquiryContent)
    {
      if Tokens(d).None? {
        return None;
      }
      body := Some(InquiryBody(userEmail, inquiryContent));
    }
  }
}
