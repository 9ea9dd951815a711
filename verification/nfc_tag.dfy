/** The string handling behind an NFC ticket tap (XIVE/UI/home/NFCViewModel.swift):
    unwrapping the text of an NDEF Text record, cutting an event or stamp token out of
    it, and trimming a stamp token before it is sent. */
module NfcTag {
  import opened Wrappers
  import opened Store

  // ---------------------------------------------------------------------------
  // NDEF Text record payload

  /** A Text record payload as section 3.2.1 of the NFC Forum Text Record Type
      Definition lays it out: one status byte, the IANA language code, the text. */
  function TextRecordPayload(status: char, language: string, text: string): string
  {
    [status] + language + text
  }

  /** `extractContent`: drops the first three characters, i.e. assumes the status
      byte is followed by a two-letter language code. */
  function ExtractContent(payload: string): (r: string)
    ensures |payload| <= 3 ==> r == []
    ensures 3 <= |payload| ==> payload == payload[..3] + r
  {
    if |payload| <= 3 then [] else payload[3..]
  }

  /** With a two-letter language code the text comes back exactly. */
  lemma ExtractContentOfTwoLetterRecord(status: char, language: string, text: string)
    requires |language| == 2
    ensures ExtractContent(TextRecordPayload(status, language, text)) == text
  {
    assert TextRecordPayload(status, language, text)[3..] == text;
  }

  /** With a longer language code (`en-US`) its tail stays in front of the text. */
  lemma ExtractContentKeepsLongLanguageTail(status: char, language: string, text: string)
    requires |language| > 2
    ensures ExtractContent(TextRecordPayload(status, language, text)) == language[2..] + text
  {
    assert TextRecordPayload(status, language, text)[3..] == language[2..] + text;
  }

  // ---------------------------------------------------------------------------
  // formatToken: the regular expression
  //   ^(stamp|event):[0-9a-fA-F]{8}-[0-9a-fA-F]{4}-[0-9a-fA-F]{4}-[0-9a-fA-F]{4}-[0-9a-fA-F]{12}

  predicate IsHexDigit(c: char)
  {
    ('0' <= c <= '9') || ('a' <= c <= 'f') || ('A' <= c <= 'F')
  }

  predicate IsHyphenPosition(i: int)
  {
    i == 8 || i == 13 || i == 18 || i == 23
  }

  /** The 8-4-4-4-12 string form of a UUID (section 3 of RFC 4122), either case. */
  predicate IsCanonicalUuid(u: string)
  {
    |u| == 36 &&
    forall i :: 0 <= i < 36 ==> if IsHyphenPosition(i) then u[i] == '-' else IsHexDigit(u[i])
  }

  const TokenLength: nat := 42

  /** A whole event or stamp token: a lower-case kind, a colon, a UUID. */
  predicate IsToken(t: string)
  {
    |t| == TokenLength && (t[..6] == "stamp:" || t[..6] == "event:") && IsCanonicalUuid(t[6..])
  }

  /** The anchored pattern matches at the start of `s`; every match is 42 long. */
  predicate StartsWithToken(s: string)
  {
    TokenLength <= |s| && IsToken(s[..TokenLength])
  }

  /** `formatToken`: the matched token when the text starts with one, the text
      unchanged otherwise. */
  function FormatToken(url: string): (r: string)
    ensures |r| <= |url| && r == url[..|r|]
    ensures StartsWithToken(url) ==> IsToken(r)
  {
    if StartsWithToken(url) then url[..TokenLength] else url
  }

  /** Whatever follows a token is dropped. */
  lemma FormatTokenDropsSuffix(t: string, rest: string)
    requires IsToken(t)
    ensures FormatToken(t + rest) == t
  {
    assert (t + rest)[..TokenLength] == t;
  }

  /** Text that does not start with a token passes through. */
  lemma FormatTokenKeepsOtherText(url: string)
    requires !StartsWithToken(url)
    ensures FormatToken(url) == url
  {
  }

  lemma FormatTokenIdempotent(url: string)
    ensures FormatToken(FormatToken(url)) == FormatToken(url)
  {
    if StartsWithToken(url) {
      var t := url[..TokenLength];
      assert t[..TokenLength] == t;
    }
  }

  /** The prefix is matched case-sensitively: an upper-case kind is no token. */
  lemma UpperCaseKindIsNoToken(t: string)
    requires |t| == TokenLength && t[0] == 'S'
    ensures !IsToken(t) && FormatToken(t) == t
  {
    assert t[..6][0] == 'S';
  }

  /** An independent reading of the UUID form: 32 hex digits, hyphenated 8-4-4-4-12. */
  function Hyphenate(h: string): string
    requires |h| == 32
  {
    h[..8] + "-" + h[8..12] + "-" + h[12..16] + "-" + h[16..20] + "-" + h[20..]
  }

  function Unhyphenate(u: string): string
    requires |u| == 36
  {
    u[..8] + u[9..13] + u[14..18] + u[19..23] + u[24..]
  }

  lemma HyphenateIsCanonical(h: string)
    requires |h| == 32 && forall i :: 0 <= i < 32 ==> IsHexDigit(h[i])
    ensures IsCanonicalUuid(Hyphenate(h))
    ensures Unhyphenate(Hyphenate(h)) == h
  {
    var u := Hyphenate(h);
    assert |u| == 36;
    forall i | 0 <= i < 36
      ensures if IsHyphenPosition(i) then u[i] == '-' else IsHexDigit(u[i])
    {
      if i < 8 { assert u[i] == h[i]; }
      else if 8 < i < 13 { assert u[i] == h[i - 1]; }
      else if 13 < i < 18 { assert u[i] == h[i - 2]; }
      else if 18 < i < 23 { assert u[i] == h[i - 3]; }
      else if 23 < i { assert u[i] == h[i - 4]; }
    }
    var back := Unhyphenate(u);
    forall i | 0 <= i < 32 ensures back[i] == h[i] {
      if i < 8 { assert back[i] == u[i]; }
      else if i < 12 { assert back[i] == u[i + 1]; }
      else if i < 16 { assert back[i] == u[i + 2]; }
      else if i < 20 { assert back[i] == u[i + 3]; }
      else { assert back[i] == u[i + 4]; }
    }
  }

  lemma CanonicalIsHyphenated(u: string)
    requires IsCanonicalUuid(u)
    ensures var h := Unhyphenate(u);
      |h| == 32 && (forall i :: 0 <= i < 32 ==> IsHexDigit(h[i])) && Hyphenate(h) == u
  {
    var h := Unhyphenate(u);
    forall i | 0 <= i < 32 ensures IsHexDigit(h[i]) {
      if i < 8 { assert h[i] == u[i]; }
      else if i < 12 { assert h[i] == u[i + 1]; }
      else if i < 16 { assert h[i] == u[i + 2]; }
      else if i < 20 { assert h[i] == u[i + 3]; }
      else { assert h[i] == u[i + 4]; }
    }
    var there := Hyphenate(h);
    forall i | 0 <= i < 36 ensures there[i] == u[i] {
      if IsHyphenPosition(i) { assert there[i] == '-'; }
      else if i < 8 { assert there[i] == h[i]; }
      else if i < 13 { assert there[i] == h[i - 1]; }
      else if i < 18 { assert there[i] == h[i - 2]; }
      else if i < 23 { assert there[i] == h[i - 3]; }
      else { assert there[i] == h[i - 4]; }
    }
  }

  // ---------------------------------------------------------------------------
  // trimmingCharacters(in: .whitespaces)

  /** `CharacterSet.whitespaces`: the Unicode space separators (category Zs) and
      the horizontal tab; line breaks are not in it. */
  predicate IsWhitespace(c: char)
  {
    c == '\t' || c == ' ' || c == '\U{00A0}' || c == '\U{1680}' ||
    ('\U{2000}' <= c <= '\U{200A}') || c == '\U{202F}' || c == '\U{205F}' || c == '\U{3000}'
  }

  predicate AllWhitespace(s: string)
  {
    forall i :: 0 <= i < |s| ==> IsWhitespace(s[i])
  }

  /** The number of whitespace characters `s` starts with. */
  function LeadingWhitespace(s: string): (n: nat)
    ensures n <= |s| && AllWhitespace(s[..n])
    ensures n < |s| ==> !IsWhitespace(s[n])
  {
    if s == [] || !IsWhitespace(s[0]) then 0
    else
      var m := LeadingWhitespace(s[1..]);
      assert s[1..][..m] == s[1..m + 1];
      m + 1
  }

  /** The number of whitespace characters `s` ends with. */
  function TrailingWhitespace(s: string): (n: nat)
    ensures n <= |s| && AllWhitespace(s[|s| - n..])
    ensures n < |s| ==> !IsWhitespace(s[|s| - n - 1])
  {
    if s == [] || !IsWhitespace(s[|s| - 1]) then 0
    else
      var init := s[..|s| - 1];
      var m := TrailingWhitespace(init);
      assert s[|s| - (m + 1)..] == init[|init| - m..] + [s[|s| - 1]];
      m + 1
  }

  /** `trimmingCharacters(in: .whitespaces)`. */
  function Trim(s: string): (r: string)
    ensures var i := LeadingWhitespace(s);
      i + |r| <= |s| && r == s[i..i + |r|] && AllWhitespace(s[i + |r|..])
    ensures r == [] || (!IsWhitespace(r[0]) && !IsWhitespace(r[|r| - 1]))
  {
    var rest := s[LeadingWhitespace(s)..];
    rest[..|rest| - TrailingWhitespace(rest)]
  }

  /** Text without surrounding whitespace is left alone: trimming is idempotent. */
  lemma TrimKeepsTrimmed(s: string)
    requires s == [] || (!IsWhitespace(s[0]) && !IsWhitespace(s[|s| - 1]))
    ensures Trim(s) == s
  {
  }

  lemma TrimIdempotent(s: string)
    ensures Trim(Trim(s)) == Trim(s)
  {
    TrimKeepsTrimmed(Trim(s));
  }

  /** A line break is not trimmed. */
  lemma TrimKeepsLineBreaks(s: string)
    requires s != [] && s[0] == '\n'
    ensures Trim(s) != [] && Trim(s)[0] == '\n'
  {
    assert LeadingWhitespace(s) == 0;
  }

  // ---------------------------------------------------------------------------
  // Requests built from a tag

  /** The `stampToken` query sent by `handleStampTagging`, with the session tokens
      it is sent with; `None` when the tokens are missing and nothing is sent. */
  datatype StampRequest = StampRequest(stampToken: string, accessToken: string, refreshToken: string)

  function StampTaggingRequest(eventToken: string, d: Defaults): (r: Option<StampRequest>)
    ensures r.Some? <==> Tokens(d).Some?
    ensures r.Some? ==> r.value.stampToken == Trim(eventToken)
                        && (r.value.accessToken, r.value.refreshToken) == Tokens(d).value
  {
    match Tokens(d)
    case None => None
    case Some((a, rt)) => Some(StampRequest(Trim(eventToken), a, rt))
  }

  /** What the XIVE API answers to a request: a transport error, an answer without a
      body, or a body that is (`Some`) or is not (`None`) a JSON object. */
  datatype Reply = TransportError | NoData | Body(json: Option<JsonObject>)

  /** The stamp id `handleStampTagging` hands to its completion: present only for a
      JSON object whose `stampId` is an integer. */
  function StampIdOfReply(reply: Reply): (r: Option<int>)
    ensures r.Some? <==> reply.Body? && reply.json.Some? && IntField(reply.json.value, "stampId").Some?
    ensures r.Some? ==> reply.json.value["stampId"] == JInt(r.value)
  {
    match reply
    case Body(Some(o)) => IntField(o, "stampId")
    case _ => None
  }
}
