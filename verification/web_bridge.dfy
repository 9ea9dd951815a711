/** The web page host of the event screen (XIVE/UI/home/WebView.swift): the
    JavaScript commands sent into the page, the messages the page sends back, the
    reload trigger, and the drag rule for the navigation bar. */
module WebBridge {
  import opened Wrappers
  import opened Store
  import Decimal

  // ---------------------------------------------------------------------------
  // Commands sent to the page

  const NfcTaggingPrefix: string := "nfcTagging("
  const NfcTaggingSuffix: string := ");"

  /** `"nfcTagging(\(stampID));"`. */
  function NfcTaggingCommand(stampId: int): (js: string)
    ensures |NfcTaggingPrefix| + |NfcTaggingSuffix| < |js|
    ensures js[..|NfcTaggingPrefix|] == NfcTaggingPrefix && js[|js| - |NfcTaggingSuffix|..] == NfcTaggingSuffix
  {
    NfcTaggingPrefix + Decimal.IntToDecimal(stampId) + NfcTaggingSuffix
  }

  /** What the page reads out of an `nfcTagging` call. */
  function ParseNfcTaggingCommand(js: string): Option<int>
  {
    if |NfcTaggingPrefix| + |NfcTaggingSuffix| <= |js|
       && js[..|NfcTaggingPrefix|] == NfcTaggingPrefix
       && js[|js| - |NfcTaggingSuffix|..] == NfcTaggingSuffix
    then Decimal.ParseInt(js[|NfcTaggingPrefix|..|js| - |NfcTaggingSuffix|])
    else None
  }

  /** The page gets back exactly the stamp id that was sent. */
  lemma NfcTaggingRoundTrip(stampId: int)
    ensures ParseNfcTaggingCommand(NfcTaggingCommand(stampId)) == Some(stampId)
  {
    var digits := Decimal.IntToDecimal(stampId);
    var js := NfcTaggingCommand(stampId);
    assert js[..|NfcTaggingPrefix|] == NfcTaggingPrefix;
    assert js[|js| - |NfcTaggingSuffix|..] == NfcTaggingSuffix;
    assert js[|NfcTaggingPrefix|..|js| - |NfcTaggingSuffix|] == digits;
    Decimal.IntToDecimalRoundTrip(stampId);
  }

  /** `initWeb('<access>', '<refresh>', '<event>', '<ticket>', true);`, with the four
      values pasted in as they are. */
  function InitWebCommand(access: string, refresh: string, eventId: string, ticketId: string): (js: string)
    ensures |js| == |access| + |refresh| + |eventId| + |ticketId| + 30
    ensures js[..9] == "initWeb('" && js[|js| - 9..] == "', true);"
  {
    "initWeb('" + access + "', '" + refresh + "', '" + eventId + "', '" + ticketId + "', true);"
  }

  predicate NoQuote(s: string)
  {
    forall i :: 0 <= i < |s| ==> s[i] != '\''
  }

  /** The position of the first `q` in `s`, or `|s|`. */
  function IndexOfChar(s: string, q: char): (n: nat)
    ensures n <= |s|
  {
    if s == [] || s[0] == q then 0 else 1 + IndexOfChar(s[1..], q)
  }

  lemma {:induction false} IndexOfDelimiter(x: string, y: string, q: char)
    requires forall i :: 0 <= i < |x| ==> x[i] != q
    ensures IndexOfChar(x + [q] + y, q) == |x|
  {
    if x != [] {
      assert (x + [q] + y)[1..] == x[1..] + [q] + y;
      IndexOfDelimiter(x[1..], y, q);
    }
  }

  /** Splitting at the first occurrence of a delimiter that the head does not contain. */
  lemma SplitAtDelimiter(x: string, y: string, x': string, y': string, q: char)
    requires (forall i :: 0 <= i < |x| ==> x[i] != q) && (forall i :: 0 <= i < |x'| ==> x'[i] != q)
    requires x + [q] + y == x' + [q] + y'
    ensures x == x' && y == y'
  {
    var s := x + [q] + y;
    IndexOfDelimiter(x, y, q);
    IndexOfDelimiter(x', y', q);
    assert x == s[..|x|];
    assert x' == s[..|x'|];
    assert y == s[|x| + 1..];
    assert y' == s[|x'| + 1..];
  }

  lemma StripPrefix(p: string, x: string, y: string)
    requires p + x == p + y
    ensures x == y
  {
    assert x == (p + x)[|p|..];
    assert y == (p + y)[|p|..];
  }

  /** The command after the first value's closing quote, one argument at a time. */
  function ArgumentsFrom(r: string, e: string, t: string): string
  {
    ", '" + (r + "'" + (", '" + (e + "'" + (", '" + (t + "'" + ", true);")))))
  }

  lemma InitWebShape(a: string, r: string, e: string, t: string)
    ensures InitWebCommand(a, r, e, t) == "initWeb('" + (a + "'" + ArgumentsFrom(r, e, t))
  {
  }

  /** Behind a common prefix, a quote-free value up to its closing quote is determined. */
  lemma PeelArgument(p: string, x: string, rest: string, x': string, rest': string)
    requires NoQuote(x) && NoQuote(x')
    requires p + (x + "'" + rest) == p + (x' + "'" + rest')
    ensures x == x' && rest == rest'
  {
    StripPrefix(p, x + "'" + rest, x' + "'" + rest');
    SplitAtDelimiter(x, rest, x', rest', '\'');
  }

  /** Values without a single quote can be read back from the command: `initWeb`
      then receives exactly the four values. */
  lemma InitWebDeterminesQuoteFreeValues(a: string, r: string, e: string, t: string,
                                          a': string, r': string, e': string, t': string)
    requires NoQuote(a) && NoQuote(r) && NoQuote(e) && NoQuote(t)
    requires NoQuote(a') && NoQuote(r') && NoQuote(e') && NoQuote(t')
    requires InitWebCommand(a, r, e, t) == InitWebCommand(a', r', e', t')
    ensures a == a' && r == r' && e == e' && t == t'
  {
    var sep := ", '";
    InitWebShape(a, r, e, t);
    InitWebShape(a', r', e', t');
    PeelArgument("initWeb('", a, ArgumentsFrom(r, e, t), a', ArgumentsFrom(r', e', t'));
    var rest2, rest2' := sep + (e + "'" + (sep + (t + "'" + ", true);"))), sep + (e' + "'" + (sep + (t' + "'" + ", true);")));
    PeelArgument(sep, r, rest2, r', rest2');
    PeelArgument(sep, e, sep + (t + "'" + ", true);"), e', sep + (t' + "'" + ", true);"));
    PeelArgument(sep, t, ", true);", t', ", true);");
  }

  /** Nothing is escaped: a quote inside a value moves the argument boundaries, and
      two different value tuples give the same script. */
  lemma InitWebQuoteShiftsArguments()
    ensures InitWebCommand("x', 'y", "z", "1", "2") == InitWebCommand("x", "y', 'z", "1", "2")
  {
  }

  // ---------------------------------------------------------------------------
  // The screen's state

  /** A `UUID` stands for a number the generator hands out once. */
  type Uuid = nat

  class WebScreen {
    // MyWebView's state
    var showNavigationBars: bool
    var showErrorView: bool
    var webViewReloadTrigger: Uuid
    var stampId: Option<int>
    var showNfcButton: bool
    // the coordinator's record of the trigger last loaded
    var previousReloadTrigger: Option<Uuid>
    // the environment: UUIDs handed out so far, page loads started, scripts run
    var uuidsIssued: nat
    var loadsStarted: nat
    var scripts: seq<string>

    const urlToLoad: string
    /** Whether `URL(string: urlToLoad)` parses. */
    const urlParses: bool
    const eventId: string
    const ticketId: string

    /** Every trigger seen so far came from the generator. */
    ghost predicate Valid()
      reads this
    {
      webViewReloadTrigger < uuidsIssued &&
      (previousReloadTrigger.Some? ==> previousReloadTrigger.value < uuidsIssued)
    }

    constructor (url: string, parses: bool, event: string, ticket: string)
      ensures Valid()
      ensures urlToLoad == url && urlParses == parses && eventId == event && ticketId == ticket
      ensures !showNavigationBars && !showErrorView && !showNfcButton && stampId == None
      ensures previousReloadTrigger == None && loadsStarted == 0 && scripts == []
    {
      urlToLoad, urlParses, eventId, ticketId := url, parses, event, ticket;
      showNavigationBars, showErrorView, showNfcButton := false, false, false;
      stampId := None;
      webViewReloadTrigger, uuidsIssued := 0, 1;
      previousReloadTrigger := None;
      loadsStarted, scripts := 0, [];
    }

    /** `loadRequest`: starts a load, or reports the error when the URL does not parse. */
    method LoadRequest()
      modifies this`loadsStarted, this`showErrorView
      ensures urlParses ==> loadsStarted == old(loadsStarted) + 1 && showErrorView == old(showErrorView)
      ensures !urlParses ==> loadsStarted == old(loadsStarted) && showErrorView
    {
      if urlParses {
        loadsStarted := loadsStarted + 1;
      } else {
        showErrorView := true;
      }
    }

    /** `makeUIView` loads once without recording the trigger. */
    method MakeUIView()
      modifies this`loadsStarted, this`showErrorView
      ensures urlParses ==> loadsStarted == old(loadsStarted) + 1 && showErrorView == old(showErrorView)
      ensures !urlParses ==> showErrorView && loadsStarted == old(loadsStarted)
    {
      LoadRequest();
    }

    /** `updateUIView`: loads again only for a trigger other than the one recorded,
        records it, and re-sends the stamp while there is one. */
    method UpdateUIView()
      requires Valid()
      modifies this`loadsStarted, this`showErrorView, this`previousReloadTrigger, this`scripts
      ensures Valid()
      ensures previousReloadTrigger == Some(webViewReloadTrigger)
      ensures loadsStarted == old(loadsStarted)
                + if old(previousReloadTrigger) != Some(webViewReloadTrigger) && urlParses then 1 else 0
      ensures old(previousReloadTrigger) == Some(webViewReloadTrigger) ==> showErrorView == old(showErrorView)
      ensures old(previousReloadTrigger) != Some(webViewReloadTrigger) ==>
                showErrorView == (old(showErrorView) || !urlParses)
      ensures scripts == old(scripts) + if stampId.Some? then [NfcTaggingCommand(stampId.value)] else []
    {
      if previousReloadTrigger != Some(webViewReloadTrigger) {
        LoadRequest();
        previousReloadTrigger := Some(webViewReloadTrigger);
      }
      if stampId.Some? {
        scripts := scripts + [NfcTaggingCommand(stampId.value)];
      }
    }

    /** `reloadWebView` (the error screen's retry): hides the error and installs a
        fresh trigger, so that the next update loads the page again. */
    method ReloadWebView()
      requires Valid()
      modifies this`showErrorView, this`webViewReloadTrigger, this`uuidsIssued
      ensures Valid() && !showErrorView
      ensures previousReloadTrigger != Some(webViewReloadTrigger)
      ensures webViewReloadTrigger != old(webViewReloadTrigger)
    {
      showErrorView := false;
      webViewReloadTrigger := uuidsIssued;
      uuidsIssued := uuidsIssued + 1;
    }

    /** `handleJavaScriptMessage`: "1" and "3" show the NFC button, "2" hides it. */
    method HandleJavaScriptMessage(message: string)
      modifies this`showNfcButton
      ensures message == "1" || message == "3" ==> showNfcButton
      ensures message == "2" ==> !showNfcButton
      ensures message != "1" && message != "2" && message != "3" ==> showNfcButton == old(showNfcButton)
    {
      match message
      case "1" => showNfcButton := true;
      case "2" => showNfcButton := false;
      case "3" => showNfcButton := true;
      case _ =>
    }

    /** The script message handler: only string bodies sent to `iosHandler` count. */
    method ReceiveScriptMessage(name: string, body: Option<string>)
      modifies this`showNfcButton
      ensures name == "iosHandler" && body.Some? && (body.value == "1" || body.value == "3") ==> showNfcButton
      ensures name == "iosHandler" && body == Some("2") ==> !showNfcButton
      ensures !(name == "iosHandler" && body.Some? && body.value in {"1", "2", "3"}) ==>
                showNfcButton == old(showNfcButton)
    {
      if name == "iosHandler" && body.Some? {
        HandleJavaScriptMessage(body.value);
      }
    }

    /** `webView(_:didFinish:)`: `initWeb` with the stored tokens (empty when
        missing), then `nfcTagging` when a stamp id is present. */
    method DidFinishNavigation(d: Defaults)
      modifies this`scripts
      ensures scripts == old(scripts)
        + [InitWebCommand(StringFor(d, AccessTokenKey).GetOr(""), StringFor(d, RefreshTokenKey).GetOr(""),
                          eventId, ticketId)]
        + if stampId.Some? then [NfcTaggingCommand(stampId.value)] else []
    {
      var accessToken := StringFor(d, AccessTokenKey).GetOr("");
      var refreshToken := StringFor(d, RefreshTokenKey).GetOr("");
      scripts := scripts + [InitWebCommand(accessToken, refreshToken, eventId, ticketId)];
      if stampId.Some? {
        scripts := scripts + [NfcTaggingCommand(stampId.value)];
      }
    }

    /** A failed navigation shows the error screen. */
    method DidFailNavigation()
      modifies this`showErrorView
      ensures showErrorView
    {
      showErrorView := true;
    }

    /** The completion of a stamp tag: a received id is stored, and a change of the
        id sends `nfcTagging` to the web view when one is found on screen. */
    method OnStampTagged(received: Option<int>, webViewFound: bool)
      modifies this`stampId, this`scripts
      ensures received.Some? ==> stampId == received
      ensures received.None? ==> stampId == old(stampId)
      ensures received.Some? && received != old(stampId) && webViewFound ==>
                scripts == old(scripts) + [NfcTaggingCommand(received.value)]
      ensures !(received.Some? && received != old(stampId) && webViewFound) ==> scripts == old(scripts)
    {
      if received.Some? {
        var changed := stampId != received;
        stampId := received;
        if changed && webViewFound {
          scripts := scripts + [NfcTaggingCommand(received.value)];
        }
      }
    }

    /** The drag gesture: only the sign of the vertical translation matters. */
    method Drag(translationHeight: int)
      modifies this`showNavigationBars
      ensures translationHeight > 0 ==> showNavigationBars
      ensures translationHeight < 0 ==> !showNavigationBars
      ensures translationHeight == 0 ==> showNavigationBars == old(showNavigationBars)
    {
      if translationHeight > 0 {
        showNavigationBars := true;
      } else if translationHeight < 0 {
        showNavigationBars := false;
      }
    }
  }
}
