/** The state `NFCViewModel` keeps across a ticket tap (XIVE/UI/home/NFCViewModel.swift):
    the URL read from the tag, the event page URL and ticket id the server returns,
    and the flag that keeps a second ticket request from starting while one is open. */
module NfcModel {
  import opened Wrappers
  import opened Store
  import opened NfcTag

  /** What one call of `sendTicketData` did. */
  datatype SendOutcome =
    | Skipped              // a request was already in progress
    | MissingTokens        // no session tokens in `UserDefaults`
    | SerializationFailed  // the JSON body could not be encoded
    | Sent(body: JsonObject)

  /** The body of the `exhibition-tickets` request. */
  function TicketRequestBody(eventId: int): (body: JsonObject)
    ensures body.Keys == {"eventId"} && IntField(body, "eventId") == Some(eventId)
  {
    map["eventId" := JInt(eventId)]
  }

  class NfcViewModel {
    var urlToLoad: Option<string>
    var eventWebUrl: Option<string>
    var ticketId: Option<int>
    var isRequestInProgress: bool
    /** `UserDefaults.standard` as this object sees and writes it. */
    var defaults: Defaults
    /** Ticket requests sent whose answer has not arrived yet. */
    ghost var pendingRequests: nat

    ghost predicate Valid()
      reads this
    {
      pendingRequests <= 1 && (isRequestInProgress <==> pendingRequests == 1)
    }

    /** `init`: the event page URL saved by an earlier run is restored. */
    constructor (saved: Defaults)
      ensures Valid() && defaults == saved && pendingRequests == 0
      ensures eventWebUrl == StringFor(saved, EventWebUrlKey)
      ensures urlToLoad == None && ticketId == None && !isRequestInProgress
    {
      urlToLoad, ticketId := None, None;
      isRequestInProgress := false;
      defaults := saved;
      pendingRequests := 0;
      eventWebUrl := StringFor(saved, EventWebUrlKey);
    }

    /** Assigning `eventWebUrl`; its `didSet` saves every non-nil value. */
    method SetEventWebUrl(url: Option<string>)
      modifies this`eventWebUrl, this`defaults
      ensures eventWebUrl == url
      ensures url.Some? ==> defaults == old(defaults)[EventWebUrlKey := StringValue(url.value)]
      ensures url.None? ==> defaults == old(defaults)
      ensures StringFor(defaults, EventWebUrlKey) == if url.Some? then url else old(StringFor(defaults, EventWebUrlKey))
    {
      eventWebUrl := url;
      if url.Some? {
        defaults := defaults[EventWebUrlKey := StringValue(url.value)];
      }
    }

    /** `handleDetectedURL` and the request part of `getEventDetails`: records the URL
        and returns the `eventToken` query value sent, or `None` when the session
        tokens are missing and no request goes out. */
    method HandleDetectedUrl(url: string) returns (eventToken: Option<string>)
      modifies this`urlToLoad
      ensures urlToLoad == Some(url)
      ensures eventToken.Some? <==> Tokens(defaults).Some?
      ensures eventToken.Some? ==> eventToken.value == FormatToken(url)
      ensures StartsWithToken(url) && eventToken.Some? ==> IsToken(eventToken.value)
    {
      urlToLoad := Some(url);
      var formatted := FormatToken(url);
      if Tokens(defaults).Some? {
        eventToken := Some(formatted);
      } else {
        eventToken := None;
      }
    }

    /** `sendTicketData`: does nothing while a request is in progress; otherwise
        raises the flag, and lowers it again on every path that sends nothing. */
    method SendTicketData(eventId: int, bodyEncodes: bool) returns (outcome: SendOutcome)
      requires Valid()
      modifies this`isRequestInProgress, this`pendingRequests
      ensures Valid()
      ensures old(isRequestInProgress) ==> outcome == Skipped && isRequestInProgress
                                             && pendingRequests == old(pendingRequests)
      ensures !old(isRequestInProgress) && Tokens(defaults).None? ==>
                outcome == MissingTokens && !isRequestInProgress
      ensures !old(isRequestInProgress) && Tokens(defaults).Some? && !bodyEncodes ==>
                outcome == SerializationFailed && !isRequestInProgress
      ensures !old(isRequestInProgress) && Tokens(defaults).Some? && bodyEncodes ==>
                outcome == Sent(TicketRequestBody(eventId)) && isRequestInProgress
      ensures isRequestInProgress <==> outcome.Sent? || outcome.Skipped?
    {
      if isRequestInProgress {
        return Skipped;
      }
      isRequestInProgress := true;
      if Tokens(defaults).None? {
        isRequestInProgress := false;
        return MissingTokens;
      }
      if !bodyEncodes {
        isRequestInProgress := false;
        return SerializationFailed;
      }
      pendingRequests := 1;
      outcome := Sent(TicketRequestBody(eventId));
    }

    /** The completion handler of the ticket request: the flag is lowered whatever
        the answer (`defer`), and a JSON object's `eventWebUrl` and `ticketId` are
        taken over when they have the right type. */
    method OnTicketReply(reply: Reply)
      requires Valid() && pendingRequests == 1
      modifies this`isRequestInProgress, this`pendingRequests, this`eventWebUrl, this`ticketId, this`defaults
      ensures Valid() && !isRequestInProgress && pendingRequests == 0
      ensures reply.Body? && reply.json.Some? && StringField(reply.json.value, "eventWebUrl").Some? ==>
                eventWebUrl == StringField(reply.json.value, "eventWebUrl")
                && defaults == old(defaults)[EventWebUrlKey := StringValue(eventWebUrl.value)]
      ensures !(reply.Body? && reply.json.Some? && StringField(reply.json.value, "eventWebUrl").Some?) ==>
                eventWebUrl == old(eventWebUrl) && defaults == old(defaults)
      ensures reply.Body? && reply.json.Some? && IntField(reply.json.value, "ticketId").Some? ==>
                ticketId == IntField(reply.json.value, "ticketId")
      ensures !(reply.Body? && reply.json.Some? && IntField(reply.json.value, "ticketId").Some?) ==>
                ticketId == old(ticketId)
    {
      isRequestInProgress := false;
      pendingRequests := 0;
      if reply.Body? && reply.json.Some? {
        var o := reply.json.value;
        var url := StringField(o, "eventWebUrl");
        if url.Some? {
          SetEventWebUrl(url);
        }
        var id := IntField(o, "ticketId");
        if id.Some? {
          ticketId := id;
        }
      }
    }

    /** The completion handler of `getEventDetails`: with an integer `eventId` and a
        string `eventWebUrl` the URL is stored and the ticket is requested. */
    method OnEventDetailsReply(reply: Reply, bodyEncodes: bool) returns (outcome: Option<SendOutcome>)
      requires Valid()
      modifies this`eventWebUrl, this`defaults, this`isRequestInProgress, this`pendingRequests
      ensures Valid()
      ensures outcome.Some? <==> reply.Body? && reply.json.Some?
                                 && IntField(reply.json.value, "eventId").Some?
                                 && StringField(reply.json.value, "eventWebUrl").Some?
      ensures outcome.Some? ==> eventWebUrl == StringField(reply.json.value, "eventWebUrl")
                                && defaults == old(defaults)[EventWebUrlKey := StringValue(eventWebUrl.value)]
                                && StringFor(defaults, EventWebUrlKey) == eventWebUrl
      ensures outcome.None? ==> eventWebUrl == old(eventWebUrl) && defaults == old(defaults)
                                && isRequestInProgress == old(isRequestInProgress)
      ensures outcome == Some(Skipped) <==> outcome.Some? && old(isRequestInProgress)
      ensures outcome.Some? && !old(isRequestInProgress) && Tokens(old(defaults)).None? ==>
                outcome == Some(MissingTokens) && !isRequestInProgress
      ensures outcome.Some? && !old(isRequestInProgress) && Tokens(old(defaults)).Some? && !bodyEncodes ==>
                outcome == Some(SerializationFailed) && !isRequestInProgress
      ensures outcome.Some? && !old(isRequestInProgress) && Tokens(old(defaults)).Some? && bodyEncodes ==>
                outcome == Some(Sent(TicketRequestBody(IntField(reply.json.value, "eventId").value)))
                && isRequestInProgress
    {
      outcome := None;
      if reply.Body? && reply.json.Some? {
        var o := reply.json.value;
        var id, url := IntField(o, "eventId"), StringField(o, "eventWebUrl");
        if id.Some? && url.Some? {
          SetEventWebUrl(url);
          var sent := SendTicketData(id.value, bodyEncodes);
          outcome := Some(sent);
        }
      }
    }
  }
}
