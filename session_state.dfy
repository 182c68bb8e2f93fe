/** The client session's bookkeeping: negotiated parameters, identity, the two handle
    counters, the outbound request queue, the in-flight set, the response map and the
    subscription acknowledgements still to be sent. */
module Session {
  import opened Types
  import opened Handles
  import opened RequestQueue
  import opened ResponseDrain

  const DEFAULT_SESSION_TIMEOUT: UInt32 := 60 * 1000
  const DEFAULT_REQUEST_TIMEOUT: UInt32 := 10 * 1000
  const SEND_BUFFER_SIZE: USize := 65536
  const RECEIVE_BUFFER_SIZE: USize := 65536
  const MAX_BUFFER_SIZE: USize := 65536

  /** A request waiting to be sent, with its async flag. */
  type PendingRequest = (SupportedMessage, bool)

  class SessionState {
    /** How long to wait for the response to a request, in milliseconds. */
    var requestTimeout: UInt32
    var sessionTimeout: UInt32
    var sendBufferSize: USize
    var receiveBufferSize: USize
    var maxMessageSize: USize
    var sessionId: NodeId
    var authenticationToken: NodeId
    /** Counter for request handles. */
    const requestHandle: Handle
    /** Counter for client-side monitored item handles. */
    const monitoredItemHandle: Handle
    /** Acknowledgements to send with the next publish request, oldest first. */
    var subscriptionAcknowledgements: seq<SubscriptionAcknowledgement>
    var waitForPublishResponse: bool
    /** Requests not yet sent; element 0 is the front, the newest. */
    var requests: seq<PendingRequest>
    /** Sent requests awaiting a response, by request handle and async flag. */
    var inflightRequests: set<(UInt32, bool)>
    /** Arrived responses waiting to be claimed, by request handle. */
    var responses: Responses

    ghost predicate Valid()
      reads this
    {
      && requestHandle.Valid()
      && monitoredItemHandle.Valid()
      && requestHandle != monitoredItemHandle
      && KeyedByOwnHandle(responses)
    }

    /** The fields no operation of the bookkeeping changes, apart from the one that sets them. */
    ghost function Settings(): (r: (UInt32, UInt32, USize, USize, USize, NodeId, bool))
      reads this
    {
      (requestTimeout, sessionTimeout, sendBufferSize, receiveBufferSize, maxMessageSize,
       authenticationToken, waitForPublishResponse)
    }

    /** The queued requests in the order they will be sent, oldest first. */
    ghost function PendingRequests(): (r: seq<PendingRequest>)
      reads this
    {
      PopOrder(requests)
    }

    constructor ()
      ensures Valid()
      ensures fresh(requestHandle) && fresh(monitoredItemHandle)
      ensures sessionTimeout == DEFAULT_SESSION_TIMEOUT && requestTimeout == DEFAULT_REQUEST_TIMEOUT
      ensures sendBufferSize == SEND_BUFFER_SIZE && receiveBufferSize == RECEIVE_BUFFER_SIZE
      ensures maxMessageSize == MAX_BUFFER_SIZE
      ensures requestHandle.next == 1 && monitoredItemHandle.next == 1000
      ensures sessionId == Null && authenticationToken == Null
      ensures requests == [] && inflightRequests == {} && responses == map[]
      ensures subscriptionAcknowledgements == [] && !waitForPublishResponse
    {
      sessionTimeout := DEFAULT_SESSION_TIMEOUT;
      requestTimeout := DEFAULT_REQUEST_TIMEOUT;
      sendBufferSize := SEND_BUFFER_SIZE;
      receiveBufferSize := RECEIVE_BUFFER_SIZE;
      maxMessageSize := MAX_BUFFER_SIZE;
      requestHandle := new Handle(1);
      sessionId := Null;
      authenticationToken := Null;
      monitoredItemHandle := new Handle(1000);
      requests := [];
      inflightRequests := {};
      responses := map[];
      subscriptionAcknowledgements := [];
      waitForPublishResponse := false;
    }

    method SetSessionId(id: NodeId)
      requires Valid()
      modifies this
      ensures Valid()
      ensures SessionId() == id
      ensures Settings() == old(Settings())
      ensures requests == old(requests) && inflightRequests == old(inflightRequests)
      ensures responses == old(responses)
      ensures subscriptionAcknowledgements == old(subscriptionAcknowledgements)
    {
      sessionId := id;
    }

    function SessionId(): (id: NodeId)
      reads this
    {
      sessionId
    }

    /** Hands over every acknowledgement accumulated so far, oldest first, and forgets them. */
    method SubscriptionAcknowledgements() returns (acks: seq<SubscriptionAcknowledgement>)
      requires Valid()
      modifies this
      ensures Valid()
      ensures acks == old(subscriptionAcknowledgements)
      ensures subscriptionAcknowledgements == []
      ensures Settings() == old(Settings()) && sessionId == old(sessionId)
      ensures requests == old(requests) && inflightRequests == old(inflightRequests)
      ensures responses == old(responses)
    {
      acks := subscriptionAcknowledgements;
      subscriptionAcknowledgements := [];
    }

    /** The header for the next request: the current authentication token, the given time,
        a fresh request handle, and the request timeout as the timeout hint. */
    method MakeRequestHeader(now: DateTime) returns (header: RequestHeader)
      requires Valid()
      modifies requestHandle
      ensures Valid()
      ensures header.requestHandle == NextHandle(old(requestHandle.next), U32_MAX)
      ensures header.requestHandle != 0 && header.requestHandle != old(requestHandle.next)
      ensures requestHandle.next == header.requestHandle
      ensures monitoredItemHandle.next == old(monitoredItemHandle.next)
      ensures header.authenticationToken == authenticationToken
      ensures header.timestamp == now
      ensures header.timeoutHint == requestTimeout
      ensures header.returnDiagnostics == 0
      ensures header.auditEntryId == NullString
      ensures header.additionalHeader == NullExtensionObject
    {
      var handle := requestHandle.Next();
      header := RequestHeader(
        authenticationToken := authenticationToken,
        timestamp := now,
        requestHandle := handle,
        returnDiagnostics := 0,
        auditEntryId := NullString,
        timeoutHint := requestTimeout,
        additionalHeader := NullExtensionObject);
    }

    method NextMonitoredItemHandle() returns (h: UInt32)
      requires Valid()
      modifies monitoredItemHandle
      ensures Valid()
      ensures h == NextHandle(old(monitoredItemHandle.next), U32_MAX)
      ensures h != 0 && h != old(monitoredItemHandle.next)
      ensures monitoredItemHandle.next == h
      ensures requestHandle.next == old(requestHandle.next)
    {
      h := monitoredItemHandle.Next();
    }

    /** Queues a request to be sent after every request already queued. */
    method AddRequest(request: SupportedMessage, isAsync: bool)
      requires Valid()
      modifies this
      ensures Valid()
      ensures requests == PushFront(old(requests), (request, isAsync))
      ensures PendingRequests() == old(PendingRequests()) + [(request, isAsync)]
      ensures Settings() == old(Settings()) && sessionId == old(sessionId)
      ensures inflightRequests == old(inflightRequests) && responses == old(responses)
      ensures subscriptionAcknowledgements == old(subscriptionAcknowledgements)
    {
      PopOrderPushFront(requests, (request, isAsync));
      requests := [(request, isAsync)] + requests;
    }

    /** Takes the oldest queued request, or None when nothing is queued. */
    method NextRequest() returns (r: Option<PendingRequest>)
      requires Valid()
      modifies this
      ensures Valid()
      ensures (r, requests) == PopBack(old(requests))
      ensures old(PendingRequests()) == [] ==> r == None && PendingRequests() == []
      ensures old(PendingRequests()) != [] ==>
                r == Some(old(PendingRequests())[0]) && PendingRequests() == old(PendingRequests())[1..]
      ensures Settings() == old(Settings()) && sessionId == old(sessionId)
      ensures inflightRequests == old(inflightRequests) && responses == old(responses)
      ensures subscriptionAcknowledgements == old(subscriptionAcknowledgements)
    {
      if |requests| == 0 {
        r := None;
      } else {
        PopBackIsOldest(requests);
        r := Some(requests[|requests| - 1]);
        requests := requests[..|requests| - 1];
      }
    }

    /** Records that the request with this handle and async flag has been sent. */
    method AddPendingRequest(handle: UInt32, isAsync: bool)
      requires Valid()
      modifies this
      ensures Valid()
      ensures inflightRequests == old(inflightRequests) + {(handle, isAsync)}
      ensures Settings() == old(Settings()) && sessionId == old(sessionId)
      ensures requests == old(requests) && responses == old(responses)
      ensures subscriptionAcknowledgements == old(subscriptionAcknowledgements)
    {
      inflightRequests := inflightRequests + {(handle, isAsync)};
    }

    /** Forgets the in-flight entry for this handle and async flag, if there is one. */
    method RemovePendingRequestTimeout(handle: UInt32, isAsync: bool)
      requires Valid()
      modifies this
      ensures Valid()
      ensures inflightRequests == old(inflightRequests) - {(handle, isAsync)}
      ensures (handle, isAsync) !in inflightRequests
      ensures Settings() == old(Settings()) && sessionId == old(sessionId)
      ensures requests == old(requests) && responses == old(responses)
      ensures subscriptionAcknowledgements == old(subscriptionAcknowledgements)
    {
      inflightRequests := inflightRequests - {(handle, isAsync)};
    }

    /** Stores a response under the request handle it carries, replacing any earlier one,
        whether or not a request with that handle is in flight. */
    method AddResponse(response: SupportedMessage, isAsync: bool)
      requires Valid()
      modifies this
      ensures Valid()
      ensures responses == old(responses)[response.requestHandle := (response, isAsync)]
      ensures Settings() == old(Settings()) && sessionId == old(sessionId)
      ensures requests == old(requests) && inflightRequests == old(inflightRequests)
      ensures subscriptionAcknowledgements == old(subscriptionAcknowledgements)
    {
      responses := responses[response.requestHandle := (response, isAsync)];
    }

    /** Takes every async response, smallest request handle first, leaving the sync ones. */
    method AsyncResponses() returns (msgs: seq<SupportedMessage>)
      requires Valid()
      modifies this
      ensures Valid()
      ensures msgs == AsyncDrain(old(responses))
      ensures responses == old(responses) - AsyncHandles(old(responses))
      ensures Settings() == old(Settings()) && sessionId == old(sessionId)
      ensures requests == old(requests) && inflightRequests == old(inflightRequests)
      ensures subscriptionAcknowledgements == old(subscriptionAcknowledgements)
    {
      ghost var arrived := responses;
      var asyncHandles := CollectAsyncHandles(responses);
      // Oldest to latest, unless the handles have wrapped.
      asyncHandles := Sort(asyncHandles);
      DrainBySortedHandles(arrived, asyncHandles);
      // Remove each one from the map and hand it to the caller.
      var rest;
      msgs, rest := TakeInOrder(responses, asyncHandles);
      RestIsSync(arrived, asyncHandles, rest);
      responses := rest;
    }

    /** Takes the response for this handle, whatever the async flag, or None if none has arrived. */
    method RemoveResponse(handle: UInt32, isAsync: bool) returns (r: Option<SupportedMessage>)
      requires Valid()
      modifies this
      ensures Valid()
      ensures handle in old(responses) ==> r == Some(old(responses)[handle].0)
      ensures handle !in old(responses) ==> r == None
      ensures r.Some? ==> r.value.requestHandle == handle
      ensures responses == old(responses) - {handle}
      ensures Settings() == old(Settings()) && sessionId == old(sessionId)
      ensures requests == old(requests) && inflightRequests == old(inflightRequests)
      ensures subscriptionAcknowledgements == old(subscriptionAcknowledgements)
    {
      if handle in responses {
        var response := responses[handle];
        responses := responses - {handle};
        r := Some(response.0);
      } else {
        r := None;
      }
    }
  }
}
