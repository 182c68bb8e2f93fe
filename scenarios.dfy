/** Sequences of session operations and what a caller can conclude from the operations'
    contracts alone. */
module Scenarios {
  import opened Types
  import opened Handles
  import opened ResponseDrain
  import opened Session

  /** A new session's first request handle is 2 and its first monitored item handle is 1001;
      taking a monitored item handle does not disturb the request handles. */
  method FirstHandles(now: DateTime) returns (first: UInt32, monitored: UInt32, second: UInt32)
    ensures first == 2 && monitored == 1001 && second == 3
  {
    var s := new SessionState();
    var header := s.MakeRequestHeader(now);
    first := header.requestHandle;
    monitored := s.NextMonitoredItemHandle();
    header := s.MakeRequestHeader(now);
    second := header.requestHandle;
  }

  /** Headers carry the token in force when they are made and the request timeout, and
      successive headers carry successive handles. */
  method HeadersAfterActivation(token: NodeId, t1: DateTime, t2: DateTime) returns (h1: RequestHeader, h2: RequestHeader)
    ensures h1.authenticationToken == Null && h2.authenticationToken == token
    ensures h1.timeoutHint == DEFAULT_REQUEST_TIMEOUT && h2.timeoutHint == DEFAULT_REQUEST_TIMEOUT
    ensures h1.timestamp == t1 && h2.timestamp == t2
    ensures h2.requestHandle == h1.requestHandle + 1
  {
    var s := new SessionState();
    h1 := s.MakeRequestHeader(t1);
    s.authenticationToken := token;
    h2 := s.MakeRequestHeader(t2);
  }

  /** Requests queued in the order r1, r2, r3 are taken in that order, each with its async
      flag, and then the queue is empty. */
  method RequestsLeaveInOrder(r1: SupportedMessage, r2: SupportedMessage, r3: SupportedMessage,
                              a1: bool, a2: bool, a3: bool)
    returns (o1: Option<PendingRequest>, o2: Option<PendingRequest>, o3: Option<PendingRequest>,
             o4: Option<PendingRequest>)
    ensures o1 == Some((r1, a1)) && o2 == Some((r2, a2)) && o3 == Some((r3, a3))
    ensures o4 == None
  {
    var s := new SessionState();
    s.AddRequest(r1, a1);
    s.AddRequest(r2, a2);
    o1 := s.NextRequest();
    s.AddRequest(r3, a3);
    o2 := s.NextRequest();
    o3 := s.NextRequest();
    o4 := s.NextRequest();
  }

  /** Removing an in-flight entry removes exactly that (handle, flag) pair, and removing it
      again changes nothing. */
  method TimeoutRemovalIsIdempotent(handle: UInt32, isAsync: bool)
    returns (once: set<(UInt32, bool)>, twice: set<(UInt32, bool)>)
    ensures once == {(handle, !isAsync)}
    ensures twice == once
  {
    var s := new SessionState();
    s.AddPendingRequest(handle, isAsync);
    s.AddPendingRequest(handle, !isAsync);
    s.RemovePendingRequestTimeout(handle, isAsync);
    once := s.inflightRequests;
    s.RemovePendingRequestTimeout(handle, isAsync);
    twice := s.inflightRequests;
  }

  /** A request sent with a fresh header and answered is claimed once by its handle, whatever
      async flag the claim names; a second claim finds nothing. */
  method RequestRoundTrip(now: DateTime, request: MessageBody, response: MessageBody)
    returns (handle: UInt32, first: Option<SupportedMessage>, second: Option<SupportedMessage>)
    ensures handle == 2
    ensures first == Some(SupportedMessage(handle, response))
    ensures second == None
  {
    var s := new SessionState();
    var header := s.MakeRequestHeader(now);
    handle := header.requestHandle;
    s.AddRequest(SupportedMessage(handle, request), false);
    var sent := s.NextRequest();
    s.AddPendingRequest(handle, false);
    s.AddResponse(SupportedMessage(handle, response), false);
    s.RemovePendingRequestTimeout(handle, false);
    first := s.RemoveResponse(handle, true);
    second := s.RemoveResponse(handle, false);
  }

  /** A response nobody is waiting for is stored anyway and can be claimed; a later response
      for the same handle replaces it. */
  method StrayResponse(b1: MessageBody, b2: MessageBody)
    returns (taken: Option<SupportedMessage>, replaced: Option<SupportedMessage>)
    ensures taken == Some(SupportedMessage(42, b1))
    ensures replaced == Some(SupportedMessage(42, b2))
  {
    var s := new SessionState();
    s.AddResponse(SupportedMessage(42, b1), false);
    taken := s.RemoveResponse(42, false);
    s.AddResponse(SupportedMessage(42, b1), true);
    s.AddResponse(SupportedMessage(42, b2), false);
    replaced := s.RemoveResponse(42, true);
  }

  /** A new session holding async responses r5, r2, r9, r1 and the sync response r7. */
  method SessionWithResponses(r5: SupportedMessage, r2: SupportedMessage, r9: SupportedMessage,
                              r1: SupportedMessage, r7: SupportedMessage) returns (s: SessionState)
    requires r5.requestHandle == 5 && r2.requestHandle == 2 && r9.requestHandle == 9
    requires r1.requestHandle == 1 && r7.requestHandle == 7
    ensures fresh(s) && s.Valid()
    ensures s.responses == map[5 := (r5, true), 2 := (r2, true), 9 := (r9, true), 1 := (r1, true), 7 := (r7, false)]
  {
    s := new SessionState();
    s.AddResponse(r5, true);
    s.AddResponse(r2, true);
    s.AddResponse(r9, true);
    s.AddResponse(r1, true);
    s.AddResponse(r7, false);
  }

  /** Async responses for handles 5, 2, 9 and 1 drain as 1, 2, 5, 9; the sync response for 7
      stays behind, and draining again yields nothing. */
  method AsyncResponsesInHandleOrder(b5: MessageBody, b2: MessageBody, b9: MessageBody,
                                     b1: MessageBody, b7: MessageBody)
    returns (drained: seq<SupportedMessage>, again: seq<SupportedMessage>, sync: Option<SupportedMessage>)
    ensures drained == [SupportedMessage(1, b1), SupportedMessage(2, b2),
                        SupportedMessage(5, b5), SupportedMessage(9, b9)]
    ensures again == []
    ensures sync == Some(SupportedMessage(7, b7))
  {
    var r5, r2, r9, r1, r7 := SupportedMessage(5, b5), SupportedMessage(2, b2),
      SupportedMessage(9, b9), SupportedMessage(1, b1), SupportedMessage(7, b7);
    var s := SessionWithResponses(r5, r2, r9, r1, r7);
    ghost var arrived := s.responses;
    DrainOrderExample(arrived, r5, r2, r9, r1, r7);
    DrainLeavesSyncOnly(arrived);
    drained := s.AsyncResponses();
    assert 7 in s.responses && s.responses[7] == (r7, false);
    again := s.AsyncResponses();
    sync := s.RemoveResponse(7, true);
  }

  /** Acknowledgements come out in the order they were recorded, duplicates kept, and the
      accumulator is empty afterwards. */
  method AcknowledgementsDrainOnce()
    returns (first: seq<SubscriptionAcknowledgement>, second: seq<SubscriptionAcknowledgement>)
    ensures first == [SubscriptionAcknowledgement(1, 10), SubscriptionAcknowledgement(1, 11),
                      SubscriptionAcknowledgement(1, 11), SubscriptionAcknowledgement(2, 1)]
    ensures second == []
  {
    var s := new SessionState();
    s.subscriptionAcknowledgements := s.subscriptionAcknowledgements + [SubscriptionAcknowledgement(1, 10)];
    s.subscriptionAcknowledgements := s.subscriptionAcknowledgements + [SubscriptionAcknowledgement(1, 11)];
    s.subscriptionAcknowledgements := s.subscriptionAcknowledgements + [SubscriptionAcknowledgement(1, 11)];
    s.subscriptionAcknowledgements := s.subscriptionAcknowledgements + [SubscriptionAcknowledgement(2, 1)];
    first := s.SubscriptionAcknowledgements();
    second := s.SubscriptionAcknowledgements();
  }

  /** The session id last set is the one read back. */
  method SessionIdRoundTrip(a: NodeId, b: NodeId) returns (initial: NodeId, got: NodeId)
    ensures initial == Null
    ensures got == b
  {
    var s := new SessionState();
    initial := s.SessionId();
    s.SetSessionId(a);
    s.SetSessionId(b);
    got := s.SessionId();
  }
}
