/** Values the session bookkeeping handles without looking inside them:
    identifiers, timestamps, messages and the request header it builds. */
module Types {

  const U32_MAX: int := 0xFFFF_FFFF

  /** An unsigned 32-bit integer (the protocol's UInt32). */
  type UInt32 = x: int | 0 <= x <= U32_MAX

  /** An unsigned machine-word size (Rust's usize); only its value is used here. */
  type USize = nat

  datatype Option<T> = None | Some(value: T)

  /** The identifier part of a node id (numeric, string, GUID or opaque bytes), not interpreted here. */
  type NodeIdentifier(==)

  /** A node id. `Null` stands for the well-known null node id (namespace 0, numeric 0)
      that the session uses for "not yet assigned". */
  datatype NodeId = Null | NodeId(namespace: nat, identifier: NodeIdentifier)

  /** The wall-clock time stamped on a request header; its value comes from outside the model. */
  type DateTime(==)

  /** A string that may be null; a request header's audit entry id is the null string. */
  datatype UAString = NullString | Text(value: string)

  /** An extension object; a request header's additional header is the null one. */
  datatype ExtensionObject = NullExtensionObject | Encoded(typeId: NodeId, body: seq<bv8>)

  /** The contents of a request or response, not interpreted here. */
  type MessageBody(==)

  /** A request or response message. The session only ever asks a message for the
      request handle carried in its header. */
  datatype SupportedMessage = SupportedMessage(requestHandle: UInt32, body: MessageBody)

  /** Acknowledgement of one notification of one subscription. */
  datatype SubscriptionAcknowledgement =
    SubscriptionAcknowledgement(subscriptionId: UInt32, sequenceNumber: UInt32)

  /** The header every request carries. */
  datatype RequestHeader = RequestHeader(
    authenticationToken: NodeId,
    timestamp: DateTime,
    requestHandle: UInt32,
    returnDiagnostics: UInt32,
    auditEntryId: UAString,
    timeoutHint: UInt32,
    additionalHeader: ExtensionObject)
}
