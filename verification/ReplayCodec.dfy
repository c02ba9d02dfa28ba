/** Result values of APPLY requests, and the terminal bytes the replay table keeps for them.

    The result codec belongs to another package.  Here it is a pair of functions, so the only thing
    taken for granted about it is that it is deterministic; the round trip is a separate predicate that
    the statements which need it ask for. */
module ReplayCodec {
  import opened Wrappers

  type Bytes = seq<bv8>

  /** `MAX_NODE_CONTROL_PAYLOAD_BYTES`. */
  const MAX_TERMINAL_BYTES := 16_384

  datatype Operation = ReadState | ApplyCommand

  datatype Evidence = Applied | NoChange

  datatype Reason = InvalidCommand | PreconditionFailed

  /** What a dispatch may hand back.  `Foreign` stands for a value of any other type. */
  datatype Result =
    | Succeeded(requestId: string, version: nat, evidence: Evidence)
    | Rejected(requestId: string, operation: Operation, reason: Reason)
    | Failed(requestId: string, operation: Operation)
    | Foreign
  {
    predicate AnswersApply(id: string) {
      match this
      case Succeeded(r, _, _) => r == id
      case Rejected(r, op, _) => r == id && op == ApplyCommand
      case Failed(r, op) => r == id && op == ApplyCommand
      case Foreign => false
    }
  }

  /** `None` is an exception raised by the codec. */
  datatype Codec = Codec(encode: Result -> Option<Bytes>, decode: Bytes -> Option<Result>)

  ghost predicate RoundTrips(codec: Codec) {
    forall r: Result :: codec.encode(r).Some? ==> codec.decode(codec.encode(r).value) == Some(r)
  }

  function DecodeTerminal(bytes: Bytes, codec: Codec, requestId: string): (r: Option<Result>)
    ensures r.Some? ==> r.value.AnswersApply(requestId)
  {
    match codec.decode(bytes)
    case None => None
    case Some(r) => if r.AnswersApply(requestId) then Some(r) else None
  }

  function NormalizeTerminal(result: Result, codec: Codec, requestId: string): (b: Option<Bytes>)
    ensures b.Some? ==> DecodeTerminal(b.value, codec, requestId).Some?
    ensures b.Some? ==> 1 <= |b.value| <= MAX_TERMINAL_BYTES
  {
    if result.Foreign? then None else
    match codec.encode(result)
    case None => None
    case Some(b) =>
      if 1 <= |b| <= MAX_TERMINAL_BYTES && DecodeTerminal(b, codec, requestId).Some? then Some(b) else None
  }

  /** The closed failure every reservation can fall back to. */
  function FallbackBytes(codec: Codec, requestId: string): (b: Option<Bytes>)
    ensures b.Some? ==> DecodeTerminal(b.value, codec, requestId).Some?
  {
    NormalizeTerminal(Failed(requestId, ApplyCommand), codec, requestId)
  }

  function DecodeOrFallback(bytes: Bytes, fallback: Bytes, codec: Codec, requestId: string): (r: Option<Result>)
    ensures r.Some? ==> r.value.AnswersApply(requestId)
  {
    match DecodeTerminal(bytes, codec, requestId)
    case Some(r) => Some(r)
    case None => DecodeTerminal(fallback, codec, requestId)
  }

  /** The codec encodes the result, in a length the table can keep. */
  predicate Encodable(codec: Codec, result: Result) {
    codec.encode(result).Some? && 1 <= |codec.encode(result).value| <= 16_384
  }

  /** The results that may be stored for a request: encodable ones that are for this request and, if rejected or failed,
      of the APPLY operation.  So every success is among them, whether it changed the state or not, and every rejection,
      for either reason. */
  predicate Storable(codec: Codec, result: Result, requestId: string) {
    && Encodable(codec, result)
    && (|| (result.Succeeded? && result.requestId == requestId)
        || (result.Rejected? && result.requestId == requestId && result.operation == ApplyCommand)
        || (result.Failed? && result.requestId == requestId && result.operation == ApplyCommand))
  }

  /** With a codec that decodes what it encodes just those can be stored; each is stored as its encoding and comes back
      unchanged. */
  lemma StoredExactly(result: Result, codec: Codec, requestId: string)
    requires RoundTrips(codec)
    ensures var b := NormalizeTerminal(result, codec, requestId);
            && (b.Some? <==> Storable(codec, result, requestId))
            && (b.Some? ==> b == codec.encode(result) && DecodeTerminal(b.value, codec, requestId) == Some(result))
  {
    if codec.encode(result).Some? {
      assert codec.decode(codec.encode(result).value) == Some(result);
    }
  }

  /** A call is prepared exactly if the codec can store the closed failure of its request, and its fallback is that. */
  lemma PreparedExactly(codec: Codec, requestId: string)
    requires RoundTrips(codec)
    ensures FallbackBytes(codec, requestId) ==
            if Encodable(codec, Failed(requestId, ApplyCommand)) then codec.encode(Failed(requestId, ApplyCommand))
            else None
  {
    StoredExactly(Failed(requestId, ApplyCommand), codec, requestId);
    hide NormalizeTerminal, DecodeTerminal;
  }

  /** A call that got past its preparation always has something to answer with: its own fallback stands in for bytes
      that do not decode for it, whoever stored them. */
  lemma PreparedAlwaysDecodes(bytes: Bytes, fallback: Bytes, codec: Codec, requestId: string)
    requires FallbackBytes(codec, requestId) == Some(fallback)
    ensures DecodeOrFallback(bytes, fallback, codec, requestId).Some?
  {
    hide DecodeTerminal, NormalizeTerminal;
  }
}
