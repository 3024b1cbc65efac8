/**
common/protocol.py: length-prefixed frames over a byte stream that delivers any non-empty
chunk no longer than asked, and the envelope every message is wrapped in.
*/
module Framing {
  import opened Wrappers
  import opened JsonText
  import opened CanonicalJson
  import Utf8

  type byte = Utf8.byte

  const HEADER_BYTES := 4
  const MAX_MESSAGE_BYTES := 64 * 1024 * 1024
  const HEADER_LIMIT := 0x1_0000_0000

  datatype Fault = ProtocolFault | ValueFault | TypeFault

  // ---------- The length header: a 4-byte big-endian unsigned integer ----------

  function PackLength(n: nat): (h: seq<byte>)
    requires n < HEADER_LIMIT
    ensures |h| == HEADER_BYTES
  {
    [(n / 0x100_0000) as byte, (n / 0x1_0000 % 0x100) as byte, (n / 0x100 % 0x100) as byte, (n % 0x100) as byte]
  }

  function UnpackLength(h: seq<byte>): nat
    requires |h| == HEADER_BYTES
  {
    0x100_0000 * (h[0] as int) + 0x1_0000 * (h[1] as int) + 0x100 * (h[2] as int) + h[3] as int
  }

  lemma LengthDigits(n: nat)
    ensures n == 0x100_0000 * (n / 0x100_0000) + 0x1_0000 * (n / 0x1_0000 % 0x100) + 0x100 * (n / 0x100 % 0x100) + n % 0x100
  {
    assert n / 0x1_0000 == 0x100 * (n / 0x100_0000) + n / 0x1_0000 % 0x100;
    assert n / 0x100 == 0x100 * (n / 0x1_0000) + n / 0x100 % 0x100;
  }

  lemma LengthRoundTrip(n: nat)
    requires n < HEADER_LIMIT
    ensures UnpackLength(PackLength(n)) == n
  {
    LengthDigits(n);
  }

  // ---------- The JSON body ----------

  /** json.dumps with its default ensure_ascii. */
  function Dumps(msg: Json): seq<byte> {
    Utf8.Encode(Print(msg, true))
  }

  /** What a decoder has to do: read back every dict that Dumps writes. What it does with other
      bytes is its own affair. */
  ghost predicate ReadsBack(loads: seq<byte> -> Option<Json>) {
    forall msg: Json :: msg.Obj? && WellFormed(msg) ==> loads(Dumps(msg)) == Some(msg)
  }

  function ParseAll(body: seq<byte>): Option<Json> {
    match Utf8.Decode(body)
    case None => None
    case Some(text) => match Parse(text)
      case Parsed(j, rest) => if rest == "" then Some(j) else None
      case Fails => None
  }

  lemma ParserReadsBack()
    ensures ReadsBack(ParseAll)
  {
    forall msg: Json
      ensures ParseAll(Dumps(msg)) == Some(msg)
    {
      Utf8.DecodeUndoesEncode(Print(msg, true));
      ParsePrints(msg, "", true);
      assert Print(msg, true) + "" == Print(msg, true);
    }
  }

  /** pack_message. */
  function PackMessage(msg: Json): Result<seq<byte>, Fault> {
    if !msg.Obj? then Err(TypeFault)
    else if |Dumps(msg)| > MAX_MESSAGE_BYTES then Err(ProtocolFault)
    else Ok(PackLength(|Dumps(msg)|) + Dumps(msg))
  }

  // ---------- What a reader makes of a byte string ----------

  /** The outcome of one recv_message on the bytes that will arrive before the peer closes, and
      the bytes it leaves unread. */
  function NextMessage(loads: seq<byte> -> Option<Json>, bytes: seq<byte>): (out: (Result<Json, Fault>, seq<byte>))
    ensures |out.1| <= |bytes| && (out.0.Ok? ==> |out.1| + HEADER_BYTES <= |bytes|)
  {
    if |bytes| < HEADER_BYTES then (Err(ProtocolFault), [])
    else
      var length, rest := UnpackLength(bytes[..HEADER_BYTES]), bytes[HEADER_BYTES..];
      if length > MAX_MESSAGE_BYTES then (Err(ProtocolFault), rest)
      else if |rest| < length then (Err(ProtocolFault), [])
      else
        match loads(rest[..length])
        case Some(Obj(members)) => (Ok(Obj(members)), rest[length..])
        case _ => (Err(ProtocolFault), rest[length..])
  }

  /** recv_message until it fails, as the connection loop calls it. */
  function Messages(loads: seq<byte> -> Option<Json>, bytes: seq<byte>): (seq<Json>, Fault, seq<byte>)
    decreases |bytes|
  {
    match NextMessage(loads, bytes)
    case (Err(fault), rest) => ([], fault, rest)
    case (Ok(msg), rest) =>
      var (later, fault, left) := Messages(loads, rest);
      ([msg] + later, fault, left)
  }

  // ---------- The procedures on a socket ----------

  class Stream {
    var incoming: seq<byte>

    constructor (incoming: seq<byte>)
      ensures this.incoming == incoming
    {
      this.incoming := incoming;
    }

    /** sock.recv: some of the next bytes, at most n; nothing at all only when the peer has closed. */
    method Recv(n: nat) returns (chunk: seq<byte>)
      requires n > 0
      modifies this
      ensures |chunk| <= n && (chunk == [] <==> old(incoming) == [])
      ensures old(incoming) == chunk + incoming
    {
      if incoming == [] {
        return [];
      }
      var k :| 0 < k <= n && k <= |incoming|;
      chunk, incoming := incoming[..k], incoming[k..];
    }

    method RecvAll(n: int) returns (r: Result<seq<byte>, Fault>)
      modifies this
      ensures n < 0 ==> r == Err(ValueFault) && incoming == old(incoming)
      ensures 0 <= n <= |old(incoming)| ==> r == Ok(old(incoming)[..n]) && incoming == old(incoming)[n..]
      ensures n > |old(incoming)| ==> r == Err(ProtocolFault) && incoming == []
    {
      if n < 0 {
        return Err(ValueFault);
      }
      var buf := [];
      while |buf| < n
        invariant |buf| <= n && old(incoming) == buf + incoming
        decreases n - |buf|
      {
        var chunk := Recv(n - |buf|);
        if chunk == [] {
          return Err(ProtocolFault);
        }
        buf := buf + chunk;
      }
      return Ok(buf);
    }

    method RecvMessage(loads: seq<byte> -> Option<Json>) returns (r: Result<Json, Fault>)
      modifies this
      ensures (r, incoming) == NextMessage(loads, old(incoming))
    {
      var header := RecvAll(HEADER_BYTES);
      if header.Err? {
        return Err(header.error);
      }
      var length := UnpackLength(header.value);
      if length > MAX_MESSAGE_BYTES {
        return Err(ProtocolFault);
      }
      var body := RecvAll(length);
      if body.Err? {
        return Err(body.error);
      }
      var obj := loads(body.value);
      match obj {
        case Some(Obj(members)) => return Ok(Obj(members));
        case _ => return Err(ProtocolFault);
      }
    }

    method RecvMessages(loads: seq<byte> -> Option<Json>) returns (msgs: seq<Json>, fault: Fault)
      modifies this
      ensures (msgs, fault, incoming) == Messages(loads, old(incoming))
    {
      msgs := [];
      assert msgs + Messages(loads, incoming).0 == Messages(loads, incoming).0;
      while true
        invariant Messages(loads, old(incoming))
               == (msgs + Messages(loads, incoming).0, Messages(loads, incoming).1, Messages(loads, incoming).2)
        decreases |incoming|
      {
        ghost var before := incoming;
        var r := RecvMessage(loads);
        if r.Err? {
          assert msgs + [] == msgs;
          return msgs, r.error;
        }
        assert msgs + ([r.value] + Messages(loads, incoming).0) == msgs + [r.value] + Messages(loads, incoming).0;
        msgs := msgs + [r.value];
      }
    }
  }

  // ---------- Round trip ----------

  /** A dict that pack_message accepts. */
  predicate Sendable(msg: Json) {
    msg.Obj? && WellFormed(msg) && |Dumps(msg)| <= MAX_MESSAGE_BYTES
  }

  predicate AllSendable(msgs: seq<Json>) {
    forall m | m in msgs :: Sendable(m)
  }

  function Frame(msg: Json): seq<byte>
    requires Sendable(msg)
  {
    PackMessage(msg).value
  }

  function Wire(msgs: seq<Json>): seq<byte>
    requires AllSendable(msgs)
  {
    if msgs == [] then [] else Frame(msgs[0]) + Wire(msgs[1..])
  }

  /** The bytes of one frame: a big-endian length and a body of that length. */
  predicate IsFrame(bytes: seq<byte>, body: seq<byte>, after: seq<byte>) {
    |body| <= 64 * 1024 * 1024 && bytes == PackLength(|body|) + body + after
  }

  lemma FrameIsReceived(loads: seq<byte> -> Option<Json>, bytes: seq<byte>, body: seq<byte>, msg: Json, after: seq<byte>)
    requires IsFrame(bytes, body, after) && loads(body) == Some(msg) && msg.Obj?
    ensures NextMessage(loads, bytes) == (Ok(msg), after)
  {
    LengthRoundTrip(|body|);
    hide PackLength, UnpackLength;
    assert bytes[..HEADER_BYTES] == PackLength(|body|);
    assert bytes[HEADER_BYTES..] == body + after;
    assert (body + after)[..|body|] == body && (body + after)[|body|..] == after;
  }

  /** One message is read back exactly, whatever follows it, and not one byte more. */
  lemma NoOverRead(loads: seq<byte> -> Option<Json>, msg: Json, after: seq<byte>)
    requires ReadsBack(loads) && Sendable(msg)
    ensures NextMessage(loads, Frame(msg) + after) == (Ok(msg), after)
  {
    hide PackLength, Dumps, NextMessage;
    FrameIsReceived(loads, Frame(msg) + after, Dumps(msg), msg, after);
  }

  /** A frame cut anywhere is no message. */
  lemma CutFrame(loads: seq<byte> -> Option<Json>, msg: Json, k: nat)
    requires Sendable(msg) && k < |Frame(msg)|
    ensures NextMessage(loads, Frame(msg)[..k]) == (Err(ProtocolFault), [])
  {
    var body, bytes := Dumps(msg), Frame(msg)[..k];
    LengthRoundTrip(|body|);
    hide Dumps, PackLength, UnpackLength, WellFormed;
    if k >= HEADER_BYTES {
      assert bytes[..HEADER_BYTES] == PackLength(|body|);
    }
  }

  lemma HeaderRoundTrip(h: seq<byte>)
    requires |h| == HEADER_BYTES
    ensures UnpackLength(h) < HEADER_LIMIT && PackLength(UnpackLength(h)) == h
  {
    var n := UnpackLength(h);
    var low := 0x1_0000 * (h[1] as int) + 0x100 * (h[2] as int) + h[3] as int;
    assert n == 0x100_0000 * (h[0] as int) + low && 0 <= low < 0x100_0000;
    assert n / 0x100_0000 == h[0] as int;
    assert n / 0x1_0000 == 0x100 * (h[0] as int) + h[1] as int;
    assert n / 0x100 == 0x100 * (0x100 * (h[0] as int) + h[1] as int) + h[2] as int;
  }

  /** A message is received exactly when the stream begins with a frame of at most 64 MiB whose body
      reads as that dict; every other stream is a protocol error. */
  lemma ReceivedIffFramed(loads: seq<byte> -> Option<Json>, bytes: seq<byte>, msg: Json, after: seq<byte>)
    ensures NextMessage(loads, bytes) == (Ok(msg), after) <==>
            exists body :: IsFrame(bytes, body, after) && loads(body) == Some(msg) && msg.Obj?
    ensures NextMessage(loads, bytes).0.Err? ==> NextMessage(loads, bytes).0.error == ProtocolFault
  {
    hide PackLength, UnpackLength;
    if NextMessage(loads, bytes) == (Ok(msg), after) {
      var h, rest := bytes[..HEADER_BYTES], bytes[HEADER_BYTES..];
      var body := rest[..UnpackLength(h)];
      HeaderRoundTrip(h);
      assert bytes == h + body + after;
      assert IsFrame(bytes, body, after);
    }
    if body :| IsFrame(bytes, body, after) && loads(body) == Some(msg) && msg.Obj? {
      FrameIsReceived(loads, bytes, body, msg, after);
    }
  }

  /** pack_message refuses what is not a dict and what is over 64 MiB, and frames everything else. */
  lemma PackedIffSmall(msg: Json)
    ensures match PackMessage(msg)
            case Ok(bytes) => msg.Obj? && IsFrame(bytes, Dumps(msg), [])
            case Err(TypeFault) => !msg.Obj?
            case Err(ProtocolFault) => msg.Obj? && |Dumps(msg)| > 64 * 1024 * 1024
            case Err(ValueFault) => false
  {
    hide Dumps, PackLength;
    if PackMessage(msg).Ok? {
      assert PackLength(|Dumps(msg)|) + Dumps(msg) + [] == PackLength(|Dumps(msg)|) + Dumps(msg);
    }
  }

  /** How many whole frames fit in the first k bytes. */
  function Complete(msgs: seq<Json>, k: nat): (n: nat)
    requires AllSendable(msgs)
    ensures n <= |msgs|
  {
    if msgs == [] || k < |Frame(msgs[0])| then 0 else 1 + Complete(msgs[1..], k - |Frame(msgs[0])|)
  }

  /** A stream of frames cut after any k bytes, in chunks of any sizes, yields exactly the messages
      whose frames are whole, and then a protocol error with nothing left. */
  lemma {:induction false} CutStream(loads: seq<byte> -> Option<Json>, msgs: seq<Json>, k: nat)
    requires ReadsBack(loads) && AllSendable(msgs) && k <= |Wire(msgs)|
    ensures Messages(loads, Wire(msgs)[..k]) == (msgs[..Complete(msgs, k)], ProtocolFault, [])
  {
    hide Sendable, Frame, NextMessage, ReadsBack;
    if msgs == [] {
      EmptyStream(loads);
      assert Wire(msgs)[..k] == [];
    } else {
      var first := Frame(msgs[0]);
      if k < |first| {
        assert Wire(msgs)[..k] == first[..k];
        CutFrame(loads, msgs[0], k);
      } else {
        var later := Wire(msgs[1..])[..k - |first|];
        assert Wire(msgs)[..k] == first + later;
        NoOverRead(loads, msgs[0], later);
        CutStream(loads, msgs[1..], k - |first|);
        var n := Complete(msgs[1..], k - |first|);
        assert [msgs[0]] + msgs[1..][..n] == msgs[..n + 1];
      }
    }
  }

  lemma EmptyStream(loads: seq<byte> -> Option<Json>)
    ensures NextMessage(loads, []) == (Err(ProtocolFault), [])
  {
  }

  lemma {:induction false} AllComplete(msgs: seq<Json>)
    requires AllSendable(msgs)
    ensures Complete(msgs, |Wire(msgs)|) == |msgs|
  {
    if msgs != [] {
      AllComplete(msgs[1..]);
    }
  }

  lemma WireRoundTrip(loads: seq<byte> -> Option<Json>, msgs: seq<Json>)
    requires ReadsBack(loads) && AllSendable(msgs)
    ensures Messages(loads, Wire(msgs)) == (msgs, ProtocolFault, [])
  {
    CutStream(loads, msgs, |Wire(msgs)|);
    AllComplete(msgs);
    assert Wire(msgs)[..|Wire(msgs)|] == Wire(msgs) && msgs[..|msgs|] == msgs;
  }

  // ---------- Envelopes ----------

  const PROTOCOL_VERSION := 1
  const ENVELOPE_NONCE_BYTES := 16

  const MESSAGE_TYPES: set<string> := {
    "HELLO", "KEY_EXCHANGE", "AUTH_CHALLENGE", "AUTH_RESPONSE", "SESSION_OK", "GET_PUBKEY", "PUBKEY_RESPONSE",
    "UPLOAD_REQUEST", "UPLOAD_ACK", "LIST_PENDING", "PENDING_LIST", "DOWNLOAD_REQUEST", "DOWNLOAD_RESPONSE",
    "DOWNLOAD_ACK", "ACK_OK", "REVOKE_REQUEST", "REVOKE_ACK", "ERROR"
  }

  function EnvelopeMembers(msgType: string, nonce: string, timestamp: int, requestId: string, payload: Json): seq<Member> {
    [Member("type", Str(msgType)), Member("version", Int(PROTOCOL_VERSION)), Member("nonce", Str(nonce)),
     Member("timestamp", Int(timestamp)), Member("request_id", Str(requestId)), Member("payload", payload)]
  }

  /** make_envelope, given the base64 nonce, the clock reading and the request id it draws. */
  function MakeEnvelope(msgType: string, payload: Json, nonce: string, timestamp: int, requestId: string): Result<Json, Fault> {
    if msgType !in MESSAGE_TYPES then Err(ProtocolFault)
    else if !payload.Obj? then Err(TypeFault)
    else Ok(Obj(EnvelopeMembers(msgType, nonce, timestamp, requestId, payload)))
  }

  /** validate_envelope. True equals 1 and is an integer; a list or dict as type cannot be hashed. */
  function ValidateEnvelope(msg: Json, base64: string -> Option<seq<byte>>): Result<Json, Fault> {
    if !msg.Obj? then Err(ProtocolFault)
    else
      var f := Fields(msg.members);
      if "type" !in f || "version" !in f || "nonce" !in f || "timestamp" !in f || "request_id" !in f || "payload" !in f
      then Err(ProtocolFault)
      else if f["version"] != IntValue(PROTOCOL_VERSION) && f["version"] != BoolValue(true) then Err(ProtocolFault)
      else if f["type"].ListValue? || f["type"].DictValue? then Err(TypeFault)
      else if !f["type"].StrValue? || f["type"].s !in MESSAGE_TYPES then Err(ProtocolFault)
      else if !f["payload"].DictValue? || !f["nonce"].StrValue? then Err(ProtocolFault)
      else match base64(f["nonce"].s)
        case None => Err(ProtocolFault)
        case Some(nonce) =>
          if |nonce| != ENVELOPE_NONCE_BYTES || !(f["timestamp"].IntValue? || f["timestamp"].BoolValue?)
          then Err(ProtocolFault) else Ok(msg)
  }

  lemma EnvelopeIsWellFormed(msgType: string, nonce: string, timestamp: int, requestId: string, payload: Json)
    requires WellFormed(payload)
    ensures WellFormedMembers(EnvelopeMembers(msgType, nonce, timestamp, requestId, payload))
  {
    hide WellFormedMembers, Fields;
    var ms := EnvelopeMembers(msgType, nonce, timestamp, requestId, payload);
    EnvelopeKeysDiffer(msgType, nonce, timestamp, requestId, payload);
    DistinctIsWellFormed(ms);
  }

  lemma EnvelopeFields(msgType: string, nonce: string, timestamp: int, requestId: string, payload: Json)
    ensures var f := Fields(EnvelopeMembers(msgType, nonce, timestamp, requestId, payload));
            && "type" in f && f["type"] == StrValue(msgType)
            && "version" in f && f["version"] == IntValue(PROTOCOL_VERSION)
            && "nonce" in f && f["nonce"] == StrValue(nonce)
            && "timestamp" in f && f["timestamp"] == IntValue(timestamp)
            && "request_id" in f && f["request_id"] == StrValue(requestId)
            && "payload" in f && f["payload"] == Meaning(payload)
  {
    hide Fields;
    var ms := EnvelopeMembers(msgType, nonce, timestamp, requestId, payload);
    EnvelopeKeysDiffer(msgType, nonce, timestamp, requestId, payload);
    FieldAtDistinct(ms, 0);
    FieldAtDistinct(ms, 1);
    FieldAtDistinct(ms, 2);
    FieldAtDistinct(ms, 3);
    FieldAtDistinct(ms, 4);
    FieldAtDistinct(ms, 5);
  }

  lemma EnvelopeKeysDiffer(msgType: string, nonce: string, timestamp: int, requestId: string, payload: Json)
    ensures var ms := EnvelopeMembers(msgType, nonce, timestamp, requestId, payload);
            forall i, j | 0 <= i < j < |ms| :: ms[i].key != ms[j].key
  {
    var ms := EnvelopeMembers(msgType, nonce, timestamp, requestId, payload);
    assert |ms[0].key| == 4 && |ms[1].key| == 7 && |ms[2].key| == 5;
    assert |ms[3].key| == 9 && |ms[4].key| == 10 && |ms[5].key| == 7 && ms[1].key[0] != ms[5].key[0];
  }

  // ---------- Which envelopes are valid ----------

  const ENVELOPE_KEYS: set<string> := {"type", "version", "nonce", "timestamp", "request_id", "payload"}

  /** msg carries under each of the six keys what the made envelope carries there: any request id, true
      in place of version 1, and a boolean in place of the timestamp pass as well. */
  ghost predicate Carries(msg: Json, made: Json)
    requires msg.Obj? && made.Obj?
  {
    var f, g := Fields(msg.members), Fields(made.members);
    && ENVELOPE_KEYS <= f.Keys && ENVELOPE_KEYS <= g.Keys
    && f["type"] == g["type"] && f["nonce"] == g["nonce"] && f["payload"] == g["payload"]
    && (f["version"] == g["version"] || f["version"] == BoolValue(true))
    && (f["timestamp"] == g["timestamp"] || f["timestamp"].BoolValue?)
  }

  ghost predicate CouldBeMade(msg: Json, base64: string -> Option<seq<byte>>, msgType: string, nonce: string, timestamp: int,
                              requestId: string, payload: Json) {
    var made := MakeEnvelope(msgType, payload, nonce, timestamp, requestId);
    && msg.Obj? && made.Ok? && made.value.Obj? && Carries(msg, made.value)
    && base64(nonce).Some? && |base64(nonce).value| == ENVELOPE_NONCE_BYTES
  }

  lemma MadeMembers(msg: Json, base64: string -> Option<seq<byte>>, msgType: string, nonce: string, timestamp: int,
                    requestId: string, payload: Json)
    ensures CouldBeMade(msg, base64, msgType, nonce, timestamp, requestId, payload) <==>
            && msg.Obj?
            && var f := Fields(msg.members);
               && msgType in MESSAGE_TYPES && payload.Obj?
               && base64(nonce).Some? && |base64(nonce).value| == 16
               && ENVELOPE_KEYS <= f.Keys
               && f["type"] == StrValue(msgType) && f["nonce"] == StrValue(nonce) && f["payload"] == Meaning(payload)
               && (f["version"] == IntValue(1) || f["version"] == BoolValue(true))
               && (f["timestamp"] == IntValue(timestamp) || f["timestamp"].BoolValue?)
  {
    EnvelopeFields(msgType, nonce, timestamp, requestId, payload);
    hide Fields, EnvelopeMembers, MESSAGE_TYPES;
  }

  /** A received value validates exactly when it could have been made by make_envelope, and then it is
      handed on unchanged. */
  lemma ValidIffMade(msg: Json, base64: string -> Option<seq<byte>>)
    ensures ValidateEnvelope(msg, base64).Ok? <==>
            exists msgType, nonce, timestamp, requestId, payload ::
              CouldBeMade(msg, base64, msgType, nonce, timestamp, requestId, payload)
    ensures ValidateEnvelope(msg, base64).Ok? ==> ValidateEnvelope(msg, base64) == Ok(msg)
  {
    hide Fields, MESSAGE_TYPES, CouldBeMade;
    if ValidateEnvelope(msg, base64).Ok? {
      var f := Fields(msg.members);
      var i := FieldFrom(msg.members, "payload");
      var timestamp := if f["timestamp"].IntValue? then f["timestamp"].n else 0;
      MadeMembers(msg, base64, f["type"].s, f["nonce"].s, timestamp, "", msg.members[i].value);
    }
    if msgType, nonce, timestamp, requestId, payload :| CouldBeMade(msg, base64, msgType, nonce, timestamp, requestId, payload) {
      MadeMembers(msg, base64, msgType, nonce, timestamp, requestId, payload);
    }
  }

  /** Each single defect is refused, whatever else the message holds. */
  lemma DefectsAreRefused(msg: Json, base64: string -> Option<seq<byte>>)
    requires msg.Obj?
    ensures var f, outcome := Fields(msg.members), ValidateEnvelope(msg, base64);
            && (forall key | key in ENVELOPE_KEYS && key !in f :: outcome == Err(ProtocolFault))
            && (ENVELOPE_KEYS <= f.Keys ==>
                  && (f["version"] != IntValue(1) && f["version"] != BoolValue(true) ==> outcome == Err(ProtocolFault))
                  && (!(f["type"].StrValue? && f["type"].s in MESSAGE_TYPES) ==> outcome.Err?)
                  && (!f["payload"].DictValue? ==> outcome.Err?)
                  && (!f["timestamp"].IntValue? && !f["timestamp"].BoolValue? ==> outcome.Err?)
                  && (!f["nonce"].StrValue? ==> outcome.Err?)
                  && (f["nonce"].StrValue? && base64(f["nonce"].s).None? ==> outcome.Err?)
                  && (f["nonce"].StrValue? && base64(f["nonce"].s).Some? && |base64(f["nonce"].s).value| != 16 ==> outcome.Err?)
                  && (outcome == Err(TypeFault) <==>
                        && (f["version"] == IntValue(1) || f["version"] == BoolValue(true))
                        && (f["type"].ListValue? || f["type"].DictValue?)))
  {
    hide Fields, MESSAGE_TYPES;
  }

  /** An envelope built by one side and framed is read by the other side, over any chunking, as
      the same dict, and validates there. */
  lemma EnvelopeSurvivesTheWire(loads: seq<byte> -> Option<Json>, base64: string -> Option<seq<byte>>, msgType: string,
                                payload: Json, nonce: string, timestamp: int, requestId: string, after: seq<byte>)
    requires ReadsBack(loads) && msgType in MESSAGE_TYPES && payload.Obj? && WellFormed(payload)
    requires base64(nonce).Some? && |base64(nonce).value| == ENVELOPE_NONCE_BYTES
    requires var made := MakeEnvelope(msgType, payload, nonce, timestamp, requestId); PackMessage(made.value).Ok?
    ensures var made := MakeEnvelope(msgType, payload, nonce, timestamp, requestId).value;
            && NextMessage(loads, PackMessage(made).value + after) == (Ok(made), after)
            && ValidateEnvelope(made, base64) == Ok(made)
  {
    EnvelopeIsWellFormed(msgType, nonce, timestamp, requestId, payload);
    EnvelopeFields(msgType, nonce, timestamp, requestId, payload);
    var made := MakeEnvelope(msgType, payload, nonce, timestamp, requestId).value;
    hide Fields, Dumps, NextMessage, EnvelopeMembers, PackLength;
    NoOverRead(loads, made, after);
  }
}
