/**
 * The decisions of the packet logger (netutil/packet.go): which layer the
 * decoder starts from for each capture point, and how an application
 * payload is labelled (an HTTP request line, a likely TLS ClientHello, or
 * opaque data).
 */
module PacketDump {
  import opened Wrappers
  import opened Text

  type Byte = b: nat | b < 256

  /** The layer the decoder is told the packet starts with. */
  datatype LayerType = Ethernet | IPv4 | IPv6 | Payload

  /** `string(payload)`: each byte read as the character of the same code. */
  function AsText(b: seq<Byte>): (t: string)
    ensures |t| == |b| && forall k :: 0 <= k < |b| ==> t[k] as int == b[k]
  {
    if |b| == 0 then [] else [b[0] as char] + AsText(b[1..])
  }

  const HttpPrefixes: seq<string> := ["GET ", "POST ", "HTTP/1.", "PUT ", "HEAD ", "DELETE ", "OPTIONS "]

  /** `isHTTP`: the text starts like an HTTP request or response. */
  predicate IsHTTP(text: string) {
    HasPrefix(text, "GET ") || HasPrefix(text, "POST ") || HasPrefix(text, "HTTP/1.")
    || HasPrefix(text, "PUT ") || HasPrefix(text, "HEAD ") || HasPrefix(text, "DELETE ")
    || HasPrefix(text, "OPTIONS ")
  }

  /** `isTLSClientHello`: a handshake record (0x16) whose first message is a ClientHello (0x01). */
  predicate IsTLSClientHello(b: seq<Byte>) {
    |b| > 5 && b[0] == 0x16 && b[5] == 0x01
  }

  /**
   * The decoder's first layer for a packet seen at `chain`: link-level
   * captures start at Ethernet, IP-level ones at the IP version in the
   * first byte's high nibble, anything else as raw payload.
   */
  function FirstLayer(data: seq<Byte>, chain: string): LayerType
    requires |data| > 0
  {
    if chain == "inbound-link" then Ethernet
    else if chain == "inbound" || chain == "outbound" then
      (if data[0] / 16 == 4 then IPv4 else if data[0] / 16 == 6 then IPv6 else Payload)
    else Payload
  }

  /** `DumpPacket`'s parse decision: none for an empty packet, otherwise the first layer. */
  function ParsePlan(data: seq<Byte>, chain: string): Option<LayerType> {
    if |data| == 0 then None else Some(FirstLayer(data, chain))
  }

  /** How an application payload is logged. */
  datatype AppSummary =
    | NoPayload
    | Http(requestLine: string)
    | TlsClientHello(length: nat)
    | AppData(length: nat)

  /** The text before the first newline (the first of `strings.SplitN(text, "\n", 2)`). */
  function FirstLine(text: string): string {
    match IndexOf(text, '\n')
    case Some(i) => text[..i]
    case None => text
  }

  /** The application-payload branch of `DumpPacket`: HTTP is checked before TLS. */
  function ClassifyPayload(payload: seq<Byte>): AppSummary {
    if |payload| == 0 then NoPayload
    else if IsHTTP(AsText(payload)) then Http(TrimSpace(FirstLine(AsText(payload))))
    else if IsTLSClientHello(payload) then TlsClientHello(|payload|)
    else AppData(|payload|)
  }

  // ---------------------------------------------------------------- properties

  /** An empty packet is not parsed; a non-empty one always is. */
  lemma EmptyPacketNotParsed(data: seq<Byte>, chain: string)
    ensures ParsePlan(data, chain).None? <==> |data| == 0
  {
  }

  /**
   * The first layer for each capture point: Ethernet for `inbound-link`;
   * for `inbound` and `outbound` IPv4 or IPv6 by the version nibble, raw
   * payload for any other nibble; raw payload for any other capture point.
   */
  lemma FirstLayerCases(data: seq<Byte>, chain: string)
    requires |data| > 0
    ensures chain == "inbound-link" ==> FirstLayer(data, chain) == Ethernet
    ensures chain == "inbound" || chain == "outbound" ==>
      (FirstLayer(data, chain) == IPv4 <==> 0x40 <= data[0] < 0x50)
      && (FirstLayer(data, chain) == IPv6 <==> 0x60 <= data[0] < 0x70)
      && FirstLayer(data, chain) != Ethernet
    ensures chain !in {"inbound-link", "inbound", "outbound"} ==> FirstLayer(data, chain) == Payload
  {
  }

  /** The text is HTTP exactly when it starts with one of the seven request or response prefixes. */
  lemma IsHTTPExact(text: string)
    ensures IsHTTP(text) <==> exists k :: 0 <= k < |HttpPrefixes| && HasPrefix(text, HttpPrefixes[k])
  {
    if IsHTTP(text) {
      if HasPrefix(text, "GET ") { assert HasPrefix(text, HttpPrefixes[0]); }
      else if HasPrefix(text, "POST ") { assert HasPrefix(text, HttpPrefixes[1]); }
      else if HasPrefix(text, "HTTP/1.") { assert HasPrefix(text, HttpPrefixes[2]); }
      else if HasPrefix(text, "PUT ") { assert HasPrefix(text, HttpPrefixes[3]); }
      else if HasPrefix(text, "HEAD ") { assert HasPrefix(text, HttpPrefixes[4]); }
      else if HasPrefix(text, "DELETE ") { assert HasPrefix(text, HttpPrefixes[5]); }
      else { assert HasPrefix(text, HttpPrefixes[6]); }
    }
  }

  /**
   * A ClientHello is never taken for HTTP: its first byte is 0x16, which
   * starts none of the HTTP prefixes, so a payload is labelled TLS exactly
   * when the detector says so.
   */
  lemma ClientHelloIsNotHttp(payload: seq<Byte>)
    requires IsTLSClientHello(payload)
    ensures !IsHTTP(AsText(payload))
    ensures ClassifyPayload(payload) == TlsClientHello(|payload|)
  {
    var t := AsText(payload);
    assert t[0] as int == 0x16;
    IsHTTPExact(t);
    forall k | 0 <= k < |HttpPrefixes|
      ensures !HasPrefix(t, HttpPrefixes[k])
    {
      assert HttpPrefixes[k][0] as int != 0x16;
    }
  }

  /** An HTTP payload is labelled by its first line, trimmed, which holds no newline. */
  lemma HttpRequestLine(payload: seq<Byte>)
    requires IsHTTP(AsText(payload))
    ensures ClassifyPayload(payload).Http?
    ensures '\n' !in ClassifyPayload(payload).requestLine
  {
    var line := FirstLine(AsText(payload));
    assert '\n' !in line;
    TrimSpaceIsInfix(line);
  }

  /** `TrimSpace` adds no character of its own. */
  lemma TrimSpaceIsInfix(s: string)
    ensures forall c :: c in TrimSpace(s) ==> c in s
  {
    TrimLeftKeepsChars(s);
    TrimRightKeepsChars(TrimLeftSpace(s));
  }

  lemma {:induction false} TrimLeftKeepsChars(s: string)
    ensures forall c :: c in TrimLeftSpace(s) ==> c in s
    decreases |s|
  {
    if |s| > 0 && IsSpace(s[0]) {
      TrimLeftKeepsChars(s[1..]);
      assert forall c :: c in s[1..] ==> c in s;
    }
  }

  lemma {:induction false} TrimRightKeepsChars(s: string)
    ensures forall c :: c in TrimRightSpace(s) ==> c in s
    decreases |s|
  {
    if |s| > 0 && IsSpace(s[|s| - 1]) {
      TrimRightKeepsChars(s[..|s| - 1]);
      assert forall c :: c in s[..|s| - 1] ==> c in s;
    }
  }
}
