/**
 * Decoding of ANSI/VITA 49.0 IF-data packets as the DAXIQ receiver does it
 * (`flexclient/vita.py`, `VITAReceiver._unpack`; the legacy copy in
 * `flex_client.py` is the same text). The layout the decoder reads: the
 * header word, the stream identifier, an optional class identifier, optional
 * integer and fractional timestamps, the payload and an optional trailer.
 */
module Vita {
  import opened Base
  import opened Wire
  import opened Models

  /** The fields of the first, big-endian header word. Bits 25-24 are not read. */
  datatype Header = Header(
    packetType: bv4,   // bits 31-28
    hasClassId: bool,  // bit 27
    hasTrailer: bool,  // bit 26
    tsi: bv2,          // bits 23-22, integer-timestamp type
    tsf: bv2,          // bits 21-20, fractional-timestamp type
    sequence: bv4,     // bits 19-16, packet count modulo 16
    sizeWords: bv16)   // bits 15-0, packet size in 32-bit words

  function ParseHeader(w: bv32): Header {
    Header(
      (w >> 28) as bv4,
      (w >> 27) & 1 == 1,
      (w >> 26) & 1 == 1,
      ((w >> 22) & 3) as bv2,
      ((w >> 20) & 3) as bv2,
      ((w >> 16) & 0xF) as bv4,
      (w & 0xFFFF) as bv16)
  }

  /** The header word that carries `h`, with the unused bits 25-24 clear. */
  function HeaderWord(h: Header): bv32 {
    ((h.packetType as bv32) << 28)
    | (if h.hasClassId then 1 << 27 else 0)
    | (if h.hasTrailer then 1 << 26 else 0)
    | ((h.tsi as bv32) << 22)
    | ((h.tsf as bv32) << 20)
    | ((h.sequence as bv32) << 16)
    | (h.sizeWords as bv32)
  }

  /** Every header field survives being packed into a word and sliced back out. */
  lemma HeaderRoundTrip(h: Header)
    ensures ParseHeader(HeaderWord(h)) == h
  {
  }

  /** Slicing a word and repacking the fields loses exactly bits 25-24. */
  lemma HeaderWordOfParse(w: bv32)
    ensures HeaderWord(ParseHeader(w)) == w & 0xFCFF_FFFF
  {
  }

  /** The byte offset just past the stream identifier and the optional fields present. */
  function PayloadOffset(h: Header): nat {
    8 + (if h.hasClassId then 8 else 0) + (if h.tsi != 0 then 4 else 0) + (if h.tsf != 0 then 8 else 0)
  }

  /** The payload end the decoder computes: the declared size less the trailer word. */
  function PayloadEnd(h: Header): int {
    h.sizeWords as int * 4 - (if h.hasTrailer then 4 else 0)
  }

  /** Python's normalisation of one slice bound against a sequence of length `len`. */
  function SliceBound(i: int, len: nat): (b: nat)
    ensures b <= len
  {
    if i < 0 then (if i + len < 0 then 0 else i + len)
    else if i > len then len
    else i
  }

  /** Python's `s[start:stop]`: bounds clipped, negative bounds counted from the end. */
  function PySlice<T>(s: seq<T>, start: int, stop: int): seq<T> {
    var a := SliceBound(start, |s|);
    var b := SliceBound(stop, |s|);
    if a < b then s[a..b] else []
  }

  /** Within range a Python slice is the plain subsequence; past the end it is clipped. */
  lemma PySliceInRange<T>(s: seq<T>, start: nat, stop: int)
    requires start <= |s|
    ensures 0 <= stop && start <= stop <= |s| ==> PySlice(s, start, stop) == s[start..stop]
    ensures stop > |s| ==> PySlice(s, start, stop) == s[start..]
    ensures -|s| <= stop < 0 && start <= |s| + stop ==> PySlice(s, start, stop) == s[start..|s| + stop]
    ensures 0 <= stop <= start ==> PySlice(s, start, stop) == []
  {
  }

  /** Consecutive little-endian word pairs; a tail shorter than 8 bytes is ignored. */
  function Pairs(p: Bytes): (r: seq<Sample>)
    ensures |r| == |p| / 8
    decreases |p|
  {
    if |p| < 8 then [] else [Sample(LE32(p, 0), LE32(p, 4))] + Pairs(p[8..])
  }

  /** Sample `k` of `Pairs(p)` is the word pair at byte `8k`. */
  lemma {:induction false} PairsAt(p: Bytes, k: nat)
    requires k < |p| / 8
    ensures 8 * k + 8 <= |p|
    ensures Pairs(p)[k] == Sample(LE32(p, 8 * k), LE32(p, 8 * k + 4))
    decreases k
  {
    if k > 0 {
      PairsAt(p[8..], k - 1);
      assert p[8..][8 * (k - 1)..] == p[8 * k..];
      assert LE32(p[8..], 8 * (k - 1)) == LE32(p, 8 * k);
      assert LE32(p[8..], 8 * (k - 1) + 4) == LE32(p, 8 * k + 4);
    }
  }

  /**
   * The samples of a payload of `n = |payload| / 4` whole words. Fewer than two
   * words is no packet. An even count pairs the words in order. With three
   * words numpy broadcasts the single Q word over both I words; with five or
   * more odd words it raises, and the receive loop drops the datagram exactly
   * as if it had not decoded.
   */
  function Samples(payload: Bytes): Option<seq<Sample>> {
    var n := |payload| / 4;
    if n < 2 then None
    else if n % 2 == 0 then Some(Pairs(payload[..n * 4]))
    else if n == 3 then Some([Sample(LE32(payload, 0), LE32(payload, 4)), Sample(LE32(payload, 8), LE32(payload, 4))])
    else None
  }

  /** For an even word count `n` the packet holds `n / 2` samples, sample `k` being words `2k`, `2k + 1`. */
  lemma EvenPayloadSamples(payload: Bytes)
    requires |payload| / 4 >= 2 && (|payload| / 4) % 2 == 0
    ensures Samples(payload).Some?
    ensures |Samples(payload).value| == |payload| / 8
    ensures forall k :: 0 <= k < |payload| / 8 ==>
              8 * k + 8 <= |payload| &&
              Samples(payload).value[k] == Sample(LE32(payload, 8 * k), LE32(payload, 8 * k + 4))
  {
    var n := |payload| / 4;
    var body := payload[..n * 4];
    assert |body| / 8 == |payload| / 8;
    forall k | 0 <= k < |payload| / 8
      ensures 8 * k + 8 <= |payload|
      ensures Pairs(body)[k] == Sample(LE32(payload, 8 * k), LE32(payload, 8 * k + 4))
    {
      PairsAt(body, k);
      assert body[8 * k..8 * k + 8] == payload[8 * k..8 * k + 8];
    }
  }

  /** `VITAReceiver._unpack`: a datagram to a packet, or `None` when it must be skipped. */
  function Decode(data: Bytes): (r: Option<VitaPacket>)
    ensures |data| < 8 ==> r.None?
    ensures r.Some? ==> |r.value.samples| >= 1
    ensures r.Some? ==> r.value.streamId == BE32(data, 4)
    ensures r.Some? ==> r.value.sequence == ParseHeader(BE32(data, 0)).sequence
  {
    if |data| < 4 then None
    else
      var h := ParseHeader(BE32(data, 0));
      if |data| < 8 then None
      else
        var streamId := BE32(data, 4);
        var off0 := 8;
        if h.hasClassId && |data| < off0 + 8 then None
        else
          var off1 := if h.hasClassId then off0 + 8 else off0;
          if h.tsi != 0 && |data| < off1 + 4 then None
          else
            var tsInt := if h.tsi != 0 then BE32(data, off1) else 0;
            var off2 := if h.tsi != 0 then off1 + 4 else off1;
            if h.tsf != 0 && |data| < off2 + 8 then None
            else
              var tsFrac := if h.tsf != 0 then BE64(data, off2) else 0;
              var off := if h.tsf != 0 then off2 + 8 else off2;
              match Samples(PySlice(data, off, PayloadEnd(h)))
              case None => None
              case Some(samples) => Some(VitaPacket(streamId, tsInt, tsFrac, h.sequence, samples))
  }

  /**
   * A datagram whose optional fields overrun it is skipped; one that holds them
   * all decodes exactly when its clipped payload holds samples, and a timestamp
   * whose type field is zero reads as zero.
   */
  lemma DecodeShape(data: Bytes)
    requires |data| >= 4
    ensures var h := ParseHeader(BE32(data, 0));
      && (|data| < PayloadOffset(h) ==> Decode(data).None?)
      && (|data| >= PayloadOffset(h) ==>
            Decode(data).Some? == Samples(PySlice(data, PayloadOffset(h), PayloadEnd(h))).Some?)
      && (Decode(data).Some? ==>
            && Decode(data).value.samples == Samples(PySlice(data, PayloadOffset(h), PayloadEnd(h))).value
            && (h.tsi == 0 ==> Decode(data).value.timestampInt == 0)
            && (h.tsf == 0 ==> Decode(data).value.timestampFrac == 0)
            && (h.tsi != 0 ==> Decode(data).value.timestampInt == BE32(data, PayloadOffset(h) - (if h.tsf != 0 then 12 else 4)))
            && (h.tsf != 0 ==> Decode(data).value.timestampFrac == BE64(data, PayloadOffset(h) - 8)))
  {
  }

  /**
   * The payload bound is not checked against the datagram: a size that
   * overstates the length clips the payload to the end of the buffer, and a
   * size of 0 with the trailer bit gives the end -4, which Python reads as
   * "four bytes before the end".
   */
  lemma PayloadClipping(data: Bytes)
    requires |data| >= 4
    ensures var h := ParseHeader(BE32(data, 0));
      && (PayloadEnd(h) > |data| && PayloadOffset(h) <= |data| ==>
            PySlice(data, PayloadOffset(h), PayloadEnd(h)) == data[PayloadOffset(h)..])
      && (h.sizeWords == 0 && h.hasTrailer && PayloadOffset(h) + 4 <= |data| ==>
            PySlice(data, PayloadOffset(h), PayloadEnd(h)) == data[PayloadOffset(h)..|data| - 4])
  {
  }

  // ------------------------------------------------------------ encoding

  /** How a packet is laid out on the wire besides its own fields. */
  datatype Layout = Layout(
    packetType: bv4,
    classId: Option<bv64>,
    tsi: bv2,
    tsf: bv2,
    trailer: Option<bv32>,
    sizeWords: bv16)

  function SampleBytes(s: seq<Sample>): (b: Bytes)
    ensures |b| == 8 * |s|
  {
    if |s| == 0 then [] else LE32Bytes(s[0].i) + LE32Bytes(s[0].q) + SampleBytes(s[1..])
  }

  lemma {:induction false} PairsOfSampleBytes(s: seq<Sample>)
    ensures Pairs(SampleBytes(s)) == s
  {
    if |s| > 0 {
      var b := SampleBytes(s);
      assert b[0..4] == LE32Bytes(s[0].i);
      assert b[4..8] == LE32Bytes(s[0].q);
      LE32Window(b, 0, s[0].i);
      LE32Window(b, 4, s[0].q);
      assert b[8..] == SampleBytes(s[1..]);
      PairsOfSampleBytes(s[1..]);
    }
  }

  function ClassBytes(lay: Layout): Bytes {
    if lay.classId.Some? then BE64Bytes(lay.classId.value) else []
  }

  function TsIntBytes(lay: Layout, p: VitaPacket): Bytes {
    if lay.tsi != 0 then BE32Bytes(p.timestampInt) else []
  }

  function TsFracBytes(lay: Layout, p: VitaPacket): Bytes {
    if lay.tsf != 0 then BE64Bytes(p.timestampFrac) else []
  }

  function TrailerBytes(lay: Layout): Bytes {
    if lay.trailer.Some? then BE32Bytes(lay.trailer.value) else []
  }

  function EncodedHeader(lay: Layout, p: VitaPacket): Header {
    Header(lay.packetType, lay.classId.Some?, lay.trailer.Some?, lay.tsi, lay.tsf, p.sequence, lay.sizeWords)
  }

  /** The header word, stream identifier and class identifier. */
  function Lead(lay: Layout, p: VitaPacket): Bytes {
    BE32Bytes(HeaderWord(EncodedHeader(lay, p))) + BE32Bytes(p.streamId) + ClassBytes(lay)
  }

  /** A packet as the radio sends it, every present field in order. */
  function Encode(lay: Layout, p: VitaPacket): (b: Bytes) {
    Lead(lay, p) + TsIntBytes(lay, p) + TsFracBytes(lay, p) + SampleBytes(p.samples) + TrailerBytes(lay)
  }

  /**
   * The packet carries what the decoder can return, and the declared size
   * counts every word of it.
   */
  predicate Encodable(lay: Layout, p: VitaPacket) {
    && |p.samples| >= 1
    && (lay.tsi == 0 ==> p.timestampInt == 0)
    && (lay.tsf == 0 ==> p.timestampFrac == 0)
    && lay.sizeWords as int * 4 == |Encode(lay, p)|
  }

  /** The middle part of a concatenation sits at the length of its prefix. */
  lemma Middle(a: Bytes, b: Bytes, c: Bytes)
    ensures (a + b + c)[|a|..|a| + |b|] == b
  {
  }

  lemma HeaderWordAt(lay: Layout, p: VitaPacket)
    ensures BE32(Encode(lay, p), 0) == HeaderWord(EncodedHeader(lay, p))
  {
    var hw := HeaderWord(EncodedHeader(lay, p));
    var e, lead := Encode(lay, p), Lead(lay, p);
    assert e[0..4] == BE32Bytes(hw) by {
      assert forall i :: 0 <= i < 4 ==> e[i] == lead[i] == BE32Bytes(hw)[i];
    }
    BE32Window(e, 0, hw);
  }

  /** The encoded header word reads back as the header the encoder chose. */
  lemma EncodedHeaderReads(lay: Layout, p: VitaPacket)
    ensures ParseHeader(BE32(Encode(lay, p), 0)) == EncodedHeader(lay, p)
  {
    HeaderWordAt(lay, p);
    HeaderRoundTrip(EncodedHeader(lay, p));
  }

  lemma EncodedStreamId(lay: Layout, p: VitaPacket)
    ensures BE32(Encode(lay, p), 4) == p.streamId
  {
    var e, lead := Encode(lay, p), Lead(lay, p);
    assert e[4..8] == BE32Bytes(p.streamId) by {
      assert forall i :: 4 <= i < 8 ==> e[i] == lead[i] == BE32Bytes(p.streamId)[i - 4];
    }
    BE32Window(e, 4, p.streamId);
  }

  lemma EncodedTimestamps(lay: Layout, p: VitaPacket)
    ensures var h := EncodedHeader(lay, p);
      && (h.tsi != 0 ==> BE32(Encode(lay, p), PayloadOffset(h) - (if h.tsf != 0 then 12 else 4)) == p.timestampInt)
      && (h.tsf != 0 ==> BE64(Encode(lay, p), PayloadOffset(h) - 8) == p.timestampFrac)
  {
    var h := EncodedHeader(lay, p);
    var lead := |Lead(lay, p)|;
    assert lead == 8 + (if h.hasClassId then 8 else 0);
    assert PayloadOffset(h) == lead + |TsIntBytes(lay, p)| + |TsFracBytes(lay, p)|;
    if lay.tsi != 0 {
      TsIntAt(lay, p);
      assert PayloadOffset(h) - (if h.tsf != 0 then 12 else 4) == lead;
    }
    if lay.tsf != 0 {
      TsFracAt(lay, p);
      assert PayloadOffset(h) - 8 == |Lead(lay, p) + TsIntBytes(lay, p)|;
    }
  }

  /** The integer timestamp follows the header, stream and class identifiers. */
  lemma TsIntAt(lay: Layout, p: VitaPacket)
    requires lay.tsi != 0
    ensures |Lead(lay, p)| + 4 <= |Encode(lay, p)|
    ensures BE32(Encode(lay, p), |Lead(lay, p)|) == p.timestampInt
  {
    var lead, ti := Lead(lay, p), TsIntBytes(lay, p);
    var at := |lead|;
    var x2 := lead + ti + TsFracBytes(lay, p);
    var x3 := x2 + SampleBytes(p.samples);
    SliceFront(lead + ti, TsFracBytes(lay, p), at, at + 4);
    SliceFront(x2, SampleBytes(p.samples), at, at + 4);
    SliceFront(x3, TrailerBytes(lay), at, at + 4);
    assert (lead + ti)[at..at + 4] == ti;
    BE32Window(Encode(lay, p), at, p.timestampInt);
  }

  /** The fractional timestamp follows the integer one, if any. */
  lemma TsFracAt(lay: Layout, p: VitaPacket)
    requires lay.tsf != 0
    ensures |Lead(lay, p) + TsIntBytes(lay, p)| + 8 <= |Encode(lay, p)|
    ensures BE64(Encode(lay, p), |Lead(lay, p) + TsIntBytes(lay, p)|) == p.timestampFrac
  {
    var front, tf := Lead(lay, p) + TsIntBytes(lay, p), TsFracBytes(lay, p);
    var at := |front|;
    var x3 := front + tf + SampleBytes(p.samples);
    SliceFront(front + tf, SampleBytes(p.samples), at, at + 8);
    SliceFront(x3, TrailerBytes(lay), at, at + 8);
    assert (front + tf)[at..at + 8] == tf;
    BE64Window(Encode(lay, p), at, p.timestampFrac);
  }

  lemma EncodedPayload(lay: Layout, p: VitaPacket)
    ensures var h := EncodedHeader(lay, p);
      && PayloadOffset(h) + 8 * |p.samples| + |TrailerBytes(lay)| == |Encode(lay, p)|
      && Encode(lay, p)[PayloadOffset(h)..PayloadOffset(h) + 8 * |p.samples|] == SampleBytes(p.samples)
  {
    var front := Lead(lay, p) + TsIntBytes(lay, p) + TsFracBytes(lay, p);
    assert |front| == PayloadOffset(EncodedHeader(lay, p));
    assert Encode(lay, p) == front + SampleBytes(p.samples) + TrailerBytes(lay);
    Middle(front, SampleBytes(p.samples), TrailerBytes(lay));
  }

  /** The payload slice the decoder takes from an encoded packet is exactly its samples. */
  lemma EncodedSlice(lay: Layout, p: VitaPacket)
    requires Encodable(lay, p)
    ensures var h := EncodedHeader(lay, p);
      && PayloadOffset(h) <= |Encode(lay, p)|
      && PySlice(Encode(lay, p), PayloadOffset(h), PayloadEnd(h)) == SampleBytes(p.samples)
  {
    var data, h := Encode(lay, p), EncodedHeader(lay, p);
    EncodedPayload(lay, p);
    var start := PayloadOffset(h);
    assert PayloadEnd(h) == start + 8 * |p.samples|;
    PySliceInRange(data, start, start + 8 * |p.samples|);
  }

  /** Decoding an encoded packet gives back its stream id, timestamps, sequence and samples. */
  lemma DecodeEncode(lay: Layout, p: VitaPacket)
    requires Encodable(lay, p)
    ensures Decode(Encode(lay, p)) == Some(p)
  {
    var data, h := Encode(lay, p), EncodedHeader(lay, p);
    EncodedHeaderReads(lay, p);
    EncodedSlice(lay, p);
    PayloadSamples(p.samples);
    DecodeShape(data);
    var r := Decode(data);
    assert r.Some? && r.value.samples == p.samples;
    EncodedStreamId(lay, p);
    EncodedTimestamps(lay, p);
    assert r.value.timestampInt == p.timestampInt;
    assert r.value.timestampFrac == p.timestampFrac;
  }

  lemma EvenWords(k: nat)
    ensures (8 * k) / 4 == 2 * k && (2 * k) % 2 == 0
  {
  }

  /** The encoded samples decode as themselves. */
  lemma PayloadSamples(s: seq<Sample>)
    requires |s| >= 1
    ensures Samples(SampleBytes(s)) == Some(s)
  {
    var payB := SampleBytes(s);
    var n := |payB| / 4;
    EvenWords(|s|);
    assert Samples(payB) == Some(Pairs(payB[..n * 4]));
    assert payB[..n * 4] == payB;
    PairsOfSampleBytes(s);
  }
}

/**
 * The per-datagram body of `VITAReceiver._recv_loop`: stream filtering, the
 * packet counter, per-stream 4-bit sequence-gap accounting and the bounded,
 * non-blocking delivery queue.
 */
module Receiver {
  import opened Base
  import opened Wire
  import opened Models
  import Vita

  /** The capacity of the queue a receiver creates when none is handed to it. */
  const DefaultCapacity: nat := 200

  datatype Receiver = Receiver(
    filter: Option<nat>,        // `filter_sid`, as unbounded as Python's int; None or 0 accepts every stream
    capacity: nat,              // queue `maxsize`; 0 means unbounded, as in Python
    queue: seq<VitaPacket>,
    packetCount: nat,
    dropCount: nat,
    missedCount: nat,
    lastSeq: map<nat, bv4>)     // keyed by stream id

  function Init(filter: Option<nat>, capacity: nat): Receiver {
    Receiver(filter, capacity, [], 0, 0, 0, map[])
  }

  /** A missing or zero filter lets every stream through; otherwise only the filtered one passes. */
  predicate Accepts(filter: Option<nat>, sid: bv32) {
    filter.None? || filter.value == 0 || sid as nat == filter.value
  }

  /**
   * A filter no 32-bit stream id can equal: `int(resp, 16)` is unbounded, so a
   * stream id of 2^32 or more from the radio makes the receiver drop every packet.
   */
  lemma WideFilterDropsAll(r: Receiver, p: VitaPacket)
    requires r.filter.Some? && r.filter.value >= 0x1_0000_0000
    ensures OnPacket(r, p) == r
    ensures !Accepts(r.filter, p.streamId)
  {
    assert p.streamId as nat < 0x1_0000_0000;
  }

  /**
   * The packets missed between a stream's last sequence number and this one:
   * the distance, modulo 16, from the expected successor of `last` to `sn`
   * (masking an int with 0xF is the Euclidean remainder modulo 16).
   */
  function Gap(last: nat, sn: nat): (n: nat)
    requires last < 16 && sn < 16
    ensures n < 16
    ensures (last + 1 + n) % 16 == sn
    ensures n == 0 <==> sn == (last + 1) % 16
  {
    var expected := (last + 1) % 16;
    if sn != expected then (sn - expected) % 16 else 0
  }

  predicate Full(r: Receiver) {
    r.capacity > 0 && |r.queue| >= r.capacity
  }

  /** One decoded packet through the filter, the counters and `put_nowait`. */
  function OnPacket(r: Receiver, p: VitaPacket): (r': Receiver)
    ensures !Accepts(r.filter, p.streamId) ==> r' == r
    ensures Accepts(r.filter, p.streamId) ==>
      && r'.packetCount == r.packetCount + 1
      && r'.lastSeq == r.lastSeq[p.streamId as nat := p.sequence]
      && r'.missedCount == r.missedCount + (if p.streamId as nat in r.lastSeq then Gap(r.lastSeq[p.streamId as nat] as nat, p.sequence as nat) else 0)
      && (Full(r) ==> r'.queue == r.queue && r'.dropCount == r.dropCount + 1)
      && (!Full(r) ==> r'.queue == r.queue + [p] && r'.dropCount == r.dropCount)
    ensures r'.filter == r.filter && r'.capacity == r.capacity
  {
    if !Accepts(r.filter, p.streamId) then r
    else
      var sid := p.streamId as nat;
      var missed := if sid in r.lastSeq then Gap(r.lastSeq[sid] as nat, p.sequence as nat) else 0;
      var r1 := r.(packetCount := r.packetCount + 1,
                   missedCount := r.missedCount + missed,
                   lastSeq := r.lastSeq[sid := p.sequence]);
      if Full(r1) then r1.(dropCount := r1.dropCount + 1)
      else r1.(queue := r1.queue + [p])
  }

  /** One datagram: an undecodable one changes nothing. */
  function OnDatagram(r: Receiver, data: Bytes): (r': Receiver)
    ensures Vita.Decode(data).None? ==> r' == r
  {
    match Vita.Decode(data)
    case None => r
    case Some(p) => OnPacket(r, p)
  }

  /** The consumer's `get`: the oldest queued packet, or nothing when empty. */
  function Take(r: Receiver): (Receiver, Option<VitaPacket>) {
    if |r.queue| == 0 then (r, None) else (r.(queue := r.queue[1..]), Some(r.queue[0]))
  }

  datatype Event = Datagram(data: Bytes) | Consume

  /** The receiver after a sequence of datagrams and consumer reads, with what was read. */
  function Run(r: Receiver, events: seq<Event>): (Receiver, seq<VitaPacket>)
    decreases |events|
  {
    if |events| == 0 then (r, [])
    else
      match events[0]
      case Datagram(d) => Run(OnDatagram(r, d), events[1..])
      case Consume =>
        var (r1, got) := Take(r);
        var (r2, rest) := Run(r1, events[1..]);
        (r2, (if got.Some? then [got.value] else []) + rest)
  }

  predicate Bounded(r: Receiver) {
    r.capacity > 0 ==> |r.queue| <= r.capacity
  }

  /**
   * From `r` to `r'`, having handed `out` to the consumer: every accepted
   * packet was either dropped, is still queued or was handed over; drops
   * never decrease; the queue is within capacity; and the packets queued in
   * `r` come out first and in order.
   */
  predicate Accounted(r: Receiver, r': Receiver, out: seq<VitaPacket>) {
    && r'.packetCount - r.packetCount == (r'.dropCount - r.dropCount) + (|r'.queue| - |r.queue|) + |out|
    && r'.dropCount >= r.dropCount
    && Bounded(r')
    && r.queue <= out + r'.queue
  }

  /** Over any run the receiver's counters account for every accepted packet. */
  lemma {:induction false} RunAccounting(r: Receiver, events: seq<Event>)
    requires Bounded(r)
    ensures Accounted(r, Run(r, events).0, Run(r, events).1)
    decreases |events|
  {
    if |events| > 0 {
      match events[0]
      case Datagram(d) =>
        var r1 := OnDatagram(r, d);
        DatagramStep(r, d);
        RunAccounting(r1, events[1..]);
        var (r', out) := Run(r1, events[1..]);
        assert Run(r, events) == (r', out);
        DatagramAccounted(r, r1, r', out);
      case Consume =>
        var (r1, got) := Take(r);
        RunAccounting(r1, events[1..]);
        var (r', rest) := Run(r1, events[1..]);
        assert Run(r, events) == (r', (if got.Some? then [got.value] else []) + rest);
        TakeAccounted(r, r', rest);
    }
  }

  lemma DatagramAccounted(r: Receiver, r1: Receiver, r': Receiver, out: seq<VitaPacket>)
    requires r1.packetCount - r.packetCount == (r1.dropCount - r.dropCount) + (|r1.queue| - |r.queue|)
    requires r1.dropCount >= r.dropCount && r.queue <= r1.queue
    requires Accounted(r1, r', out)
    ensures Accounted(r, r', out)
  {
    PrefixTrans(r.queue, r1.queue, out + r'.queue);
  }

  lemma TakeAccounted(r: Receiver, r': Receiver, rest: seq<VitaPacket>)
    requires Accounted(Take(r).0, r', rest)
    ensures var got := Take(r).1; Accounted(r, r', (if got.Some? then [got.value] else []) + rest)
  {
    var (r1, got) := Take(r);
    if got.Some? {
      assert r.queue == [got.value] + r1.queue;
      assert [got.value] + rest + r'.queue == [got.value] + (rest + r'.queue);
    }
  }

  lemma PrefixTrans<T>(a: seq<T>, b: seq<T>, c: seq<T>)
    requires a <= b && b <= c
    ensures a <= c
  {
    assert c[..|a|] == c[..|b|][..|a|];
  }

  /** One datagram either leaves the receiver alone, drops the packet or queues it. */
  lemma DatagramStep(r: Receiver, d: Bytes)
    requires Bounded(r)
    ensures var r1 := OnDatagram(r, d);
      && r1.packetCount - r.packetCount == (r1.dropCount - r.dropCount) + (|r1.queue| - |r.queue|)
      && r1.dropCount >= r.dropCount && |r1.queue| >= |r.queue|
      && Bounded(r1)
      && r.queue <= r1.queue
  {
  }

  function PacketWith(sid: bv32, sequence: bv4): VitaPacket {
    VitaPacket(sid, 0, 0, sequence, [Sample(0, 0)])
  }

  /** Sequence numbers 5, 6, 9 on one stream count the two missing packets 7 and 8. */
  lemma GapExample(sid: bv32)
    ensures var r := OnPacket(OnPacket(OnPacket(Init(None, DefaultCapacity), PacketWith(sid, 5)), PacketWith(sid, 6)), PacketWith(sid, 9));
      r.missedCount == 2 && r.packetCount == 3 && r.lastSeq[sid as nat] == 9
  {
    var r1 := OnPacket(Init(None, DefaultCapacity), PacketWith(sid, 5));
    var r2 := OnPacket(r1, PacketWith(sid, 6));
    assert Gap(5, 6) == 0;
    assert Gap(6, 9) == 2;
  }
}
