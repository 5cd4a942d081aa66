/**
  Reading and decoding a response body under one cap, from reads and decoder calls of
  any size. What comes out is a function of the bytes on the wire alone.
*/
module BoundedBody {
  import opened Wrappers

  type Byte = b: int | 0 <= b < 256
  type Bytes = seq<Byte>

  const CHUNK := 64 * 1024

  datatype Reason = WireBodyLimit | DecodedBodyLimit | DeclaredLength

  /** The evidence that an oversized response leaves. */
  datatype TooLarge = TooLarge(reason: Reason, prefix: Bytes, observed: nat, decoded: Option<nat>, wireComplete: bool)

  datatype Outcome<+T> = Whole(value: T) | Oversized(error: TooLarge) | BadStream

  /** What the bytes fed so far determine: the output, and whether they are found to be
      malformed, as they are right behind that output. */
  datatype Progress = Progress(out: Bytes, broken: bool)

  type Codec = Bytes -> Progress

  /** More input never takes output back, and nothing comes after a malformed place. */
  ghost predicate Streaming(c: Codec) {
    && c([]) == Progress([], false)
    && forall p, q | p <= q :: c(p).out <= c(q).out && (c(p).broken ==> c(q) == c(p))
  }

  predicate Exceeds(n: nat, max: Option<nat>) {
    max.Some? && n > max.value
  }

  /** Where the input is cut into chunks. */
  predicate IsCut(data: Bytes, n: nat) {
    n <= |data| && (n % CHUNK == 0 || n == |data|)
  }

  /** A malformed place is reported unless the overflow is seen before. That is so when
      more than one byte over the cap comes before the place, since the decompressor goes
      on until it must write again; or when the one byte comes out of an earlier chunk. */
  ghost predicate SeenFirst(c: Codec, data: Bytes, max: Option<nat>) {
    max.Some? ==>
      && |c(data).out| <= max.value + 1
      && forall n: nat | IsCut(data, n) && Exceeds(|c(data[..n]).out|, max) :: c(data[..n]).broken
  }

  /** What decoding gives. */
  ghost function Decoded(c: Codec, data: Bytes, max: Option<nat>): Outcome<Bytes> {
    if c(data).broken && SeenFirst(c, data, max) then BadStream
    else if Exceeds(|c(data).out|, max) then Oversized(TooLarge(DecodedBodyLimit, [], max.value + 1, None, false))
    else Whole(c(data).out)
  }

  /** zlib's decompressor object: what it was fed, and how much it has given. */
  class Decoder {
    const codec: Codec
    var fed: Bytes
    var given: nat

    ghost predicate Valid()
      reads this
    {
      Streaming(codec) && given <= |codec(fed).out|
    }

    constructor (codec: Codec)
      requires Streaming(codec)
      ensures Valid() && this.codec == codec && fed == [] && given == 0
    {
      this.codec, fed, given := codec, [], 0;
    }

    /** Feed input until more than the output limit would have to be written (0 is
        none), or a malformed place is come to; the input not taken is the tail. */
    method Decompress(pending: Bytes, limit: nat) returns (r: Option<Bytes>, tail: Bytes)
      requires Valid()
      modifies `fed, `given
      ensures Valid() && |tail| <= |pending| && old(fed) + pending == fed + tail
      ensures r.None? ==> codec(fed).broken && (limit > 0 ==> |codec(fed).out| <= old(given) + limit)
      ensures r.Some? ==>
              && given == old(given) + |r.value| && r.value == codec(fed).out[old(given)..given]
              && (if limit > 0 && |codec(fed).out| > old(given) + limit then |r.value| == limit
                  else tail == [] && given == |codec(fed).out| && !codec(fed).broken)
    {
      var c := 0;
      assert old(fed) + pending[..0] == fed;
      while c < |pending| && !codec(fed).broken && (limit == 0 || |codec(fed).out| - given <= limit)
        invariant c <= |pending| && Valid() && given == old(given) && fed == old(fed) + pending[..c]
      {
        assert old(fed) + pending[..c + 1] == fed + [pending[c]];
        assert codec(fed).out <= codec(fed + [pending[c]]).out by {
          assert fed <= fed + [pending[c]];
        }
        fed := fed + [pending[c]];
        c := c + 1;
      }
      tail := pending[c..];
      assert pending[..c] + pending[c..] == pending;
      var available := codec(fed).out[given..];
      if limit > 0 && |available| > limit {
        assert available[..limit] == codec(fed).out[given..given + limit];
        given := given + limit;
        r := Some(available[..limit]);
      } else if codec(fed).broken {
        r := None;
      } else {
        given := given + |available|;
        r := Some(available);
      }
    }

    /** What is left to give; an unfinished stream is no error. */
    method Flush() returns (out: Bytes)
      requires Valid()
      modifies `given
      ensures Valid() && out == codec(fed).out[old(given)..] && given == |codec(fed).out|
    {
      out := codec(fed).out[given..];
      given := |codec(fed).out|;
    }
  }

  function RemainingLimit(total: nat, max: Option<nat>): nat {
    if max.None? then 0 else if max.value + 1 > total + 1 then max.value - total + 1 else 1
  }

  /** Append a decoded chunk, unless it makes the output too large. */
  method AppendChunk(chunks: Bytes, chunk: Bytes, max: Option<nat>) returns (r: Outcome<Bytes>)
    ensures r == if chunk != [] && Exceeds(|chunks| + |chunk|, max)
                 then Oversized(TooLarge(DecodedBodyLimit, [], |chunks| + |chunk|, None, false))
                 else Whole(chunks + chunk)
  {
    if chunk == [] {
      assert chunks + chunk == chunks;
      return Whole(chunks);
    }
    if Exceeds(|chunks| + |chunk|, max) {
      return Oversized(TooLarge(DecodedBodyLimit, [], |chunks| + |chunk|, None, false));
    }
    r := Whole(chunks + chunk);
  }

  lemma FedIsPrefix(data: Bytes, end: nat, fed: Bytes, tail: Bytes)
    requires end <= |data| && fed + tail == data[..end]
    ensures fed <= data[..end] <= data && fed == data[..|fed|]
  {
    assert (fed + tail)[..|fed|] == fed && data[..end][..|fed|] == data[..|fed|];
  }

  /** Decode one chunk of the input, `data` from one cut to the next. */
  method DecodeChunk(decoder: Decoder, ghost data: Bytes, ghost from: nat, ghost end: nat, chunk: Bytes, chunks: Bytes, max: Option<nat>)
    returns (r: Outcome<Bytes>)
    requires decoder.Valid() && IsCut(data, end) && from < end <= |data| && decoder.fed == data[..from] && chunk == data[from..end]
    requires forall n: nat | IsCut(data, n) && n < end :: n <= from
    requires chunks == decoder.codec(decoder.fed).out && decoder.given == |chunks| && !Exceeds(|chunks|, max)
    modifies decoder
    ensures r.Whole? ==>
            && decoder.Valid() && decoder.fed == data[..end] && !decoder.codec(decoder.fed).broken
            && r.value == decoder.codec(decoder.fed).out && decoder.given == |r.value| && !Exceeds(|r.value|, max)
    ensures !r.Whole? ==> r == Decoded(decoder.codec, data, max)
  {
    hide Streaming, SeenFirst, Decoded, IsCut;
    var codec := decoder.codec;
    assert data[..from] + data[from..end] == data[..end];
    var pending := chunk;
    r := Whole(chunks);
    while pending != []
      invariant r.Whole? && decoder.Valid()
      invariant if pending != [] then pending == chunk && r.value == chunks && decoder.fed == data[..from]
                else decoder.fed == data[..end] && !codec(decoder.fed).broken
      invariant r.value == codec(decoder.fed).out && decoder.given == |r.value| && !Exceeds(|r.value|, max)
      decreases |pending|
    {
      var out := r.value;
      var decoded, tail := decoder.Decompress(pending, RemainingLimit(|out|, max));
      FedIsPrefix(data, end, decoder.fed, tail);
      if decoded.None? {
        MalformedSeen(codec, data, from, end, decoder.fed, max);
        return BadStream;
      }
      Delivered(codec, data[..from], decoder.fed, out);
      r := AppendChunk(out, decoded.value, max);
      if r.Oversized? {
        OverflowSeen(codec, data, end, decoder.fed, tail, max);
        return;
      }
      pending := tail;
    }
  }

  /** What was given so far is still the beginning of the output. */
  lemma Delivered(c: Codec, fed: Bytes, fed': Bytes, out: Bytes)
    requires Streaming(c) && out == c(fed).out && fed <= fed'
    ensures out <= c(fed').out
  {
  }

  /** Decode chunk after chunk, stopping at the first byte over the cap. */
  method DecodeZlib(codec: Codec, data: Bytes, max: Option<nat>) returns (r: Outcome<Bytes>)
    requires Streaming(codec)
    ensures r == Decoded(codec, data, max)
  {
    var decoder := new Decoder(codec);
    var chunks: Bytes := [];
    var index := 0;
    while index < |data|
      invariant IsCut(data, index) && decoder.Valid() && decoder.codec == codec && decoder.fed == data[..index]
      invariant !codec(decoder.fed).broken
      invariant chunks == codec(decoder.fed).out && decoder.given == |chunks| && !Exceeds(|chunks|, max)
    {
      var end := if index + CHUNK <= |data| then index + CHUNK else |data|;
      NextCut(data, index, end);
      r := DecodeChunk(decoder, data, index, end, data[index..end], chunks, max);
      if !r.Whole? {
        return;
      }
      chunks, index := r.value, end;
    }
    assert data[..|data|] == data;
    var last := decoder.Flush();
    r := AppendChunk(chunks, last, max);
    assert chunks + [] == chunks;
  }

  lemma NextCut(data: Bytes, index: nat, end: nat)
    requires IsCut(data, index) && index < |data| && end == if index + CHUNK <= |data| then index + CHUNK else |data|
    ensures IsCut(data, end) && forall n: nat | IsCut(data, n) && n < end :: n <= index
  {
    var k := index / CHUNK;
    assert index == k * CHUNK && (index + CHUNK) % CHUNK == 0;
    forall n: nat | IsCut(data, n) && n < end ensures n <= index {
      assert n % CHUNK == 0 && n / CHUNK <= k;
    }
  }

  /** A malformed place that is come to within the chunk, with at most one byte over the
      cap before it. */
  lemma MalformedSeen(c: Codec, data: Bytes, from: nat, end: nat, fed: Bytes, max: Option<nat>)
    requires Streaming(c) && IsCut(data, end) && from < end && fed <= data[..end] <= data && c(fed).broken
    requires forall n: nat | IsCut(data, n) && n < end :: n <= from
    requires !Exceeds(|c(data[..from]).out|, max) && (max.Some? ==> |c(fed).out| <= max.value + 1)
    ensures Decoded(c, data, max) == BadStream
  {
    assert fed <= data && c(data) == c(fed);
    forall n: nat | IsCut(data, n) && Exceeds(|c(data[..n]).out|, max) ensures c(data[..n]).broken {
      assert n >= end;
      assert fed <= data[..n];
    }
  }

  /** An overflow that is seen: more than one byte over the cap comes out of this chunk,
      or the one byte and nothing malformed. */
  lemma OverflowSeen(c: Codec, data: Bytes, end: nat, fed: Bytes, tail: Bytes, max: Option<nat>)
    requires Streaming(c) && IsCut(data, end) && fed <= data[..end] <= data && fed + tail == data[..end]
    requires Exceeds(|c(fed).out|, max)
    requires |c(fed).out| > max.value + 1 || (tail == [] && !c(fed).broken)
    ensures Decoded(c, data, max) == Oversized(TooLarge(DecodedBodyLimit, [], max.value + 1, None, false))
  {
    assert fed <= data && c(fed).out <= c(data).out;
    if |c(fed).out| <= max.value + 1 {
      assert fed == data[..end];
    }
  }

  /** Read a body of at most `max` bytes, in reads of any size. */
  method ReadCapped(wire: Bytes, max: nat) returns (r: Outcome<Bytes>)
    ensures r == if |wire| <= max then Whole(wire) else Oversized(TooLarge(WireBodyLimit, wire[..max], max + 1, None, false))
  {
    var chunks: Bytes := [];
    while |chunks| < |wire|
      invariant |chunks| <= |wire| && chunks == wire[..|chunks|] && |chunks| <= max
      decreases |wire| - |chunks|
    {
      var most := if CHUNK <= max - |chunks| + 1 then CHUNK else max - |chunks| + 1;
      var size: nat :| 0 < size <= most && |chunks| + size <= |wire|;
      var chunk := wire[|chunks|..|chunks| + size];
      if |chunks| + size > max {
        assert chunks + chunk[..max - |chunks|] == wire[..max];
        return Oversized(TooLarge(WireBodyLimit, chunks + chunk[..max - |chunks|], |chunks| + size, None, false));
      }
      chunks := chunks + chunk;
    }
    assert wire[..|wire|] == wire;
    r := Whole(chunks);
  }

  datatype Encoding = Identity | Gzip | Deflate | Unknown

  /** The three decompressors used: gzip, zlib and raw deflate. */
  datatype Codecs = Codecs(gzip: Codec, zlib: Codec, raw: Codec)

  ghost predicate AllStreaming(c: Codecs) {
    Streaming(c.gzip) && Streaming(c.zlib) && Streaming(c.raw)
  }

  function Sized(data: Bytes, max: nat): Outcome<Bytes> {
    if |data| > max then Oversized(TooLarge(DecodedBodyLimit, data[..max], |data|, None, false)) else Whole(data)
  }

  /** The decoded content; what cannot be decoded stays as it is. */
  ghost function Content(c: Codecs, data: Bytes, encoding: Encoding, max: nat): Outcome<Bytes> {
    if data == [] || encoding == Identity || encoding == Unknown then Sized(data, max)
    else if encoding == Gzip then OrAsIs(Decoded(c.gzip, data, Some(max)), data, max)
    else if Decoded(c.zlib, data, Some(max)) == BadStream then OrAsIs(Decoded(c.raw, data, Some(max)), data, max)
    else Decoded(c.zlib, data, Some(max))
  }

  function OrAsIs(r: Outcome<Bytes>, data: Bytes, max: nat): Outcome<Bytes> {
    if r == BadStream then Sized(data, max) else r
  }

  method DecodeContent(c: Codecs, data: Bytes, encoding: Encoding, max: nat) returns (r: Outcome<Bytes>)
    requires AllStreaming(c)
    ensures r == Content(c, data, encoding, max)
  {
    if data == [] || encoding == Identity || encoding == Unknown {
      return Sized(data, max);
    }
    if encoding == Gzip {
      r := DecodeZlib(c.gzip, data, Some(max));
    } else {
      r := DecodeZlib(c.zlib, data, Some(max));
      if r == BadStream {
        r := DecodeZlib(c.raw, data, Some(max));
      }
    }
    if r == BadStream {
      r := Sized(data, max);
    }
  }

  /** What a response yields, by its wire bytes alone. */
  ghost function Response(c: Codecs, wire: Bytes, declared: Option<int>, encoding: Encoding, max: nat): Outcome<Bytes> {
    if declared.Some? && declared.value > max then Oversized(TooLarge(DeclaredLength, [], 0, None, false))
    else if |wire| > max then Oversized(TooLarge(WireBodyLimit, wire[..max], max + 1, None, false))
    else
      match Content(c, wire, encoding, max)
      case Oversized(e) => Oversized(TooLarge(DecodedBodyLimit, wire, |wire|, Some(e.observed), true))
      case other => other
  }

  /** Read and decode a response body; on overflow keep the wire bytes as evidence. */
  method BoundedResponse(c: Codecs, wire: Bytes, declared: Option<int>, encoding: Encoding, max: nat) returns (r: Outcome<Bytes>)
    requires AllStreaming(c)
    ensures r == Response(c, wire, declared, encoding, max)
  {
    if declared.Some? && declared.value > max {
      return Oversized(TooLarge(DeclaredLength, [], 0, None, false));
    }
    r := ReadCapped(wire, max);
    if r.Oversized? {
      return;
    }
    var raw := r.value;
    r := DecodeContent(c, raw, encoding, max);
    if r.Oversized? {
      r := Oversized(TooLarge(DecodedBodyLimit, raw, |raw|, Some(r.error.observed), true));
    }
  }

  /** A response yields at most `max` bytes or evidence: always a prefix of the wire
      bytes, and complete exactly when it says so. Neither is ever a bad stream. */
  lemma ResponseIsBounded(c: Codecs, wire: Bytes, declared: Option<int>, encoding: Encoding, max: nat)
    requires AllStreaming(c)
    ensures var r := Response(c, wire, declared, encoding, max);
            && r != BadStream
            && (r.Whole? ==> |r.value| <= max)
            && (r.Oversized? ==> r.error.prefix <= wire && |r.error.prefix| <= max)
            && (r.Oversized? && r.error.wireComplete ==> r.error.prefix == wire && r.error.decoded.Some? && r.error.decoded.value > max)
            && (r.Oversized? && !r.error.wireComplete && r.error.reason != DeclaredLength ==> r.error.prefix < wire && r.error.observed > max)
  {
    if |wire| <= max {
      DecodedIsBounded(c.gzip, wire, max);
      DecodedIsBounded(c.zlib, wire, max);
      DecodedIsBounded(c.raw, wire, max);
    }
  }

  lemma DecodedIsBounded(c: Codec, data: Bytes, max: nat)
    ensures var r := Decoded(c, data, Some(max));
            && (r.Whole? ==> |r.value| <= max) && (r.Oversized? ==> r.error.observed > max)
  {
  }

  /** A well-formed gzip body is returned decoded exactly when its output is within the
      cap; nothing is lost at the chunk boundaries. */
  lemma WithinCap(c: Codecs, wire: Bytes, max: nat)
    requires AllStreaming(c) && wire != [] && |wire| <= max && !c.gzip(wire).broken
    ensures Response(c, wire, None, Gzip, max) == Whole(c.gzip(wire).out) <==> |c.gzip(wire).out| <= max
  {
    DecodedIsBounded(c.gzip, wire, max);
  }

  /** A malformed gzip body is returned as it is when its output up to the malformed
      place is within the cap. One byte over the cap, it still is, if that byte comes out
      of the chunk with the malformed place; two bytes over, it never is. */
  lemma MalformedAsIs(c: Codecs, wire: Bytes, max: nat)
    requires AllStreaming(c) && wire != [] && |wire| <= max && c.gzip(wire).broken
    ensures var n, r := |c.gzip(wire).out|, Response(c, wire, None, Gzip, max);
            && (n <= max ==> r == Whole(wire))
            && (n > max + 1 ==> r.Oversized?)
            && (n == max + 1 ==> (r == Whole(wire) <==>
                  forall k: nat | IsCut(wire, k) && |c.gzip(wire[..k]).out| > max :: c.gzip(wire[..k]).broken))
  {
    forall k: nat | k <= |wire| ensures |c.gzip(wire[..k]).out| <= |c.gzip(wire).out| {
      assert wire[..k] <= wire;
    }
  }
}
