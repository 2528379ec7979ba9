/**
 The device-readable bytes of an ioctl that carries a `v4l2_buffer` or a `v4l2_ext_controls`: how
 the driver lays them out, and how the device reads them back. Structures are raw little-endian
 memory, as both sides treat them; only the fields that steer the layout are given a meaning.
 */
module WireFormat {
  import opened Prelude

  type Byte = b: int | 0 <= b < 0x100

  type Bytes = seq<Byte>

  const BUFFER_SIZE: nat := 88
  const PLANE_SIZE: nat := 64
  const CONTROLS_SIZE: nat := 32
  const CONTROL_SIZE: nat := 20
  const SG_SIZE: nat := 16

  const MEMORY_USERPTR: nat := 2
  const MEMORY_DMABUF: nat := 4
  const LAST_QUEUE: nat := 14
  const U64_END: nat := 0x1_0000_0000_0000_0000

  // ----- little-endian numbers

  function Power(k: nat): (r: nat)
    ensures r > 0
  {
    if k == 0 then 1 else 0x100 * Power(k - 1)
  }

  function Decode(bs: Bytes): (n: nat) {
    if bs == [] then 0 else bs[0] + 0x100 * Decode(bs[1..])
  }

  function Encode(n: nat, k: nat): (bs: Bytes)
    ensures |bs| == k
  {
    if k == 0 then [] else [n % 0x100] + Encode(n / 0x100, k - 1)
  }

  lemma {:induction false} DecodeEncode(n: nat, k: nat)
    requires n < Power(k)
    ensures Decode(Encode(n, k)) == n
  {
    if k > 0 {
      DecodeEncode(n / 0x100, k - 1);
      assert Encode(n, k)[1..] == Encode(n / 0x100, k - 1);
    }
  }

  /** Little-endian: each further byte weighs 256 times as much as the one before it. */
  lemma {:induction false} DecodeSnoc(bs: Bytes, x: Byte)
    ensures Decode(bs + [x]) == Decode(bs) + x * Power(|bs|)
  {
    if bs == [] {
      assert bs + [x] == [x];
    } else {
      DecodeSnoc(bs[1..], x);
      assert (bs + [x])[1..] == bs[1..] + [x];
      assert Decode(bs + [x]) == bs[0] + 0x100 * (Decode(bs[1..]) + x * Power(|bs| - 1));
    }
  }

  lemma PowersOfTwo()
    ensures Power(4) == U32_END && Power(8) == U64_END
  {
    assert Power(1) == 0x100 && Power(2) == 0x1_0000;
    assert Power(3) == 0x100_0000;
    assert Power(4) == U32_END;
    assert Power(5) == 0x100 * U32_END;
    assert Power(6) == 0x1_0000 * U32_END;
    assert Power(7) == 0x100_0000 * U32_END;
  }

  function Field(s: Bytes, at: nat, width: nat): (n: nat)
    requires at + width <= |s|
  {
    Decode(s[at..at + width])
  }

  function SetField(s: Bytes, at: nat, width: nat, n: nat): (r: Bytes)
    requires at + width <= |s|
    ensures |r| == |s|
  {
    s[..at] + Encode(n, width) + s[at + width..]
  }

  lemma FieldAfterSet(s: Bytes, at: nat, width: nat, n: nat)
    requires at + width <= |s| && n < Power(width)
    ensures Field(SetField(s, at, width, n), at, width) == n
  {
    assert SetField(s, at, width, n)[at..at + width] == Encode(n, width);
    DecodeEncode(n, width);
  }

  // ----- struct v4l2_buffer and struct v4l2_plane

  type RawBuffer = s: Bytes | |s| == BUFFER_SIZE witness seq(BUFFER_SIZE, _ => 0)

  type RawPlane = s: Bytes | |s| == PLANE_SIZE witness seq(PLANE_SIZE, _ => 0)

  function TypeOf(b: RawBuffer): (n: nat) { Field(b, 4, 4) }

  function MemoryOf(b: RawBuffer): (n: nat) { Field(b, 60, 4) }

  function UserptrOf(b: RawBuffer): (n: nat) { Field(b, 64, 8) }

  function LengthOf(b: RawBuffer): (n: nat) { Field(b, 72, 4) }

  function PlaneLength(p: RawPlane): (n: nat) { Field(p, 4, 4) }

  function PlaneUserptr(p: RawPlane): (n: nat) { Field(p, 8, 8) }

  predicate IsMultiplanar(queueType: nat) {
    queueType == 9 || queueType == 10
  }

  predicate IsQueue(queueType: nat) {
    1 <= queueType <= LAST_QUEUE
  }

  // ----- scatter-gather entries of user memory

  datatype SgEntry = SgEntry(start: nat, len: nat)

  predicate SgFits(e: SgEntry) {
    e.start < U64_END && e.len < U32_END
  }

  function EncodeSg(e: SgEntry): (bs: Bytes)
    ensures |bs| == SG_SIZE
  {
    Encode(e.start, 8) + Encode(e.len, 4) + Encode(0, 4)
  }

  function DecodeSg(bs: Bytes): (e: SgEntry)
    requires |bs| == SG_SIZE
  {
    SgEntry(Field(bs, 0, 8), Field(bs, 8, 4))
  }

  lemma SgRoundTrip(e: SgEntry)
    requires SgFits(e)
    ensures DecodeSg(EncodeSg(e)) == e
    ensures Field(EncodeSg(e), 0, 8) == e.start && Field(EncodeSg(e), 8, 4) == e.len
  {
    PowersOfTwo();
    var bs := EncodeSg(e);
    assert bs[0..8] == Encode(e.start, 8);
    assert bs[8..12] == Encode(e.len, 4);
    DecodeEncode(e.start, 8);
    DecodeEncode(e.len, 4);
  }

  function EncodeSgs(es: seq<SgEntry>): (bs: Bytes)
    ensures |bs| == SG_SIZE * |es|
  {
    if es == [] then [] else EncodeSg(es[0]) + EncodeSgs(es[1..])
  }

  function TotalLen(es: seq<SgEntry>): (n: nat) {
    if es == [] then 0 else es[0].len + TotalLen(es[1..])
  }

  // ----- the device's reader

  /** `read_obj`: the next `n` bytes and what follows them. */
  function ReadObj(input: Bytes, n: nat): (r: Option<(Bytes, Bytes)>)
    ensures r.Some? <==> n <= |input|
    ensures r.Some? ==> |r.value.0| == n && input == r.value.0 + r.value.1
  {
    if n <= |input| then Some((input[..n], input[n..])) else None
  }

  lemma ReadBack(bs: Bytes, rest: Bytes)
    ensures ReadObj(bs + rest, |bs|) == Some((bs, rest))
  {
  }

  /** What `get_userptr_regions` returns: entries up to and including the one that reaches `size`. */
  function UserptrRegions(input: Bytes, taken: nat, size: nat): (r: Option<(seq<SgEntry>, Bytes)>)
    decreases |input|
  {
    if taken >= size then Some(([], input))
    else
      var (bs, rest) :- ReadObj(input, SG_SIZE);
      var e := DecodeSg(bs);
      var (es, rest') :- UserptrRegions(rest, taken + e.len, size);
      Some(([e] + es, rest'))
  }

  /** The loop itself. */
  method GetUserptrRegions(input: Bytes, size: nat) returns (r: Option<(seq<SgEntry>, Bytes)>)
    ensures r == UserptrRegions(input, 0, size)
  {
    var bytesTaken: nat, res, rest := 0, [], input;
    ghost var all := UserptrRegions(input, 0, size);
    assert all.Some? ==> [] + all.value.0 == all.value.0;
    while bytesTaken < size
      invariant match UserptrRegions(rest, bytesTaken, size)
                case None => all == None
                case Some(tail) => all == Some((res + tail.0, tail.1))
      decreases |rest|
    {
      var obj := ReadObj(rest, SG_SIZE);
      if obj.None? {
        return None;
      }
      var e := DecodeSg(obj.value.0);
      ghost var tail := UserptrRegions(obj.value.1, bytesTaken + e.len, size);
      assert tail.Some? ==> res + ([e] + tail.value.0) == (res + [e]) + tail.value.0;
      bytesTaken := bytesTaken + e.len;
      res := res + [e];
      rest := obj.value.1;
    }
    assert res + [] == res;
    r := Some((res, rest));
  }

  /** The reader stops after `es` exactly: the total reaches `size`, and no proper prefix does. */
  predicate Delimits(es: seq<SgEntry>, taken: nat, size: nat) {
    if es == [] then taken >= size
    else taken < size && Delimits(es[1..], taken + es[0].len, size)
  }

  /** Non-empty entries that add up to the length delimit themselves. */
  lemma {:induction false} ExactListsDelimit(es: seq<SgEntry>, taken: nat, size: nat)
    requires forall i :: 0 <= i < |es| ==> es[i].len > 0
    requires taken + TotalLen(es) == size
    ensures Delimits(es, taken, size)
  {
    if es != [] {
      ExactListsDelimit(es[1..], taken + es[0].len, size);
    }
  }

  /** The device recovers an entry list from its encoding, and what follows it, exactly when it is delimited. */
  lemma {:induction false} RegionsRoundTrip(es: seq<SgEntry>, taken: nat, size: nat, rest: Bytes)
    requires forall i :: 0 <= i < |es| ==> SgFits(es[i])
    ensures UserptrRegions(EncodeSgs(es) + rest, taken, size) == Some((es, rest)) <==> Delimits(es, taken, size)
    decreases |es|
  {
    var input := EncodeSgs(es) + rest;
    if es == [] {
      assert input == rest;
      if taken < size {
        var r := UserptrRegions(input, taken, size);
        assert r.Some? ==> |r.value.0| > 0;
      }
    } else {
      var tail := EncodeSgs(es[1..]) + rest;
      assert input == EncodeSg(es[0]) + tail;
      ReadBack(EncodeSg(es[0]), tail);
      SgRoundTrip(es[0]);
      RegionsRoundTrip(es[1..], taken + es[0].len, size, rest);
      if taken < size {
        var r := UserptrRegions(tail, taken + es[0].len, size);
        assert r.Some? ==> ([es[0]] + r.value.0)[1..] == r.value.0;
        assert [es[0]] + es[1..] == es;
      }
    }
  }
}
