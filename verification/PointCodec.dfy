/** Points of a static frame as ten-byte records: three big-endian 16-bit coordinates, red, green,
    blue and the blanking flag. */
module PointCodec {
  import opened Sources

  const RECORD := 10

  function HighByte(v: I16): U8 {
    (v % 0x1_0000) / 0x100
  }

  function LowByte(v: I16): U8 {
    (v % 0x1_0000) % 0x100
  }

  /** Two bytes read as a big-endian signed 16-bit number. */
  function Short(hi: U8, lo: U8): I16 {
    var u := hi * 0x100 + lo;
    if u < 0x8000 then u else u - 0x1_0000
  }

  function Record(p: Point): (b: seq<U8>)
    ensures |b| == RECORD
  {
    [HighByte(p.x), LowByte(p.x), HighByte(p.y), LowByte(p.y), HighByte(p.z), LowByte(p.z),
     p.r, p.g, p.b, if p.blanked then 1 else 0]
  }

  function Unrecord(b: seq<U8>): Point
    requires |b| == RECORD
  {
    Point(Short(b[0], b[1]), Short(b[2], b[3]), Short(b[4], b[5]), b[9] != 0, b[6], b[7], b[8])
  }

  /** The layout of a record: three coordinates, each of them as two bytes, high one first, in two's complement; then
      red, green, blue, and one for a blanked point. */
  lemma RecordLayout(p: Point)
    ensures var b := Record(p);
            p.x == (b[0] as int) * 0x100 + b[1] - (if p.x < 0 then 0x1_0000 else 0)
            && p.y == (b[2] as int) * 0x100 + b[3] - (if p.y < 0 then 0x1_0000 else 0)
            && p.z == (b[4] as int) * 0x100 + b[5] - (if p.z < 0 then 0x1_0000 else 0)
            && b[6] == p.r && b[7] == p.g && b[8] == p.b && b[9] == if p.blanked then 1 else 0
  {
    TwoBytes(p.x);
    TwoBytes(p.y);
    TwoBytes(p.z);
  }

  lemma TwoBytes(v: I16)
    ensures v == (HighByte(v) as int) * 0x100 + LowByte(v) - if v < 0 then 0x1_0000 else 0
  {
    assert v % 0x1_0000 == if v >= 0 then v else v + 0x1_0000;
  }

  /** Any other byte than zero reads as blanked, and every byte is taken from its place. */
  lemma UnrecordLayout(b: seq<U8>)
    requires |b| == RECORD
    ensures var p := Unrecord(b);
            Record(p)[..9] == b[..9] && (p.blanked <==> b[9] != 0)
  {
    BytesBack(b[0], b[1]);
    BytesBack(b[2], b[3]);
    BytesBack(b[4], b[5]);
  }

  lemma BytesBack(hi: U8, lo: U8)
    ensures HighByte(Short(hi, lo)) == hi && LowByte(Short(hi, lo)) == lo
  {
  }

  function Encode(data: seq<Point>): seq<U8> {
    if data == [] then [] else Record(data[0]) + Encode(data[1..])
  }

  /** Whole records only: a trailing part of a record is dropped. */
  function Decode(bytes: seq<U8>): seq<Point> {
    if |bytes| < RECORD then [] else [Unrecord(bytes[..RECORD])] + Decode(bytes[RECORD..])
  }

  lemma {:induction false} DecodeAt(bytes: seq<U8>)
    ensures |Decode(bytes)| == |bytes| / RECORD
    ensures forall i | 0 <= i < |bytes| / RECORD ::
              Decode(bytes)[i] == Unrecord(bytes[RECORD * i..RECORD * i + RECORD])
  {
    if |bytes| >= RECORD {
      var rest := bytes[RECORD..];
      DecodeAt(rest);
      forall i | 1 <= i < |bytes| / RECORD
        ensures Decode(bytes)[i] == Unrecord(bytes[RECORD * i..RECORD * i + RECORD])
      {
        assert rest[RECORD * (i - 1)..RECORD * (i - 1) + RECORD] == bytes[RECORD * i..RECORD * i + RECORD];
      }
    }
  }

  lemma ShortOfBytes(v: I16)
    ensures Short(HighByte(v), LowByte(v)) == v
  {
    assert v % 0x1_0000 == if v >= 0 then v else v + 0x1_0000;
  }

  /** Decoding undoes encoding for every list of points, and ignores any incomplete record after it. */
  lemma {:induction false} RoundTrip(data: seq<Point>, extra: seq<U8>)
    requires |extra| < RECORD
    ensures Decode(Encode(data) + extra) == data
  {
    if data == [] {
      assert Encode(data) + extra == extra;
    } else {
      var bytes := Encode(data) + extra;
      assert bytes[..RECORD] == Record(data[0]);
      assert bytes[RECORD..] == Encode(data[1..]) + extra;
      RoundTrip(data[1..], extra);
      ShortOfBytes(data[0].x);
      ShortOfBytes(data[0].y);
      ShortOfBytes(data[0].z);
    }
  }

  lemma {:induction false} EncodeSnoc(data: seq<Point>, p: Point)
    ensures Encode(data + [p]) == Encode(data) + Record(p)
  {
    if data == [] {
      assert data + [p] == [p];
    } else {
      assert (data + [p])[1..] == data[1..] + [p];
      EncodeSnoc(data[1..], p);
    }
  }

  /** The byte-buffer loop of StaticFrame::save. */
  method EncodePoints(data: seq<Point>) returns (b: seq<U8>)
    ensures b == Encode(data)
    ensures |b| == RECORD * |data|
    ensures Decode(b) == data
  {
    b := [];
    for i := 0 to |data|
      invariant b == Encode(data[..i]) && |b| == RECORD * i
    {
      EncodeSnoc(data[..i], data[i]);
      assert data[..i + 1] == data[..i] + [data[i]];
      b := b + Record(data[i]);
    }
    assert data[..|data|] == data;
    RoundTrip(data, []);
    assert b + [] == b;
  }

  /** The byte-buffer loop of StaticFrame::load. */
  method DecodePoints(bytes: seq<U8>) returns (data: seq<Point>)
    ensures data == Decode(bytes)
  {
    data := [];
    DecodeAt(bytes);
    for i := 0 to |bytes| / RECORD
      invariant data == Decode(bytes)[..i]
    {
      var a := RECORD * i;
      ghost var b := bytes[a..a + RECORD];
      assert forall k | 0 <= k < RECORD :: b[k] == bytes[a + k];
      data := data + [Point(Short(bytes[a], bytes[a + 1]), Short(bytes[a + 2], bytes[a + 3]),
                            Short(bytes[a + 4], bytes[a + 5]), bytes[a + 9] != 0,
                            bytes[a + 6], bytes[a + 7], bytes[a + 8])];
    }
  }
}
