/** The packed reading record shared by the daemon and its clients: five 4-byte fields
    `idx`, `gap`, `x`, `y`, `z` with no padding. The float fields are carried as their
    IEEE 754 binary32 bit patterns; the byte view assumes a little-endian host, and the
    clients read it back with the struct layout '<IIfff'. */
module AccelRecord {
  import opened Wrappers
  import opened Bytes
  import opened Seqs

  /** size_of::<AccelData>() for the packed layout. */
  const RECORD_SIZE: nat := 20

  /** A three-component float vector, as bit patterns. */
  datatype F32x3 = F32x3(x: u32, y: u32, z: u32)

  /** One reading: sensor index, microseconds since the previous reading of that sensor
      (0 for the first one), and the three acceleration components. */
  datatype AccelData = AccelData(idx: u32, gap: u32, x: u32, y: u32, z: u32)

  /** The conversion from an (index, gap, vector) triple. */
  function FromTriple(idx: u32, gap: u32, v: F32x3): (r: AccelData)
    ensures r.idx == idx && r.gap == gap
    ensures F32x3(r.x, r.y, r.z) == v
  {
    AccelData(idx, gap, v.x, v.y, v.z)
  }

  /** The five 4-byte fields of a record in declaration order. */
  function Fields(r: AccelData): (ws: seq<u32>)
    ensures |ws| == 5
  {
    [r.idx, r.gap, r.x, r.y, r.z]
  }

  /** The in-memory bytes of a record on a little-endian host: byte k is byte k % 4
      of field k / 4. */
  function AsBytes(r: AccelData): (bs: seq<u8>)
    ensures |bs| == RECORD_SIZE
  {
    seq(RECORD_SIZE, (k: int) requires 0 <= k < RECORD_SIZE => Octet(Fields(r)[k / 4], k % 4))
  }

  /** The word stored at byte offset k of a chunk. */
  function WordAt(bs: seq<u8>, k: nat): u32
    requires k + 4 <= |bs|
  {
    FromLittleEndian(bs[k], bs[k + 1], bs[k + 2], bs[k + 3])
  }

  /** struct.unpack('<IIfff', bs): five little-endian 4-byte fields in a 20-byte chunk;
      any other length is an unpack error. */
  function Unpack(bs: seq<u8>): (r: Option<AccelData>)
    ensures r.Some? <==> |bs| == RECORD_SIZE
  {
    if |bs| != RECORD_SIZE then None
    else Some(AccelData(WordAt(bs, 0), WordAt(bs, 4), WordAt(bs, 8), WordAt(bs, 12), WordAt(bs, 16)))
  }

  /** Field i of a record sits, little-endian, at byte offset 4 i of its bytes. */
  lemma WordAtAsBytes(r: AccelData, i: nat)
    requires i < 5
    ensures WordAt(AsBytes(r), 4 * i) == Fields(r)[i]
  {
    var bs, w := AsBytes(r), Fields(r)[i];
    assert (4 * i) / 4 == i && (4 * i) % 4 == 0;
    assert (4 * i + 1) / 4 == i && (4 * i + 1) % 4 == 1;
    assert (4 * i + 2) / 4 == i && (4 * i + 2) % 4 == 2;
    assert (4 * i + 3) / 4 == i && (4 * i + 3) % 4 == 3;
    assert bs[4 * i] == Octet(w, 0);
    assert bs[4 * i + 1] == Octet(w, 1);
    assert bs[4 * i + 2] == Octet(w, 2);
    assert bs[4 * i + 3] == Octet(w, 3);
    FromLittleEndianOfBytes(w);
  }

  /** Decoding the bytes of a record with '<IIfff' recovers every field. */
  lemma UnpackAsBytes(r: AccelData)
    ensures Unpack(AsBytes(r)) == Some(r)
  {
    WordAtAsBytes(r, 0);
    WordAtAsBytes(r, 1);
    WordAtAsBytes(r, 2);
    WordAtAsBytes(r, 3);
    WordAtAsBytes(r, 4);
  }

  /** Bytes k .. k + 3 of a chunk are the little-endian bytes of the word at offset k. */
  lemma BytesOfWordAt(bs: seq<u8>, k: nat, j: nat)
    requires k + 4 <= |bs| && j < 4
    ensures Octet(WordAt(bs, k), j) == bs[k + j]
  {
    BytesOfFromLittleEndian(bs[k], bs[k + 1], bs[k + 2], bs[k + 3]);
    assert LittleEndian(WordAt(bs, k))[j] == Octet(WordAt(bs, k), j);
  }

  /** Every 20-byte chunk is the encoding of the record it unpacks to. */
  lemma AsBytesUnpack(bs: seq<u8>)
    requires |bs| == RECORD_SIZE
    ensures AsBytes(Unpack(bs).value) == bs
  {
    var r := Unpack(bs).value;
    forall k | 0 <= k < RECORD_SIZE
      ensures AsBytes(r)[k] == bs[k]
    {
      assert Fields(r)[k / 4] == WordAt(bs, 4 * (k / 4));
      BytesOfWordAt(bs, 4 * (k / 4), k % 4);
    }
  }

  /** The byte stream of a sequence of records, one after another. */
  function EncodeAll(rs: seq<AccelData>): (bs: seq<u8>)
    ensures |bs| == RECORD_SIZE * |rs|
  {
    if rs == [] then [] else EncodeAll(rs[..|rs| - 1]) + AsBytes(rs[|rs| - 1])
  }

  lemma {:induction false} EncodeAllAppend(a: seq<AccelData>, b: seq<AccelData>)
    ensures EncodeAll(a + b) == EncodeAll(a) + EncodeAll(b)
    decreases |b|
  {
    if b == [] {
      assert a + b == a;
    } else {
      var b' := b[..|b| - 1];
      assert (a + b)[..|a + b| - 1] == a + b';
      assert (a + b)[|a + b| - 1] == b[|b| - 1];
      EncodeAllAppend(a, b');
      Assoc(EncodeAll(a), EncodeAll(b'), AsBytes(b[|b| - 1]));
    }
  }

  /** Record i of a stream occupies bytes 20 i .. 20 i + 20 and unpacks to that record. */
  lemma {:induction false} EncodeAllRecordAt(rs: seq<AccelData>, i: nat)
    requires i < |rs|
    ensures EncodeAll(rs)[RECORD_SIZE * i..RECORD_SIZE * i + RECORD_SIZE] == AsBytes(rs[i])
    ensures Unpack(EncodeAll(rs)[RECORD_SIZE * i..RECORD_SIZE * i + RECORD_SIZE]) == Some(rs[i])
  {
    EncodeAllAppend(rs[..i], rs[i..]);
    assert rs == rs[..i] + rs[i..];
    EncodeAllAppend([rs[i]], rs[i + 1..]);
    assert rs[i..] == [rs[i]] + rs[i + 1..];
    assert EncodeAll([rs[i]]) == AsBytes(rs[i]);
    UnpackAsBytes(rs[i]);
  }
}
