/**
  What the loader refuses: another header, negative integers, unknown constants, and
  functions that fail the check.
 */
module ChunkRefused {
  import opened Common
  import opened Chunk
  import opened ChunkLayout

  /** Twelve other bytes are no header. */
  lemma HeaderRefused(b: Bytes, check: Check)
    ensures |b| < 12 ==> LoadChunk(b, check) == Err(UnexpectedEnd)
    ensures |b| >= 12 && !HeaderLies(b) ==> LoadChunk(b, check) == Err(BadHeader)
  {
    if |b| >= 12 && b[..12] == Header {
      assert b[..12] == b[0..12];
      HeaderStands(b);
    }
  }

  /** An integer with the sign bit. */
  lemma IntRefused(b: Bytes)
    ensures |b| < 4 ==> LoadInt(b) == Err(UnexpectedEnd)
    ensures |b| >= 4 && b[3] >= 128 ==> LoadInt(b) == Err(BadInteger)
  {
    if |b| >= 4 { LastDigit(b[..4]); }
  }

  lemma LastDigit(d: Bytes)
    requires |d| == 4
    ensures var d0: int, d1: int, d2: int, d3: int := d[0], d[1], d[2], d[3];
      FromLittle(d) == d0 + 256 * (d1 + 256 * (d2 + 256 * d3))
  {
    var r1, r2, r3 := d[1..], d[2..], d[3..];
    assert r1[1..] == r2 && r2[1..] == r3 && r3[1..] == [];
    assert FromLittle(r3) == r3[0];
    assert FromLittle(r2) == r2[0] + 256 * FromLittle(r3);
    assert FromLittle(r1) == r1[0] + 256 * FromLittle(r2);
  }

  /** A tag that stands for no constant. */
  lemma ConstRefused(b: Bytes)
    ensures b == [] ==> LoadConst(b) == Err(UnexpectedEnd)
    ensures b != [] && b[0] !in {0, 1, 3, 4} ==> LoadConst(b) == Err(BadConstant)
  {
  }

  lemma Passed(b: Bytes, parent: Option<Bytes>, check: Check)
    ensures var r := LoadFunction(b, parent, check); r.Ok? ==> check(r.v)
  {
  }

  /** A chunk that is loaded has the header, and its function has passed the check. */
  lemma ChunkChecked(b: Bytes, check: Check)
    ensures var r := LoadChunk(b, check); r.Ok? ==> HeaderLies(b) && check(r.v)
  {
    HeaderRefused(b, check);
    if |b| >= 12 { Passed(b[12..], Unknown, check); }
  }
}
