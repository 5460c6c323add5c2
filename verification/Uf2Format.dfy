/**
 * The UF2 file format in bytes (Microsoft UF2 specification, section "File format"), and what
 * tools/uf2_rescue.py accepts and writes in those terms.
 */
module Uf2Format {
  import opened Bytes
  import opened Uf2Rescue

  function LittleEndian(b: seq<byte>): nat {
    if b == [] then 0 else b[0] as nat + 256 * LittleEndian(b[1..])
  }

  predicate Opens(c: seq<byte>)
    requires |c| == 512
  {
    c[..8] == [0x55, 0x46, 0x32, 0x0A, 0x57, 0x51, 0x5D, 0x9E]
  }

  predicate Closes(c: seq<byte>)
    requires |c| == 512
  {
    c[508..] == [0x30, 0x6F, 0xB1, 0x0A]
  }

  predicate Fits(c: seq<byte>)
    requires |c| == 512
  {
    LittleEndian(c[16..20]) <= 476
  }

  predicate WellFormed(c: seq<byte>)
    requires |c| == 512
  {
    Opens(c) && Closes(c) && Fits(c)
  }

  /** What is wrong with a block, the first of the three tests that it fails. */
  function Wrong(c: seq<byte>): Option<Fault>
    requires |c| == 512
  {
    if !Opens(c) then Some(BadMagic) else if !Closes(c) then Some(BadEndMagic)
    else if !Fits(c) then Some(BadLength) else None
  }

  /** `b` is what a well formed block says. */
  predicate Says(c: seq<byte>, b: Block)
    requires |c| == 512 && WellFormed(c)
  {
    && b.flags == LittleEndian(c[8..12]) && b.addr == LittleEndian(c[12..16])
    && b.payload == c[32..32 + LittleEndian(c[16..20])]
  }

  // ------------------------------------------------------------------ one block

  lemma FourBytes(c: seq<byte>, at: nat)
    requires at + 4 <= |c|
    ensures ReadWord(c, at) == LittleEndian(c[at..at + 4])
  {
    var b := c[at..at + 4];
    assert b[1..][0] == b[1] && b[2..][0] == b[2] && b[3..][0] == b[3];
    assert b[1..][1..] == b[2..] && b[2..][1..] == b[3..] && b[3..][1..] == [];
    assert LittleEndian(b[3..]) == b[3] as nat;
    assert LittleEndian(b[2..]) == b[2] as nat + 256 * LittleEndian(b[3..]);
    assert LittleEndian(b[1..]) == b[1] as nat + 256 * LittleEndian(b[2..]);
  }

  lemma SameDigits(a0: byte, a1: byte, a2: byte, a3: byte, b0: byte, b1: byte, b2: byte, b3: byte)
    requires a0 as nat + 0x100 * a1 as nat + 0x1_0000 * a2 as nat + 0x100_0000 * a3 as nat
          == b0 as nat + 0x100 * b1 as nat + 0x1_0000 * b2 as nat + 0x100_0000 * b3 as nat
    ensures a0 == b0 && a1 == b1 && a2 == b2 && a3 == b3
  {
  }

  lemma WordIs(c: seq<byte>, at: nat, b: seq<byte>, w: nat)
    requires at + 4 <= |c| && |b| == 4
    requires w == b[0] as nat + 0x100 * b[1] as nat + 0x1_0000 * b[2] as nat + 0x100_0000 * b[3] as nat
    ensures ReadWord(c, at) == w <==> c[at..at + 4] == b
  {
    if ReadWord(c, at) == w {
      SameDigits(c[at], c[at + 1], c[at + 2], c[at + 3], b[0], b[1], b[2], b[3]);
    }
  }

  /** The tests of parse_blocks, byte by byte: which blocks pass, and what is said of the others. */
  lemma AcceptedExactly(c: seq<byte>)
    requires |c| == 512
    ensures FaultOf(c) == Wrong(c) && (FaultOf(c) == None <==> WellFormed(c))
  {
    hide ReadWord;
    WordIs(c, 0, [0x55, 0x46, 0x32, 0x0A], MAGIC0);
    WordIs(c, 4, [0x57, 0x51, 0x5D, 0x9E], MAGIC1);
    WordIs(c, 508, [0x30, 0x6F, 0xB1, 0x0A], MAGIC_END);
    FourBytes(c, 16);
    assert c[..8] == c[0..4] + c[4..8] && c[508..512] == c[508..];
    if Opens(c) {
      assert c[..8][0..4] == c[0..4] && c[..8][4..8] == c[4..8];
    }
  }

  lemma DecodedFields(c: seq<byte>)
    requires |c| == 512 && WellFormed(c)
    ensures FaultOf(c) == None && Says(c, Decode(c))
  {
    hide ReadWord;
    AcceptedExactly(c);
    FourBytes(c, 8);
    FourBytes(c, 12);
    FourBytes(c, 16);
  }

  // ------------------------------------------------------------------ whole files

  function Part(data: seq<byte>, k: nat): (c: seq<byte>)
    requires 512 * k + 512 <= |data|
    ensures |c| == 512
  {
    data[512 * k..512 * k + 512]
  }

  /** What parse_blocks makes of any file: the wrong size is refused; otherwise each block says what
      was returned for it, or the first malformed one is named with what is wrong with it. */
  ghost predicate Explained(data: seq<byte>, r: Result<seq<Block>>) {
    if |data| % 512 != 0 then r == Err(BadSize)
    else
      match r
      case Ok(bs) =>
        512 * |bs| == |data| && forall k :: 0 <= k < |bs| ==> WellFormed(Part(data, k)) && Says(Part(data, k), bs[k])
      case Err(BadBlock(i, fault)) =>
        && 512 * i + 512 <= |data| && Wrong(Part(data, i)) == Some(fault)
        && forall k :: 0 <= k < i ==> WellFormed(Part(data, k))
      case Err(_) => false
  }

  lemma ParseExact(data: seq<byte>)
    ensures Explained(data, Parse(data))
  {
    if |data| % 512 == 0 {
      hide FaultOf, Decode, ParseFrom, WellFormed, Says, Wrong;
      var n := |data| / 512;
      ParseMeaning(data, n, 0);
      forall k | 0 <= k < n
        ensures Chunk(data, k) == Part(data, k)
        ensures FaultOf(Part(data, k)) == Wrong(Part(data, k))
        ensures GoodChunk(data, k) <==> WellFormed(Part(data, k))
        ensures WellFormed(Part(data, k)) ==>
                  FaultOf(Part(data, k)) == None && Says(Part(data, k), Decode(Part(data, k)))
      {
        AcceptedExactly(Part(data, k));
        if WellFormed(Part(data, k)) { DecodedFields(Part(data, k)); }
      }
    }
  }

  /** The k-th block of an image, byte by byte. */
  ghost predicate Written(c: seq<byte>, b: Block, k: nat, total: nat, family: nat)
    requires |c| == 512
  {
    && Opens(c) && Closes(c)
    && LittleEndian(c[8..12]) == (if b.flags / 0x2000 % 2 == 1 then b.flags else b.flags + 0x2000)
    && LittleEndian(c[12..16]) == b.addr && LittleEndian(c[16..20]) == |b.payload|
    && LittleEndian(c[20..24]) == k && LittleEndian(c[24..28]) == total && LittleEndian(c[28..32]) == family
    && c[32..32 + |b.payload|] == b.payload
    && forall j :: 32 + |b.payload| <= j < 508 ==> c[j] == 0
  }

  lemma ImageBytes(bs: seq<Block>, family: Word, k: nat)
    requires |bs| < 0x1_0000_0000 && k < |bs|
    ensures |Image(bs, family)| == 512 * |bs|
    ensures Written(Part(Image(bs, family), k), bs[k], k, |bs|, family)
  {
    hide Image, ReadWord;
    ImageStamps(bs, family, k);
    var c := Part(Image(bs, family), k);
    assert Chunk(Image(bs, family), k) == c;
    AcceptedExactly(c);
    DecodedFields(c);
    FourBytes(c, 16);
    FourBytes(c, 20);
    FourBytes(c, 24);
    FourBytes(c, 28);
    assert |c[32..32 + LittleEndian(c[16..20])]| == LittleEndian(c[16..20]);
  }
}
