/**
 * tools/uf2_rescue.py: turning a bootloader read-back into a flashable image.  A UF2 file is
 * a list of 512-byte blocks: eight little-endian words, up to 476 payload bytes, an end magic
 * (Microsoft UF2 specification, section "File format").
 */
module Uf2Rescue {
  import opened Bytes

  const MAGIC0: nat := 0x0A324655
  const MAGIC1: nat := 0x9E5D5157
  const MAGIC_END: nat := 0x0AB16F30
  const FAMILY_PRESENT: nat := 0x2000
  const NRF52833_FAMILY: int := 0x621E937A
  const APP_START: int := 0x27000
  const STORAGE_START: int := 0x6C000
  const BLOCK: nat := 512
  const HEADER: nat := 32
  const PAYLOAD_MAX: nat := 476

  type Word = w: nat | w < U32

  datatype Raw = Raw(flags: Word, addr: Word, payload: seq<byte>)

  /** A block as parse_blocks returns it. */
  type Block = b: Raw | |b.payload| <= PAYLOAD_MAX
    witness Raw(0, 0, [])

  datatype Fault = BadMagic | BadEndMagic | BadLength

  datatype Error =
    | BadSize                       // not a multiple of 512
    | BadBlock(index: nat, fault: Fault)
    | EmptyDump                     // min() of no addresses
    | NothingAboveAppStart
    | AllBlank
    | PackError                     // struct.pack: a field does not fit its word

  datatype Result<+T> = Ok(value: T) | Err(error: Error)

  // ------------------------------------------------------------------ words

  function Le32(w: Word): (b: seq<byte>)
    ensures |b| == 4
  {
    [(w % 256) as byte, (w / 0x100 % 256) as byte, (w / 0x1_0000 % 256) as byte, (w / 0x100_0000) as byte]
  }

  function ReadWord(b: seq<byte>, at: nat): Word
    requires at + 4 <= |b|
  {
    b[at] as nat + 0x100 * b[at + 1] as nat + 0x1_0000 * b[at + 2] as nat + 0x100_0000 * b[at + 3] as nat
  }

  lemma Digits(w: Word)
    ensures w == w % 256 + 0x100 * (w / 0x100 % 256) + 0x1_0000 * (w / 0x1_0000 % 256) + 0x100_0000 * (w / 0x100_0000)
  {
  }

  lemma WordLe32(pre: seq<byte>, w: Word, post: seq<byte>)
    ensures ReadWord(pre + Le32(w) + post, |pre|) == w
  {
    var b := pre + Le32(w) + post;
    Digits(w);
    assert b[|pre|] == Le32(w)[0] && b[|pre| + 1] == Le32(w)[1];
    assert b[|pre| + 2] == Le32(w)[2] && b[|pre| + 3] == Le32(w)[3];
  }

  function Pack(ws: seq<Word>): (b: seq<byte>)
    ensures |b| == 4 * |ws|
  {
    if ws == [] then [] else Pack(ws[..|ws| - 1]) + Le32(ws[|ws| - 1])
  }

  lemma {:induction false} WordOfPack(ws: seq<Word>, j: nat, post: seq<byte>)
    requires j < |ws|
    ensures ReadWord(Pack(ws) + post, 4 * j) == ws[j]
  {
    var init, last := ws[..|ws| - 1], ws[|ws| - 1];
    if j == |init| {
      WordLe32(Pack(init), last, post);
    } else {
      WordOfPack(init, j, Le32(last) + post);
      assert Pack(ws) + post == Pack(init) + (Le32(last) + post);
    }
  }

  /** flags | FLAG_FAMILY_PRESENT */
  function Flagged(flags: Word): (r: Word)
    ensures r / 0x2000 % 2 == 1 && (r == flags || r == flags + 0x2000)
    ensures r == flags <==> flags / 0x2000 % 2 == 1
  {
    if flags / FAMILY_PRESENT % 2 == 1 then flags else flags + FAMILY_PRESENT
  }

  // ------------------------------------------------------------------ one block

  function HeaderWords(b: Block, i: Word, total: Word, family: Word): (ws: seq<Word>)
    ensures |ws| == 8
  {
    [MAGIC0, MAGIC1, Flagged(b.flags), b.addr, |b.payload|, i, total, family]
  }

  function Encode(b: Block, i: Word, total: Word, family: Word): (c: seq<byte>)
    ensures |c| == BLOCK
  {
    Pack(HeaderWords(b, i, total, family)) + b.payload + Fill(PAYLOAD_MAX - |b.payload|, 0) + Le32(MAGIC_END)
  }

  function FaultOf(c: seq<byte>): Option<Fault>
    requires |c| == BLOCK
  {
    if ReadWord(c, 0) != MAGIC0 || ReadWord(c, 4) != MAGIC1 then Some(BadMagic)
    else if ReadWord(c, BLOCK - 4) != MAGIC_END then Some(BadEndMagic)
    else if ReadWord(c, 16) > PAYLOAD_MAX then Some(BadLength)
    else None
  }

  function Decode(c: seq<byte>): Block
    requires |c| == BLOCK && FaultOf(c) == None
  {
    Raw(ReadWord(c, 8), ReadWord(c, 12), c[HEADER..HEADER + ReadWord(c, 16)])
  }

  lemma DecodeEncode(b: Block, i: Word, total: Word, family: Word)
    ensures var c := Encode(b, i, total, family);
            FaultOf(c) == None && Decode(c) == b.(flags := Flagged(b.flags))
  {
    var ws := HeaderWords(b, i, total, family);
    var pad := Fill(PAYLOAD_MAX - |b.payload|, 0);
    var c := Encode(b, i, total, family);
    var post := b.payload + pad + Le32(MAGIC_END);
    assert c == Pack(ws) + post;
    WordOfPack(ws, 0, post);
    WordOfPack(ws, 1, post);
    WordOfPack(ws, 2, post);
    WordOfPack(ws, 3, post);
    WordOfPack(ws, 4, post);
    WordLe32(Pack(ws) + b.payload + pad, MAGIC_END, []);
    assert c == Pack(ws) + b.payload + pad + Le32(MAGIC_END) + [];
    assert c[HEADER..HEADER + |b.payload|] == b.payload;
  }

  // ------------------------------------------------------------------ whole files

  /** The whole blocks of data, the first of them numbered `index`. */
  function ParseFrom(data: seq<byte>, index: nat): Result<seq<Block>> {
    if |data| < BLOCK then Ok([])
    else
      var c := data[..BLOCK];
      match FaultOf(c)
      case Some(fault) => Err(BadBlock(index, fault))
      case None => Cons(Decode(c), ParseFrom(data[BLOCK..], index + 1))
  }

  function Cons(b: Block, rest: Result<seq<Block>>): Result<seq<Block>> {
    match rest
    case Ok(bs) => Ok([b] + bs)
    case Err(_) => rest
  }

  function Parse(data: seq<byte>): Result<seq<Block>> {
    if |data| % BLOCK != 0 then Err(BadSize) else ParseFrom(data, 0)
  }

  /** The blocks numbered from `from` of an image of `total`. */
  function ImageFrom(bs: seq<Block>, from: nat, total: Word, family: Word): (data: seq<byte>)
    requires from + |bs| <= total
    ensures |data| == BLOCK * |bs|
  {
    if bs == [] then [] else Encode(bs[0], from, total, family) + ImageFrom(bs[1..], from + 1, total, family)
  }

  function Image(bs: seq<Block>, family: Word): (data: seq<byte>)
    requires |bs| < U32
    ensures |data| == BLOCK * |bs|
  {
    ImageFrom(bs, 0, |bs|, family)
  }

  function Tagged(b: Block): Block {
    b.(flags := Flagged(b.flags))
  }

  function AllTagged(bs: seq<Block>): seq<Block> {
    if bs == [] then [] else [Tagged(bs[0])] + AllTagged(bs[1..])
  }

  lemma ParseGoodFirst(c: seq<byte>, tail: seq<byte>, index: nat)
    requires |c| == BLOCK && FaultOf(c) == None
    ensures ParseFrom(c + tail, index) == Cons(Decode(c), ParseFrom(tail, index + 1))
  {
    hide FaultOf, Decode;
    assert (c + tail)[..BLOCK] == c && (c + tail)[BLOCK..] == tail;
  }

  lemma {:induction false} ParseImageFrom(bs: seq<Block>, from: nat, total: Word, family: Word)
    requires from + |bs| <= total
    ensures ParseFrom(ImageFrom(bs, from, total, family), from) == Ok(AllTagged(bs))
  {
    if bs == [] {
    } else {
      hide ParseFrom, Encode, FaultOf, Decode, Flagged;
      ParseImageFrom(bs[1..], from + 1, total, family);
      DecodeEncode(bs[0], from, total, family);
      ParseGoodFirst(Encode(bs[0], from, total, family), ImageFrom(bs[1..], from + 1, total, family), from);
    }
  }

  /** Parsing an image gives its blocks back, with the family flag set. */
  lemma ParseImage(bs: seq<Block>, family: Word)
    requires |bs| < U32
    ensures Parse(Image(bs, family)) == Ok(AllTagged(bs))
  {
    hide ParseFrom, ImageFrom, AllTagged;
    ParseImageFrom(bs, 0, |bs|, family);
  }

  function Chunk(data: seq<byte>, k: nat): (c: seq<byte>)
    requires BLOCK * k + BLOCK <= |data|
    ensures |c| == BLOCK
  {
    data[BLOCK * k..BLOCK * k + BLOCK]
  }

  predicate GoodChunk(data: seq<byte>, k: nat)
    requires BLOCK * k + BLOCK <= |data|
  {
    FaultOf(Chunk(data, k)) == None
  }

  /** What the bootloader checks beyond the contents: each block's number, the block count, the
      family, and zero padding after the payload. */
  ghost predicate Stamped(c: seq<byte>, b: Block, i: Word, total: Word, family: Word)
    requires |c| == BLOCK
  {
    && FaultOf(c) == None && Decode(c) == Tagged(b)
    && ReadWord(c, 20) == i && ReadWord(c, 24) == total && ReadWord(c, 28) == family
    && forall j :: HEADER + |b.payload| <= j < BLOCK - 4 ==> c[j] == 0
  }

  lemma EncodeStamps(b: Block, i: Word, total: Word, family: Word)
    ensures Stamped(Encode(b, i, total, family), b, i, total, family)
  {
    hide FaultOf, Decode, ReadWord;
    var ws := HeaderWords(b, i, total, family);
    var post := b.payload + Fill(PAYLOAD_MAX - |b.payload|, 0) + Le32(MAGIC_END);
    assert Encode(b, i, total, family) == Pack(ws) + post;
    WordOfPack(ws, 5, post);
    WordOfPack(ws, 6, post);
    WordOfPack(ws, 7, post);
    DecodeEncode(b, i, total, family);
  }

  lemma {:induction false} ImageFromStamps(bs: seq<Block>, from: nat, total: Word, family: Word, k: nat)
    requires from + |bs| <= total && k < |bs|
    ensures Stamped(Chunk(ImageFrom(bs, from, total, family), k), bs[k], from + k, total, family)
  {
    hide Encode, Stamped;
    var c, tail := Encode(bs[0], from, total, family), ImageFrom(bs[1..], from + 1, total, family);
    if k == 0 {
      assert Chunk(c + tail, 0) == c;
      EncodeStamps(bs[0], from, total, family);
    } else {
      assert Chunk(c + tail, k) == Chunk(tail, k - 1);
      ImageFromStamps(bs[1..], from + 1, total, family, k - 1);
    }
  }

  /** Block k of an image is the k-th block given, numbered k of their count. */
  lemma ImageStamps(bs: seq<Block>, family: Word, k: nat)
    requires |bs| < U32 && k < |bs|
    ensures Stamped(Chunk(Image(bs, family), k), bs[k], k, |bs|, family)
  {
    hide ImageFrom, Stamped;
    ImageFromStamps(bs, 0, |bs|, family, k);
  }

  /** The blocks of `n` chunks, all good; or the first bad one. */
  ghost predicate Explains(data: seq<byte>, n: nat, index: nat, r: Result<seq<Block>>)
    requires |data| == BLOCK * n
  {
    match r
    case Ok(bs) =>
      |bs| == n && forall k :: 0 <= k < n ==> GoodChunk(data, k) && bs[k] == Decode(Chunk(data, k))
    case Err(BadBlock(i, fault)) =>
      && index <= i < index + n && FaultOf(Chunk(data, i - index)) == Some(fault)
      && forall k :: 0 <= k < i - index ==> GoodChunk(data, k)
    case Err(_) => false
  }

  /** parse_blocks returns the block at each position, or names the first malformed block and
      what is wrong with it. */
  lemma {:induction false} ParseMeaning(data: seq<byte>, n: nat, index: nat)
    requires |data| == BLOCK * n
    ensures Explains(data, n, index, ParseFrom(data, index))
  {
    if n == 0 {
    } else {
      hide FaultOf, Decode, ParseFrom;
      var rest := data[BLOCK..];
      ParseMeaning(rest, n - 1, index + 1);
      assert Chunk(data, 0) == data[..BLOCK];
      assert forall k :: 0 <= k < n - 1 ==> Chunk(data, k + 1) == Chunk(rest, k);
      Explained(data, n, index);
    }
  }

  lemma Explained(data: seq<byte>, n: nat, index: nat)
    requires n > 0 && |data| == BLOCK * n
    requires Chunk(data, 0) == data[..BLOCK]
    requires forall k :: 0 <= k < n - 1 ==> Chunk(data, k + 1) == Chunk(data[BLOCK..], k)
    requires Explains(data[BLOCK..], n - 1, index + 1, ParseFrom(data[BLOCK..], index + 1))
    ensures Explains(data, n, index, ParseFrom(data, index))
  {
    hide FaultOf, Decode;
    var r := ParseFrom(data, index);
    if r.Ok? {
      forall k | 0 <= k < n ensures GoodChunk(data, k) && r.value[k] == Decode(Chunk(data, k)) {
        if k > 0 { assert Chunk(data, (k - 1) + 1) == Chunk(data[BLOCK..], k - 1); }
      }
    } else if r.error.index > index {
      var i := r.error.index - index;
      assert FaultOf(data[..BLOCK]) == None;
      assert Chunk(data, (i - 1) + 1) == Chunk(data[BLOCK..], i - 1);
      forall k | 0 <= k < i ensures GoodChunk(data, k) {
        if k > 0 { assert GoodChunk(data[BLOCK..], k - 1) && Chunk(data, (k - 1) + 1) == Chunk(data[BLOCK..], k - 1); }
      }
    }
  }

  // ------------------------------------------------------------------ the two loops

  function Prepend(done: seq<Block>, rest: Result<seq<Block>>): Result<seq<Block>> {
    match rest
    case Ok(bs) => Ok(done + bs)
    case Err(_) => rest
  }

  lemma PrependCons(done: seq<Block>, b: Block, rest: Result<seq<Block>>)
    ensures Prepend(done, Cons(b, rest)) == Prepend(done + [b], rest)
  {
    if rest.Ok? { assert done + ([b] + rest.value) == done + [b] + rest.value; }
  }

  lemma PrependUnits(done: seq<Block>, rest: Result<seq<Block>>)
    ensures Prepend([], rest) == rest && Prepend(done, Ok([])) == Ok(done)
  {
    if rest.Ok? { assert [] + rest.value == rest.value; }
    assert done + [] == done;
  }

  lemma ParseStep(data: seq<byte>, i: nat)
    requires BLOCK * i + BLOCK <= |data|
    ensures ParseFrom(data[BLOCK * i..], i)
         == match FaultOf(Chunk(data, i))
            case Some(fault) => Err(BadBlock(i, fault))
            case None => Cons(Decode(Chunk(data, i)), ParseFrom(data[BLOCK * (i + 1)..], i + 1))
  {
    hide FaultOf, Decode, Cons;
    var d := data[BLOCK * i..];
    assert d[..BLOCK] == Chunk(data, i);
    assert d[BLOCK..] == data[BLOCK * (i + 1)..];
  }

  method ParseBlocks(data: seq<byte>) returns (r: Result<seq<Block>>)
    ensures r == Parse(data)
  {
    hide ParseFrom, FaultOf, Decode, Cons;
    if |data| % BLOCK != 0 { return Err(BadSize); }
    var out: seq<Block> := [];
    var n := |data| / BLOCK;
    assert data[BLOCK * 0..] == data;
    PrependUnits([], ParseFrom(data, 0));
    for i := 0 to n
      invariant ParseFrom(data, 0) == Prepend(out, ParseFrom(data[BLOCK * i..], i))
    {
      var c := Chunk(data, i);
      ParseStep(data, i);
      var fault := FaultOf(c);
      if fault.Some? { return Err(BadBlock(i, fault.value)); }
      PrependCons(out, Decode(c), ParseFrom(data[BLOCK * (i + 1)..], i + 1));
      out := out + [Decode(c)];
    }
    ParseNothing(data[BLOCK * n..], n);
    PrependUnits(out, Ok([]));
    return Ok(out);
  }

  lemma ParseNothing(data: seq<byte>, index: nat)
    requires |data| < BLOCK
    ensures ParseFrom(data, index) == Ok([])
  {
  }

  /** build(): struct.pack refuses a word out of range, which only a block can make it see. */
  function Built(bs: seq<Block>, family: int): (r: Result<seq<byte>>)
    ensures r.Ok? <==> bs == [] || (0 <= family < 0x1_0000_0000 && |bs| < 0x1_0000_0000)
    ensures r.Err? ==> r.error == PackError
  {
    if bs == [] then Ok([])
    else if 0 <= family < U32 && |bs| < U32 then Ok(Image(bs, family))
    else Err(PackError)
  }

  method Build(blocks: seq<Block>, family: int) returns (r: Result<seq<byte>>)
    ensures r == Built(blocks, family)
  {
    hide Encode;
    var total := |blocks|;
    var out: seq<byte> := [];
    for i := 0 to total
      invariant if i == 0 then out == [] else 0 <= family < U32 && total < U32
      invariant 0 <= family < U32 && total < U32 ==>
                  ImageFrom(blocks, 0, total, family) == out + ImageFrom(blocks[i..], i, total, family)
    {
      if !(0 <= family < U32) || total >= U32 { return Err(PackError); }
      assert blocks[i..][1..] == blocks[i + 1..];
      out := out + Encode(blocks[i], i, total, family);
    }
    if total > 0 { assert ImageFrom(blocks[total..], total, total, family) == [] && out + [] == out; }
    return Ok(out);
  }

  // ------------------------------------------------------------------ the filters

  datatype Options = Options(withSoftdevice: bool, includeStorage: bool, family: int, appStart: int, storageStart: int)

  const DEFAULTS := Options(false, false, NRF52833_FAMILY, APP_START, STORAGE_START)

  /** not payload.strip(0xFF) */
  predicate Blank(b: Block) {
    forall i :: 0 <= i < |b.payload| ==> b.payload[i] as int == U8_MAX
  }

  /** A block the options ask for. */
  predicate Wanted(b: Block, o: Options) {
    (o.withSoftdevice || b.addr >= o.appStart) && (o.includeStorage || b.addr < o.storageStart)
  }

  predicate Survives(b: Block, o: Options) {
    Wanted(b, o) && !Blank(b)
  }

  function Filter(p: Block -> bool, bs: seq<Block>): (kept: seq<Block>)
    ensures |kept| <= |bs|
    ensures forall k :: 0 <= k < |kept| ==> p(kept[k])
  {
    if bs == [] then []
    else
      var init, last := bs[..|bs| - 1], bs[|bs| - 1];
      if p(last) then Filter(p, init) + [last] else Filter(p, init)
  }

  function Rescue(data: seq<byte>, o: Options): Result<seq<byte>> {
    match Parse(data)
    case Err(e) => Err(e)
    case Ok(blocks) =>
      if blocks == [] then Err(EmptyDump)
      else
        var app := if o.withSoftdevice then blocks else Filter((b: Block) => b.addr >= o.appStart, blocks);
        if app == [] then Err(NothingAboveAppStart)
        else
          var kept := if o.includeStorage then app else Filter((b: Block) => b.addr < o.storageStart, app);
          var trimmed := Filter((b: Block) => !Blank(b), kept);
          if trimmed == [] then Err(AllBlank) else Built(trimmed, o.family)
  }

  method RescueFile(data: seq<byte>, o: Options) returns (r: Result<seq<byte>>)
    ensures r == Rescue(data, o)
  {
    hide Parse, Built, Filter;
    var parsed := ParseBlocks(data);
    if parsed.Err? { return Err(parsed.error); }
    var kept := parsed.value;
    if kept == [] { return Err(EmptyDump); }
    if !o.withSoftdevice {
      kept := Filter((b: Block) => b.addr >= o.appStart, kept);
      if kept == [] { return Err(NothingAboveAppStart); }
    }
    if !o.includeStorage {
      kept := Filter((b: Block) => b.addr < o.storageStart, kept);
    }
    var trimmed := Filter((b: Block) => !Blank(b), kept);
    if trimmed == [] { return Err(AllBlank); }
    r := Build(trimmed, o.family);
  }
}
