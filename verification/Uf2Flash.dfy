/**
 * What a rescued image writes: flash contents as a function of the blocks written, and the
 * promises of tools/uf2_rescue.py about them.
 */
module Uf2Flash {
  import opened Bytes
  import opened Uf2Rescue

  const ERASED: byte := 0xFF

  // ------------------------------------------------------------------ flash contents

  predicate Covers(b: Block, a: int) {
    b.addr <= a < b.addr + |b.payload|
  }

  /** The byte at `a` of erased flash after the blocks were written in order. */
  function At(bs: seq<Block>, a: int): byte {
    if bs == [] then ERASED
    else
      var last := bs[|bs| - 1];
      if Covers(last, a) then last.payload[a - last.addr] else At(bs[..|bs| - 1], a)
  }

  predicate Apart(b: Block, c: Block) {
    b.payload == [] || c.payload == [] || b.addr + |b.payload| <= c.addr || c.addr + |c.payload| <= b.addr
  }

  ghost predicate Disjoint(bs: seq<Block>) {
    forall j, k :: 0 <= j < k < |bs| ==> Apart(bs[j], bs[k])
  }

  lemma {:induction false} AtOwner(bs: seq<Block>, k: nat, a: int)
    requires Disjoint(bs) && k < |bs| && Covers(bs[k], a)
    ensures At(bs, a) == bs[k].payload[a - bs[k].addr]
  {
    if k >= |bs| - 1 {
    } else {
      assert Apart(bs[k], bs[|bs| - 1]);
      AtOwner(bs[..|bs| - 1], k, a);
    }
  }

  // ------------------------------------------------------------------ what the filters keep

  function Survivors(bs: seq<Block>, o: Options): seq<Block> {
    Filter((b: Block) => Survives(b, o), bs)
  }

  lemma {:induction false} FilterTwice(p: Block -> bool, q: Block -> bool, r: Block -> bool, bs: seq<Block>)
    requires forall b: Block :: r(b) <==> p(b) && q(b)
    ensures Filter(q, Filter(p, bs)) == Filter(r, bs)
  {
    if bs == [] {
    } else {
      var init, last := bs[..|bs| - 1], bs[|bs| - 1];
      FilterTwice(p, q, r, init);
      if p(last) {
        var kept := Filter(p, bs);
        assert kept[..|kept| - 1] == Filter(p, init) && kept[|kept| - 1] == last;
      }
    }
  }

  lemma {:induction false} FilterAll(p: Block -> bool, bs: seq<Block>)
    requires forall k :: 0 <= k < |bs| ==> p(bs[k])
    ensures Filter(p, bs) == bs
  {
    if bs == [] {
    } else {
      FilterAll(p, bs[..|bs| - 1]);
    }
  }

  /** The three comprehensions together keep exactly the surviving blocks. */
  lemma ThreeFilters(bs: seq<Block>, o: Options)
    ensures var app := if o.withSoftdevice then bs else Filter((b: Block) => b.addr >= o.appStart, bs);
            var kept := if o.includeStorage then app else Filter((b: Block) => b.addr < o.storageStart, app);
            Filter((b: Block) => !Blank(b), kept) == Survivors(bs, o)
  {
    var inApp := (b: Block) => o.withSoftdevice || b.addr >= o.appStart;
    var app := Filter(inApp, bs);
    var below := (b: Block) => o.includeStorage || b.addr < o.storageStart;
    FilterTwice(inApp, below, (b: Block) => Wanted(b, o), bs);
    FilterTwice((b: Block) => Wanted(b, o), (b: Block) => !Blank(b), (b: Block) => Survives(b, o), bs);
    if o.withSoftdevice {
      FilterAll(inApp, bs);
    } else {
      FilterSame(inApp, (b: Block) => b.addr >= o.appStart, bs);
    }
    if o.includeStorage {
      FilterAll(below, app);
    } else {
      FilterSame(below, (b: Block) => b.addr < o.storageStart, app);
    }
  }

  lemma {:induction false} FilterSame(p: Block -> bool, q: Block -> bool, bs: seq<Block>)
    requires forall b: Block :: p(b) <==> q(b)
    ensures Filter(p, bs) == Filter(q, bs)
  {
    if bs == [] {
    } else {
      FilterSame(p, q, bs[..|bs| - 1]);
    }
  }

  // ------------------------------------------------------------------ outcome of a run

  predicate AnyInApp(bs: seq<Block>, o: Options) {
    o.withSoftdevice || exists k :: 0 <= k < |bs| && bs[k].addr >= o.appStart
  }

  lemma {:induction false} FilterFinds(p: Block -> bool, bs: seq<Block>)
    ensures Filter(p, bs) == [] <==> forall k :: 0 <= k < |bs| ==> !p(bs[k])
  {
    if bs == [] {
    } else {
      var init := bs[..|bs| - 1];
      FilterFinds(p, init);
      if Filter(p, init) == [] && !p(bs[|bs| - 1]) {
        forall k | 0 <= k < |bs| ensures !p(bs[k]) { if k < |init| { assert !p(init[k]); } }
      }
    }
  }

  /** Which of the four endings a readable dump comes to, and what the good one packs. */
  lemma RescueOutcome(data: seq<byte>, o: Options, bs: seq<Block>)
    requires Parse(data) == Ok(bs)
    ensures Rescue(data, o)
         == if bs == [] then Err(EmptyDump)
            else if !AnyInApp(bs, o) then Err(NothingAboveAppStart)
            else if Survivors(bs, o) == [] then Err(AllBlank)
            else Built(Survivors(bs, o), o.family)
  {
    hide Parse, Built, Blank, Survives, Wanted, Filter;
    ThreeFilters(bs, o);
    FilterFinds((b: Block) => b.addr >= o.appStart, bs);
  }

  /** A run that writes a file: what it wrote, and what is read back from it. */
  lemma RescueWrites(data: seq<byte>, o: Options, bs: seq<Block>, out: seq<byte>)
    requires Parse(data) == Ok(bs) && Rescue(data, o) == Ok(out)
    ensures Survivors(bs, o) != [] && Built(Survivors(bs, o), o.family) == Ok(out)
    ensures Parse(out) == Ok(AllTagged(Survivors(bs, o)))
  {
    hide Parse, Rescue, Survivors, Image, AllTagged;
    RescueOutcome(data, o, bs);
    ParseImage(Survivors(bs, o), o.family);
  }

  // ------------------------------------------------------------------ meaning preserved

  lemma {:induction false} TaggedAt(bs: seq<Block>)
    ensures |AllTagged(bs)| == |bs|
    ensures forall k :: 0 <= k < |bs| ==> AllTagged(bs)[k] == Tagged(bs[k])
  {
    if bs == [] {
    } else {
      TaggedAt(bs[1..]);
    }
  }

  /** The family flag is not part of what is written. */
  lemma {:induction false} TagsWriteNothing(bs: seq<Block>, a: int)
    ensures At(AllTagged(bs), a) == At(bs, a)
  {
    TaggedAt(bs);
    if bs == [] {
    } else {
      var init := bs[..|bs| - 1];
      TaggedAt(init);
      assert AllTagged(bs)[..|bs| - 1] == AllTagged(init);
      TagsWriteNothing(init, a);
    }
  }

  lemma SurvivorsLast(bs: seq<Block>, o: Options)
    requires bs != []
    ensures var init, last := bs[..|bs| - 1], bs[|bs| - 1];
            if Survives(last, o)
            then Survivors(bs, o) != [] && Survivors(bs, o)[|Survivors(bs, o)| - 1] == last
              && Survivors(bs, o)[..|Survivors(bs, o)| - 1] == Survivors(init, o)
            else Survivors(bs, o) == Survivors(init, o)
  {
    hide Survives;
  }

  /** Block `k` is the last that satisfies `p` and covers `a`. */
  ghost predicate LastThat(p: Block -> bool, bs: seq<Block>, k: nat, a: int) {
    && k < |bs| && p(bs[k]) && Covers(bs[k], a)
    && forall i :: k < i < |bs| && p(bs[i]) ==> !Covers(bs[i], a)
  }

  ghost predicate NoneThat(p: Block -> bool, bs: seq<Block>, a: int) {
    forall i :: 0 <= i < |bs| && p(bs[i]) ==> !Covers(bs[i], a)
  }

  lemma {:induction false} FindLast(p: Block -> bool, bs: seq<Block>, a: int) returns (k: Option<nat>)
    ensures if k.Some? then LastThat(p, bs, k.value, a) else NoneThat(p, bs, a)
  {
    if bs == [] {
      k := None;
    } else if p(bs[|bs| - 1]) && Covers(bs[|bs| - 1], a) {
      k := Some(|bs| - 1);
    } else {
      k := FindLast(p, bs[..|bs| - 1], a);
    }
  }

  lemma {:induction false} FilterAt(p: Block -> bool, bs: seq<Block>, k: nat, a: int)
    requires LastThat(p, bs, k, a)
    ensures At(Filter(p, bs), a) == bs[k].payload[a - bs[k].addr]
  {
    var init, last := bs[..|bs| - 1], bs[|bs| - 1];
    if p(last) {
      assert Filter(p, bs)[..|Filter(p, bs)| - 1] == Filter(p, init);
    }
    if k >= |init| {
    } else {
      FilterAt(p, init, k, a);
    }
  }

  lemma {:induction false} FilterErased(p: Block -> bool, bs: seq<Block>, a: int)
    requires NoneThat(p, bs, a)
    ensures At(Filter(p, bs), a) == ERASED
  {
    if bs == [] {
    } else {
      var init, last := bs[..|bs| - 1], bs[|bs| - 1];
      FilterErased(p, init, a);
      if p(last) {
        assert Filter(p, bs)[..|Filter(p, bs)| - 1] == Filter(p, init);
      }
    }
  }

  /** The blocks the options ask for, blank ones included. */
  function Kept(bs: seq<Block>, o: Options): seq<Block> {
    Filter((b: Block) => Wanted(b, o), bs)
  }

  /** Block `k`, the last wanted one over `a`, is blank, and block `j` before it, the last one
      over `a` that is not dropped, has something else there. */
  ghost predicate Masks(bs: seq<Block>, o: Options, a: int, j: nat, k: nat) {
    && j < k && LastThat((b: Block) => Wanted(b, o), bs, k, a) && Blank(bs[k])
    && LastThat((b: Block) => Survives(b, o), bs, j, a) && bs[j].payload[a - bs[j].addr] != ERASED
  }

  ghost predicate Masked(bs: seq<Block>, o: Options, a: int) {
    exists j: nat, k: nat :: Masks(bs, o, a, j, k)
  }

  /** Dropping the blank blocks changes what is written at `a` exactly when `a` is masked. */
  lemma TrimmingExactly(bs: seq<Block>, o: Options, a: int)
    ensures At(Survivors(bs, o), a) == At(Kept(bs, o), a) <==> !Masked(bs, o, a)
  {
    hide Wanted, At, Filter;
    var wanted, survives := (b: Block) => Wanted(b, o), (b: Block) => Survives(b, o);
    var k := FindLast(wanted, bs, a);
    var j := FindLast(survives, bs, a);
    if k.None? {
      FilterErased(wanted, bs, a);
      FilterErased(survives, bs, a);
    } else {
      FilterAt(wanted, bs, k.value, a);
      if !Blank(bs[k.value]) {
        FilterAt(survives, bs, k.value, a);
      } else {
        BlankByte(bs[k.value], a);
        if j.None? {
          FilterErased(survives, bs, a);
        } else {
          FilterAt(survives, bs, j.value, a);
          assert Masks(bs, o, a, j.value, k.value) <==> bs[j.value].payload[a - bs[j.value].addr] != ERASED;
        }
      }
    }
  }

  lemma BlankByte(b: Block, a: int)
    requires Blank(b) && Covers(b, a)
    ensures b.payload[a - b.addr] == ERASED
  {
    assert b.payload[a - b.addr] as int == U8_MAX;
  }

  /** Flashing the rescued image of any dump: at every address the byte that the wanted blocks of
      the dump, written in order, leave there, exactly unless dropping a blank block unmasks an
      earlier one. */
  lemma RescuePreservesMeaning(data: seq<byte>, o: Options, bs: seq<Block>, out: seq<byte>, a: int)
    requires Parse(data) == Ok(bs) && Rescue(data, o) == Ok(out)
    ensures Parse(out).Ok?
    ensures At(Parse(out).value, a) == At(Kept(bs, o), a) <==> !Masked(bs, o, a)
  {
    hide Parse, Rescue, Survivors, Kept, AllTagged, At, Masked;
    RescueWrites(data, o, bs, out);
    TagsWriteNothing(Survivors(bs, o), a);
    TrimmingExactly(bs, o, a);
  }

  predicate SomeWantedCovers(bs: seq<Block>, o: Options, a: int) {
    exists k :: 0 <= k < |bs| && Wanted(bs[k], o) && Covers(bs[k], a)
  }

  /** A dump without overlaps masks nothing, and there what the wanted blocks leave is the dump's
      own byte wherever one of them lies, and erased flash everywhere else. */
  lemma DisjointKeepsMeaning(data: seq<byte>, o: Options, bs: seq<Block>, out: seq<byte>, a: int)
    requires Parse(data) == Ok(bs) && Disjoint(bs) && Rescue(data, o) == Ok(out)
    ensures Parse(out).Ok?
    ensures At(Parse(out).value, a) == if SomeWantedCovers(bs, o, a) then At(bs, a) else ERASED
    ensures forall k :: 0 <= k < |bs| && Wanted(bs[k], o) && Covers(bs[k], a) ==>
              At(Parse(out).value, a) == bs[k].payload[a - bs[k].addr]
  {
    hide Parse, Rescue, At, Filter;
    RescuePreservesMeaning(data, o, bs, out, a);
    DisjointMasksNothing(bs, o, a);
    if !SomeWantedCovers(bs, o, a) {
      FilterErased((b: Block) => Wanted(b, o), bs, a);
    } else {
      forall k | 0 <= k < |bs| && Wanted(bs[k], o) && Covers(bs[k], a)
        ensures At(Parse(out).value, a) == bs[k].payload[a - bs[k].addr] == At(bs, a)
      {
        assert LastThat((b: Block) => Wanted(b, o), bs, k, a) by {
          forall i | k < i < |bs| ensures !Covers(bs[i], a) { assert Apart(bs[k], bs[i]); }
        }
        FilterAt((b: Block) => Wanted(b, o), bs, k, a);
        AtOwner(bs, k, a);
      }
    }
  }

  lemma DisjointMasksNothing(bs: seq<Block>, o: Options, a: int)
    requires Disjoint(bs)
    ensures !Masked(bs, o, a)
  {
    if Masked(bs, o, a) {
      var j: nat, k: nat :| Masks(bs, o, a, j, k);
      MaskOverlaps(bs, o, a, j, k);
    }
  }

  lemma MaskOverlaps(bs: seq<Block>, o: Options, a: int, j: nat, k: nat)
    requires Masks(bs, o, a, j, k)
    ensures !Apart(bs[j], bs[k])
  {
  }

  /** By default that is what starts in the application partition, stamped for this board. */
  lemma DefaultKeepsApplication(b: Block)
    ensures Wanted(b, DEFAULTS) <==> 0x27000 <= b.addr < 0x6C000
    ensures DEFAULTS.family == 0x621E937A
  {
  }

  lemma {:induction false} FilterMembers(p: Block -> bool, bs: seq<Block>, b: Block)
    ensures b in Filter(p, bs) <==> b in bs && p(b)
  {
    if bs == [] {
    } else {
      FilterMembers(p, bs[..|bs| - 1], b);
      assert b in bs <==> b in bs[..|bs| - 1] || b == bs[|bs| - 1];
    }
  }

  /** Whatever the options: a block of the dump is restored exactly if it starts at or above the
      application or the SoftDevice is asked for, starts below the settings or they are asked for,
      and some byte of it is not 0xFF. */
  lemma RestoredExactly(bs: seq<Block>, o: Options, b: Block)
    ensures b in Survivors(bs, o) <==>
              && b in bs
              && (b.addr < o.appStart ==> o.withSoftdevice) && (b.addr >= o.storageStart ==> o.includeStorage)
              && exists i :: 0 <= i < |b.payload| && b.payload[i] != 0xFF
  {
    FilterMembers((x: Block) => Survives(x, o), bs, b);
    assert Blank(b) <==> forall i :: 0 <= i < |b.payload| ==> b.payload[i] == 0xFF;
  }

  /** The first block writes 0 where the application starts, the second erases it again. */
  const OVERLAID: seq<Block> := [Raw(0, APP_START, [0]), Raw(0, APP_START, [ERASED])]

  /** A masked address in a file: the dump erases the byte, the rescued image writes it. */
  lemma OverlapBreaksTrimming(family: Word)
    ensures var data := Image(OVERLAID, family);
            && Parse(data).Ok? && Rescue(data, DEFAULTS).Ok? && Parse(Rescue(data, DEFAULTS).value).Ok?
            && At(Parse(data).value, APP_START) == ERASED
            && At(Parse(Rescue(data, DEFAULTS).value).value, APP_START) == 0
  {
    hide Parse, Rescue, Image, AllTagged;
    var bs, data := OVERLAID, Image(OVERLAID, family);
    assert bs[..1] == [bs[0]] && bs[..1][..0] == [];
    assert bs[0].payload[0] as int != U8_MAX && !Blank(bs[0]) && Blank(bs[1]);
    SurvivorsLast(bs, DEFAULTS);
    SurvivorsLast(bs[..1], DEFAULTS);
    assert Survivors(bs, DEFAULTS) == [bs[0]];
    ParseImage(bs, family);
    RescueOfTagged(data, DEFAULTS, bs, Image([bs[0]], DEFAULTS.family));
    ParseImage([bs[0]], DEFAULTS.family);
    TagsWriteNothing(bs, APP_START);
    TagsWriteNothing([bs[0]], APP_START);
  }

  // ------------------------------------------------------------------ rescuing twice, restoring

  lemma {:induction false} FilterTagged(bs: seq<Block>, o: Options)
    ensures Survivors(AllTagged(bs), o) == AllTagged(Survivors(bs, o))
  {
    TaggedAt(bs);
    if bs == [] {
    } else {
      var init, last := bs[..|bs| - 1], bs[|bs| - 1];
      TaggedAt(init);
      assert AllTagged(bs)[..|bs| - 1] == AllTagged(init);
      FilterTagged(init, o);
      SurvivorsLast(bs, o);
      SurvivorsLast(AllTagged(bs), o);
      assert Survives(Tagged(last), o) <==> Survives(last, o);
      if Survives(last, o) { TaggedSnoc(Survivors(bs, o)); TaggedAt(Survivors(bs, o)); }
      assert Survivors(AllTagged(bs), o) == AllTagged(Survivors(bs, o));
    }
  }

  lemma {:induction false} TaggedSnoc(bs: seq<Block>)
    requires bs != []
    ensures AllTagged(bs) == AllTagged(bs[..|bs| - 1]) + [Tagged(bs[|bs| - 1])]
  {
    hide Tagged;
    if |bs| == 1 {
      assert AllTagged(bs[1..]) == [] && AllTagged(bs[..0]) == [];
    } else {
      var init := bs[..|bs| - 1];
      TaggedSnoc(bs[1..]);
      assert bs[1..][..|bs| - 2] == init[1..];
    }
  }

  lemma {:induction false} ImageForgetsTags(bs: seq<Block>, from: nat, total: Word, family: Word)
    requires from + |bs| <= total
    ensures |AllTagged(bs)| == |bs|
    ensures ImageFrom(AllTagged(bs), from, total, family) == ImageFrom(bs, from, total, family)
  {
    TaggedAt(bs);
    if bs == [] {
    } else {
      hide Pack;
      ImageForgetsTags(bs[1..], from + 1, total, family);
      assert HeaderWords(Tagged(bs[0]), from, total, family) == HeaderWords(bs[0], from, total, family);
      assert AllTagged(bs)[1..] == AllTagged(bs[1..]);
    }
  }

  lemma {:induction false} SurvivorsStay(bs: seq<Block>, o: Options)
    ensures Survivors(Survivors(bs, o), o) == Survivors(bs, o)
  {
    FilterAll((b: Block) => Survives(b, o), Survivors(bs, o));
  }

  /** Rescuing a rescued image reproduces it byte for byte. */
  lemma RescueTwice(data: seq<byte>, o: Options, out: seq<byte>)
    requires Rescue(data, o) == Ok(out)
    ensures Rescue(out, o) == Ok(out)
  {
    hide Rescue, Parse, Survivors, AllTagged, ImageFrom;
    var bs := ParsedBlocks(data, o);
    RescueWrites(data, o, bs, out);
    SurvivorsStay(bs, o);
    RescueOfTagged(out, o, Survivors(bs, o), out);
  }

  function ParsedBlocks(data: seq<byte>, o: Options): (bs: seq<Block>)
    requires Rescue(data, o).Ok?
    ensures Parse(data) == Ok(bs)
  {
    Parse(data).value
  }

  /** A file whose blocks are, up to the family flag, `bs` rescues to the image of what
      survives of `bs`. */
  lemma RescueOfTagged(data: seq<byte>, o: Options, bs: seq<Block>, out: seq<byte>)
    requires Parse(data) == Ok(AllTagged(bs)) && Survivors(bs, o) != []
    requires Built(Survivors(bs, o), o.family) == Ok(out)
    ensures Rescue(data, o) == Ok(out)
  {
    hide Rescue, Parse, AllTagged, ImageFrom, Survives;
    TaggedAt(bs);
    var kept := Survivors(bs, o);
    FilterTagged(bs, o);
    TaggedAt(kept);
    RescueOutcome(data, o, AllTagged(bs));
    ImageForgetsTags(kept, 0, |kept|, o.family);
    SurvivorInApp(AllTagged(bs), o);
  }

  lemma SurvivorInApp(bs: seq<Block>, o: Options)
    requires Survivors(bs, o) != []
    ensures bs != [] && AnyInApp(bs, o)
  {
    FilterFinds((b: Block) => Survives(b, o), bs);
  }

  function Picked(bs: seq<Block>, marks: seq<bool>): seq<Block>
    requires |marks| == |bs|
  {
    if bs == [] then []
    else Picked(bs[..|bs| - 1], marks[..|bs| - 1]) + if marks[|bs| - 1] then [bs[|bs| - 1]] else []
  }

  lemma {:induction false} PickedSurvive(bs: seq<Block>, marks: seq<bool>, o: Options)
    requires |marks| == |bs|
    requires forall k :: 0 <= k < |bs| ==> (marks[k] <==> Survives(bs[k], o))
    ensures Survivors(bs, o) == Picked(bs, marks)
  {
    if bs == [] {
    } else {
      hide Survives;
      PickedSurvive(bs[..|bs| - 1], marks[..|bs| - 1], o);
    }
  }

  /**
   * The restore promise: take an image the build made for the board, weave into its blocks any
   * blocks below the application, in the settings partition or blank, and let the bootloader
   * number and tag the result with any family of its own; the rescue gives back exactly that
   * image.
   */
  lemma RescueRestores(app: seq<Block>, bs: seq<Block>, marks: seq<bool>, o: Options, family: Word)
    requires 0 <= o.family < U32 && app != [] && |bs| < U32 && |marks| == |bs|
    requires app == Picked(bs, marks)
    requires forall k :: 0 <= k < |bs| ==> (marks[k] <==> Survives(bs[k], o))
    ensures |app| < U32 && Rescue(Image(bs, family), o) == Ok(Image(app, o.family))
  {
    hide Rescue, Image, Parse, AllTagged, Survives, Picked;
    PickedSurvive(bs, marks, o);
    ParseImage(bs, family);
    RescueOfTagged(Image(bs, family), o, bs, Image(app, o.family));
  }
}
