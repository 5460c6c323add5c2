/**
 * ad_is_nocfree_keyboard of dongle_bridge/src/ble_hog_central.c: which advertising payloads
 * the dongle connects to.  Payload layout: Bluetooth Core Specification, Vol 3 Part C,
 * section 11 (length, type, data).
 */
module AdParser {
  import opened Bytes

  const UUID16_SOME: byte := 0x02
  const UUID16_ALL: byte := 0x03
  const NAME_SHORTENED: byte := 0x08
  const NAME_COMPLETE: byte := 0x09
  const HIDS_VAL: int := 0x1812
  const NAME_BUF: nat := 32

  const NOCFREE: seq<byte> := [0x4E, 0x6F, 0x63, 0x46, 0x72, 0x65, 0x65]      // "NocFree"
  const TARGET_NAME: seq<byte> := NOCFREE + [0x20, 0x26]                      // "NocFree &"

  datatype Structure = Structure(kind: byte, data: seq<byte>)

  /** The longest prefix of a payload that splits into structures. */
  function Parse(ad: seq<byte>): seq<Structure> {
    if ad == [] || ad[0] == 0 || 1 + ad[0] as int > |ad| then []
    else [Structure(ad[1], ad[2..1 + ad[0] as int])] + Parse(ad[1 + ad[0] as int..])
  }

  predicate NamesNocFree(st: Structure) {
    (st.kind == NAME_COMPLETE || st.kind == NAME_SHORTENED) && NOCFREE <= st.data
  }

  predicate ListsHids(st: Structure) {
    (st.kind == UUID16_ALL || st.kind == UUID16_SOME) &&
    exists k :: 0 <= k < |st.data| / 2 && HidsAt(st.data, 2 * k)
  }

  predicate HidsAt(data: seq<byte>, j: nat) {
    j + 1 < |data| && data[j] as int + 256 * data[j + 1] as int == HIDS_VAL
  }

  /** Some structure carries the name and some structure lists the HID service. */
  predicate IsKeyboard(sts: seq<Structure>) {
    HasName(sts) && HasHids(sts)
  }

  predicate HasName(sts: seq<Structure>) {
    exists st :: st in sts && NamesNocFree(st)
  }

  predicate HasHids(sts: seq<Structure>) {
    exists st :: st in sts && ListsHids(st)
  }

  // ------------------------------------------------------------------ serialising

  predicate Encodable(sts: seq<Structure>) {
    forall st :: st in sts ==> |st.data| <= 254
  }

  function Serialise(sts: seq<Structure>): seq<byte>
    requires Encodable(sts)
  {
    if sts == [] then []
    else [(1 + |sts[0].data|) as byte, sts[0].kind] + sts[0].data + Serialise(sts[1..])
  }

  /** Parsing undoes serialising, and goes on with whatever follows. */
  lemma {:induction false} ParseSerialise(sts: seq<Structure>, rest: seq<byte>)
    requires Encodable(sts)
    ensures Parse(Serialise(sts) + rest) == sts + Parse(rest)
  {
    if sts == [] {
      assert Serialise(sts) + rest == rest;
    } else {
      var st, more := sts[0], sts[1..];
      ParseSerialise(more, rest);
      ParseCons(st, Serialise(more) + rest);
      Assoc([(1 + |st.data|) as byte, st.kind] + st.data, Serialise(more), rest);
      Assoc([st], more, Parse(rest));
      assert sts == [st] + more;
    }
  }

  lemma Assoc<T>(a: seq<T>, b: seq<T>, c: seq<T>)
    ensures (a + b) + c == a + (b + c)
  {
  }

  lemma ParseCons(st: Structure, tail: seq<byte>)
    requires |st.data| <= 254
    ensures Parse([(1 + |st.data|) as byte, st.kind] + st.data + tail) == [st] + Parse(tail)
  {
    var ad := [(1 + |st.data|) as byte, st.kind] + st.data + tail;
    assert ad[2..2 + |st.data|] == st.data && ad[2 + |st.data|..] == tail;
  }

  /** The parsed structures are a prefix of the payload, and what follows them is nothing, a
      zero length byte or a structure running past the end. */
  lemma {:induction false} ParseIsMaximal(ad: seq<byte>)
    ensures Encodable(Parse(ad)) && Serialise(Parse(ad)) <= ad
    ensures var rest := ad[|Serialise(Parse(ad))|..];
            rest == [] || rest[0] == 0 || 1 + rest[0] as int > |rest|
  {
    if ad == [] || ad[0] == 0 || 1 + ad[0] as int > |ad| {
    } else {
      var n := 1 + ad[0] as int;
      var rest := ad[n..];
      ParseIsMaximal(rest);
      SerialiseCons(Structure(ad[1], ad[2..n]), Parse(rest));
      assert [ad[0], ad[1]] + ad[2..n] == ad[..n];
      Rejoin(ad, n, Serialise(Parse(rest)));
    }
  }

  lemma Rejoin(ad: seq<byte>, n: nat, s: seq<byte>)
    requires n <= |ad| && s <= ad[n..]
    ensures ad[..n] + s <= ad && ad[|ad[..n] + s|..] == ad[n..][|s|..]
  {
    assert ad == ad[..n] + ad[n..];
  }

  lemma SerialiseCons(st: Structure, sts: seq<Structure>)
    requires Encodable(sts) && |st.data| <= 254
    ensures Encodable([st] + sts)
    ensures Serialise([st] + sts) == [(1 + |st.data|) as byte, st.kind] + st.data + Serialise(sts)
  {
    assert ([st] + sts)[1..] == sts;
  }

  // ------------------------------------------------------------------ the code

  /** C's strncmp(a, b, n) == 0 on NUL-terminated strings. */
  predicate Strncmp0(a: seq<byte>, b: seq<byte>, n: nat)
  {
    n == 0 || (a != [] && b != [] && a[0] == b[0] && (a[0] == 0 || Strncmp0(a[1..], b[1..], n - 1)))
  }

  /** Against a NUL-free `b`, strncmp over all of `b` is the prefix test. */
  lemma {:induction false} Strncmp0IsPrefix(name: seq<byte>, b: seq<byte>)
    requires 0 !in b
    ensures Strncmp0(name + [0], b, |b|) <==> b <= name
  {
    if b == [] {
    } else {
      assert b[0] in b;
      if name == [] {
        assert name + [0] == [0];
      } else {
        assert (name + [0])[1..] == name[1..] + [0];
        assert forall x :: x in b[1..] ==> x in b;
        Strncmp0IsPrefix(name[1..], b[1..]);
        assert b <= name <==> b[0] == name[0] && b[1..] <= name[1..];
      }
    }
  }

  /** The 31-byte copy and the two strncmp calls amount to "the name starts with NocFree". */
  lemma NameTest(data: seq<byte>)
    ensures var name := data[..if |data| < NAME_BUF - 1 then |data| else NAME_BUF - 1];
            (Strncmp0(name + [0], TARGET_NAME, |TARGET_NAME|) || Strncmp0(name + [0], NOCFREE, |NOCFREE|))
              <==> NOCFREE <= data
  {
    var name := data[..if |data| < NAME_BUF - 1 then |data| else NAME_BUF - 1];
    Strncmp0IsPrefix(name, TARGET_NAME);
    Strncmp0IsPrefix(name, NOCFREE);
    assert TARGET_NAME[..|NOCFREE|] == NOCFREE;
    if NOCFREE <= data {
      assert name[..|NOCFREE|] == data[..|NOCFREE|];
    }
  }

  method ListHasHids(ad: seq<byte>, i: nat, len: nat) returns (found: bool)
    requires i + len <= |ad| && len <= 254
    ensures found <==> exists k :: 0 <= k < len / 2 && HidsAt(ad[i..i + len], 2 * k)
  {
    found := false;
    var j := 0;
    while j + 1 < len
      invariant j % 2 == 0 && j <= len
      invariant j <= U8_MAX                  // j is a uint8_t: it never wraps
      invariant found <==> exists k :: 0 <= k < j / 2 && HidsAt(ad[i..i + len], 2 * k)
    {
      var u := ad[i + j] as int + 256 * ad[i + j + 1] as int;
      assert HidsAt(ad[i..i + len], 2 * (j / 2)) == (u == HIDS_VAL);
      if u == HIDS_VAL {
        found := true;
      }
      j := j + 2;
    }
  }

  lemma FirstOrRest(st: Structure, rest: seq<Structure>)
    ensures HasName([st] + rest) <==> NamesNocFree(st) || HasName(rest)
    ensures HasHids([st] + rest) <==> ListsHids(st) || HasHids(rest)
  {
    assert forall x :: x in [st] + rest <==> x == st || x in rest;
  }

  lemma NothingFound()
    ensures Parse([]) == [] && !HasName([]) && !HasHids([])
  {
  }

  lemma ParseFrom(ad: seq<byte>, i: nat)
    requires i < |ad|
    ensures var next := i + 1 + ad[i] as int;
            Parse(ad[i..]) == if ad[i] == 0 || next > |ad| then []
                              else [Structure(ad[i + 1], ad[i + 2..next])] + Parse(ad[next..])
  {
    var next := i + 1 + ad[i] as int;
    if ad[i] != 0 && next <= |ad| {
      assert ad[i..][2..1 + ad[i] as int] == ad[i + 2..next];
      assert ad[i..][1 + ad[i] as int..] == ad[next..];
    }
  }

  /** The body of one iteration: the structure whose data is ad[i..i + len]. */
  method Examine(kind: byte, ad: seq<byte>, i: nat, len: nat) returns (isName: bool, isHids: bool)
    requires i + len <= |ad| && len <= 254
    ensures isName == NamesNocFree(Structure(kind, ad[i..i + len]))
    ensures isHids == ListsHids(Structure(kind, ad[i..i + len]))
  {
    isName, isHids := false, false;
    if kind == NAME_COMPLETE || kind == NAME_SHORTENED {
      var copy := if len < NAME_BUF - 1 then len else NAME_BUF - 1;
      var name := ad[i..i + copy] + [0];
      NameTest(ad[i..i + len]);
      assert name == ad[i..i + len][..copy] + [0];
      if Strncmp0(name, TARGET_NAME, |TARGET_NAME|) || Strncmp0(name, NOCFREE, |NOCFREE|) {
        isName := true;
      }
    } else if kind == UUID16_ALL || kind == UUID16_SOME {
      isHids := ListHasHids(ad, i, len);
    }
  }

  method AdIsNocfreeKeyboard(ad: seq<byte>) returns (r: bool)
    ensures r == IsKeyboard(Parse(ad))
  {
    hide Parse, HasName, HasHids, NamesNocFree, ListsHids;
    NothingFound();
    var i := 0;
    var nameOk, hidsUuid := false, false;
    assert ad[0..] == ad;
    ghost var rest := Parse(ad);
    while i < |ad|
      invariant i <= |ad| && rest == Parse(ad[i..])
      invariant HasName(Parse(ad)) <==> nameOk || HasName(rest)
      invariant HasHids(Parse(ad)) <==> hidsUuid || HasHids(rest)
    {
      ParseFrom(ad, i);
      var len := ad[i] as int;
      i := i + 1;
      if len == 0 || i + len > |ad| {
        break;
      }
      var kind := ad[i];
      i := i + 1;
      len := len - 1;
      rest := Parse(ad[i + len..]);
      FirstOrRest(Structure(kind, ad[i..i + len]), rest);
      var isName, isHids := Examine(kind, ad, i, len);
      if isName {
        nameOk := true;
      }
      if isHids {
        hidsUuid := true;
      }
      i := i + len;
    }
    assert rest == [] by { assert ad[|ad|..] == []; }
    r := nameOk && hidsUuid;
  }

  /** On a payload made of structures and zero padding, the code decides IsKeyboard of exactly
      those structures. */
  method AcceptsSerialised(sts: seq<Structure>, pad: nat) returns (r: bool)
    requires Encodable(sts)
    ensures r == IsKeyboard(sts)
  {
    ParseSerialise(sts, Fill(pad, 0));
    r := AdIsNocfreeKeyboard(Serialise(sts) + Fill(pad, 0));
  }

  /** A name structure, shortened (8) or complete (9), that starts N o c F r e e. */
  predicate SaysNocFree(st: Structure) {
    (st.kind == 8 || st.kind == 9) && |st.data| >= 7 &&
    st.data[..7] == [0x4E, 0x6F, 0x63, 0x46, 0x72, 0x65, 0x65]
  }

  /** A list of 16-bit UUIDs, partial (2) or complete (3), with the HID service in place `k`. */
  predicate SaysHids(st: Structure, k: nat) {
    (st.kind == 2 || st.kind == 3) && 2 * k + 1 < |st.data| && st.data[2 * k] == 0x12 && st.data[2 * k + 1] == 0x18
  }

  /** In literal bytes: both are required, a name and a HID list, not one of the two. */
  lemma AcceptedExactly(sts: seq<Structure>)
    ensures IsKeyboard(sts) <==>
              (exists st :: st in sts && SaysNocFree(st)) && (exists st, k :: st in sts && SaysHids(st, k))
  {
    forall st: Structure ensures NamesNocFree(st) <==> SaysNocFree(st) {
      if NamesNocFree(st) { assert st.data[..7] == NOCFREE; }
    }
    forall st: Structure ensures ListsHids(st) <==> exists k :: SaysHids(st, k) {
      if ListsHids(st) {
        var k :| 0 <= k < |st.data| / 2 && HidsAt(st.data, 2 * k);
        SameUuid(st.data[2 * k], st.data[2 * k + 1]);
        assert SaysHids(st, k);
      } else if exists k :: SaysHids(st, k) {
        var k :| SaysHids(st, k);
        NotListed(st, k);
      }
    }
  }

  lemma SameUuid(lo: byte, hi: byte)
    ensures lo as int + 256 * hi as int == 0x1812 <==> lo == 0x12 && hi == 0x18
  {
  }

  lemma NotListed(st: Structure, k: nat)
    requires SaysHids(st, k)
    ensures ListsHids(st)
  {
    assert HidsAt(st.data, 2 * k);
  }
}
