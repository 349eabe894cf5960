/** Named properties: a kind, a GUID, then a numeric id or a name behind a
    one-byte size that is patched in after the name has been written. */
module PropNames {
  import opened Bytes
  import opened MapiTypes
  import opened Options
  import opened Wire
  import opened Parse
  import opened RoundTrip

  datatype PropName =
    | Lid(guid: Guid, lid: uint32)             // kind 0x00
    | Named(guid: Guid, name: bytes)           // kind 0x01
    | Bare(kind: uint8, guid: Guid)            // any other kind carries nothing more

  function KindByte(p: PropName): uint8 {
    match p
    case Lid(_, _) => 0x00
    case Named(_, _) => 0x01
    case Bare(kind, _) => kind
  }

  function EncName(p: PropName): bytes { [KindByte(p)] + (EncGuid(p.guid) + EncPayload(p)) }

  function EncPayload(p: PropName): bytes {
    match p
    case Lid(_, lid) => U32(lid)
    case Named(_, name) => [(|name| + 1) % 0x100] + EncString(name)
    case Bare(_, _) => []
  }

  function EncNames(ps: seq<PropName>): bytes {
    if ps == [] then [] else EncName(ps[0]) + EncNames(ps[1..])
  }

  /** What C's structure can hold: a name is NUL-free, and kinds 0 and 1 carry a payload. */
  predicate Representable(p: PropName) {
    (p.Named? ==> 0 !in p.name) && (p.Bare? ==> p.kind > 1)
  }

  /** The result of pulling a name: the cursor moves by used, which the pull
      function does not hold against the size of the data. */
  datatype NamePulled = BadName | GoodName(name: PropName, used: nat)

  function DecName(s: bytes): NamePulled {
    var kind := PullUint8(s);
    if kind.Fail? then BadName else
    var guid := DecGuid(kind.rest);
    if guid.Fail? then BadName
    else if kind.value == 0x00 then
      var lid := PullUint32(guid.rest);
      if lid.Fail? then BadName else GoodName(Lid(guid.value, lid.value), 21)
    else if kind.value == 0x01 then
      var size := PullUint8(guid.rest);
      if size.Fail? || size.value < 2 then BadName else
      var name := DecString(size.rest);
      if name.Fail? || |name.value| + 1 > size.value then BadName
      else GoodName(Named(guid.value, name.value), 18 + size.value)
    else GoodName(Bare(kind.value, guid.value), 17)
  }

  datatype NamesPulled = BadNames | GoodNames(names: seq<PropName>, used: nat)

  function DecNames(n: nat, s: bytes): NamesPulled {
    if n == 0 then GoodNames([], 0) else
    var p := DecName(s);
    if p.BadName? then BadNames
    else if p.used > |s| then if n == 1 then GoodNames([p.name], p.used) else BadNames
    else
      var ps := DecNames(n - 1, s[p.used..]);
      if ps.BadNames? then BadNames else GoodNames([p.name] + ps.names, p.used + ps.used)
  }

  function EncNameArray(ps: seq<PropName>): bytes { Count16(ps) + EncNames(ps) }

  /** The array behind its 16-bit count. */
  function DecNameArray(s: bytes): NamesPulled {
    var n := PullUint16(s);
    if n.Fail? then BadNames else
    var ps := DecNames(n.value, n.rest);
    if ps.BadNames? then BadNames else GoodNames(ps.names, 2 + ps.used)
  }

  lemma Header(p: PropName, t: bytes)
    ensures PullUint8(EncName(p) + t) == Ok(KindByte(p), EncGuid(p.guid) + EncPayload(p) + t)
    ensures DecGuid(EncGuid(p.guid) + EncPayload(p) + t) == Ok(p.guid, EncPayload(p) + t)
    ensures |EncName(p)| == 17 + |EncPayload(p)|
  {
    hide PullUint8, DecGuid, EncPayload;
    Field8(KindByte(p), EncGuid(p.guid) + EncPayload(p), t);
    Assoc(EncGuid(p.guid), EncPayload(p), t);
    GuidRoundTrip(p.guid, EncPayload(p) + t);
  }

  /** A numeric entry, and an entry of any other kind, always comes back; a named
      one exactly when its name has between 1 and 254 characters. The cursor then
      stands where the writer stopped. */
  lemma NameRoundTrip(p: PropName, t: bytes)
    requires Representable(p)
    ensures DecName(EncName(p) + t) ==
            if p.Named? && !(1 <= |p.name| <= 254) then BadName else GoodName(p, |EncName(p)|)
  {
    hide PullUint8, PullUint32, DecGuid, EncName, DecString, EncString, U32;
    Header(p, t);
    match p
    case Lid(_, lid) => U32RoundTrip(lid, t);
    case Bare(_, _) => assert EncPayload(p) + t == t;
    case Named(_, name) =>
      var size: uint8 := (|name| + 1) % 0x100;
      Field8(size, EncString(name), t);
      StringRoundTrip(name, t);
      assert |EncString(name)| == |name| + 1 by { StringSize(name); }
  }

  lemma StringSize(name: bytes)
    ensures |EncString(name)| == |name| + 1
  {
  }

  /** Whatever the bytes say, a pulled name leaves the cursor inside the data
      exactly when the declared size of the name does. */
  lemma CursorInBounds(s: bytes)
    requires DecName(s).GoodName?
    ensures DecName(s).used <= |s| <==> (s[0] == 0x01 ==> 18 + s[17] <= |s|)
  {
    var guid := DecGuid(s[1..]);
    assert |guid.rest| == |s| - 17;
    assert guid.rest == s[17..];
  }

  /** An array whose first entry is read as p and ends inside the data. */
  lemma FirstName(n: nat, s: bytes, p: PropName, used: nat)
    requires n > 0 && used <= |s| && DecName(s) == GoodName(p, used)
    ensures var ps := DecNames(n - 1, s[used..]);
            DecNames(n, s) == if ps.BadNames? then BadNames else GoodNames([p] + ps.names, used + ps.used)
  {
    hide DecName;
  }

  lemma NoNames(s: bytes)
    ensures DecNames(0, s) == GoodNames([], 0)
  {
  }

  lemma NoFirstName(n: nat, s: bytes)
    requires n > 0 && DecName(s).BadName?
    ensures DecNames(n, s).BadNames?
  {
    hide DecName;
  }

  /** Entries come back when each of them does. */
  lemma {:induction false} EntriesRoundTrip(ps: seq<PropName>, t: bytes)
    requires forall p | p in ps :: Representable(p) && (p.Named? ==> 1 <= |p.name| <= 254)
    ensures DecNames(|ps|, EncNames(ps) + t) == GoodNames(ps, |EncNames(ps)|)
  {
    hide EncName, DecName, DecNames;
    if ps == [] {
      assert DecNames(0, EncNames(ps) + t) == GoodNames([], 0) by { NoNames(EncNames(ps) + t); }
    } else {
      var e, u := EncName(ps[0]), EncNames(ps[1..]) + t;
      Assoc(e, EncNames(ps[1..]), t);
      NameRoundTrip(ps[0], u);
      assert (e + u)[|e|..] == u;
      FirstName(|ps|, e + u, ps[0], |e|);
      EntriesRoundTrip(ps[1..], t);
      assert [ps[0]] + ps[1..] == ps;
    }
  }

  /** One entry that does not come back spoils the others. */
  lemma {:induction false} LongNameSpoilsEntries(ps: seq<PropName>, t: bytes)
    requires forall p | p in ps :: Representable(p)
    requires exists p | p in ps :: p.Named? && !(1 <= |p.name| <= 254)
    ensures DecNames(|ps|, EncNames(ps) + t).BadNames?
  {
    hide EncName, DecName, DecNames;
    var e, u := EncName(ps[0]), EncNames(ps[1..]) + t;
    Assoc(e, EncNames(ps[1..]), t);
    NameRoundTrip(ps[0], u);
    assert (e + u)[|e|..] == u;
    if ps[0].Named? && !(1 <= |ps[0].name| <= 254) {
      NoFirstName(|ps|, e + u);
    } else {
      FirstName(|ps|, e + u, ps[0], |e|);
      LongNameSpoilsEntries(ps[1..], t);
    }
  }

  /** An array, count and all, comes back whole with the cursor where the writer stopped
      when every name in it has 1 to 254 characters. */
  lemma NamesRoundTrip(ps: seq<PropName>, t: bytes)
    requires |ps| < 0x1_0000
    requires forall p | p in ps :: Representable(p) && (p.Named? ==> 1 <= |p.name| <= 254)
    ensures DecNameArray(EncNameArray(ps) + t) == GoodNames(ps, |EncNameArray(ps)|)
  {
    hide EncNames, DecNames, PullUint16, U16;
    FittingCount(ps);
    Field16(|ps|, EncNames(ps), t);
    EntriesRoundTrip(ps, t);
  }

  /** One name outside 1 to 254 characters makes the pull of the whole array fail. */
  lemma LongNameSpoilsArray(ps: seq<PropName>, t: bytes)
    requires |ps| < 0x1_0000 && forall p | p in ps :: Representable(p)
    requires exists p | p in ps :: p.Named? && !(1 <= |p.name| <= 254)
    ensures DecNameArray(EncNameArray(ps) + t).BadNames?
  {
    hide EncNames, DecNames, PullUint16, U16;
    FittingCount(ps);
    Field16(|ps|, EncNames(ps), t);
    LongNameSpoilsEntries(ps, t);
  }
}
