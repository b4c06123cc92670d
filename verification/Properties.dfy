/**
 MQTT 5 property lists (MQTT 5.0 section 2.2.2; MQTTProperties.c): the length kept while a list is built is the
 length written, and what has been written is read back.
 */
module Properties {
  import opened Framing
  import opened PacketData

  datatype Type = Byte | TwoByteInteger | FourByteInteger | VariableByteInteger | BinaryData | Utf8String | Utf8Pair

  /** The value of a property: the member of the union that its identifier's type uses. */
  datatype Content =
    | Small(b: byte)
    | Short(n: nat)
    | Long(n: nat)
    | Variable(n: nat)
    | Data(data: seq<byte>)
    | Pair(data: seq<byte>, value: seq<byte>)

  datatype Property = Property(identifier: byte, content: Content)

  /** MQTT 5.0, table 2-4. */
  function TypeOf(id: int): Option<Type> {
    if id in {1, 23, 25, 36, 37, 40, 41, 42} then Some(Byte)
    else if id in {19, 33, 34, 35} then Some(TwoByteInteger)
    else if id in {2, 17, 24, 39} then Some(FourByteInteger)
    else if id == 11 then Some(VariableByteInteger)
    else if id in {9, 22} then Some(BinaryData)
    else if id in {3, 8, 18, 21, 26, 28, 31} then Some(Utf8String)
    else if id == 38 then Some(Utf8Pair)
    else None
  }

  const NAMES_TO_TYPES: seq<(int, Type)> := [
    (1, Byte), (2, FourByteInteger), (3, Utf8String), (8, Utf8String), (9, BinaryData), (11, VariableByteInteger),
    (17, FourByteInteger), (18, Utf8String), (19, TwoByteInteger), (21, Utf8String), (22, BinaryData), (23, Byte),
    (24, FourByteInteger), (25, Byte), (26, Utf8String), (28, Utf8String), (31, Utf8String), (33, TwoByteInteger),
    (34, TwoByteInteger), (35, TwoByteInteger), (36, Byte), (37, Byte), (38, Utf8Pair), (39, FourByteInteger),
    (40, Byte), (41, Byte), (42, Byte)]

  /** MQTTProperty_getType. */
  method GetType(id: int) returns (rc: Option<Type>)
    ensures rc == TypeOf(id)
  {
    rc := None;
    var i := 0;
    while i < |NAMES_TO_TYPES|
      invariant 0 <= i <= |NAMES_TO_TYPES|
      invariant forall j :: 0 <= j < i ==> NAMES_TO_TYPES[j].0 != id
    {
      if NAMES_TO_TYPES[i].0 == id {
        TableIsRight(i);
        return Some(NAMES_TO_TYPES[i].1);
      }
      i := i + 1;
    }
    NotInTable(id);
  }

  lemma TableIsRight(i: nat)
    requires i < |NAMES_TO_TYPES|
    ensures TypeOf(NAMES_TO_TYPES[i].0) == Some(NAMES_TO_TYPES[i].1)
  {
  }

  lemma NotInTable(id: int)
    requires forall j :: 0 <= j < |NAMES_TO_TYPES| ==> NAMES_TO_TYPES[j].0 != id
    ensures TypeOf(id) == None
  {
    var t := NAMES_TO_TYPES;
    assert t[0].0 != id && t[1].0 != id && t[2].0 != id && t[3].0 != id && t[4].0 != id && t[5].0 != id;
    assert t[6].0 != id && t[7].0 != id && t[8].0 != id && t[9].0 != id && t[10].0 != id && t[11].0 != id;
    assert t[12].0 != id && t[13].0 != id && t[14].0 != id && t[15].0 != id && t[16].0 != id && t[17].0 != id;
    assert t[18].0 != id && t[19].0 != id && t[20].0 != id && t[21].0 != id && t[22].0 != id && t[23].0 != id;
    assert t[24].0 != id && t[25].0 != id && t[26].0 != id;
  }

  /** Small enough to be sent. */
  predicate Sendable(c: Content) {
    match c
    case Small(_) => true
    case Short(n) => n <= MAX_INT2
    case Long(n) => n < TWO31
    case Variable(n) => n <= MAX_REMAINING
    case Data(data) => |data| <= MAX_INT2
    case Pair(data, value) => |data| <= MAX_INT2 && |value| <= MAX_INT2
  }

  predicate Fits(t: Type, c: Content) {
    && Sendable(c)
    && match t
       case Byte => c.Small?
       case TwoByteInteger => c.Short?
       case FourByteInteger => c.Long?
       case VariableByteInteger => c.Variable?
       case BinaryData => c.Data?
       case Utf8String => c.Data?
       case Utf8Pair => c.Pair?
  }

  /** A property whose value has the type of its identifier. */
  predicate Proper(p: Property) {
    TypeOf(p.identifier).Some? && Fits(TypeOf(p.identifier).value, p.content)
  }

  ghost predicate AllProper(ps: seq<Property>) {
    forall i :: 0 <= i < |ps| ==> Proper(ps[i])
  }

  // ----- the encoding

  function ContentBytes(c: Content): seq<byte>
    requires Sendable(c)
  {
    match c
    case Small(b) => [b]
    case Short(n) => Int2(n)
    case Long(n) => Int4(n)
    case Variable(n) => Encode(n)
    case Data(data) => Utf(data)
    case Pair(data, value) => Utf(data) + Utf(value)
  }

  function PropertyBytes(p: Property): (s: seq<byte>)
    requires Proper(p)
    ensures s != []
  {
    [p.identifier] + ContentBytes(p.content)
  }

  function ListBytes(ps: seq<Property>): seq<byte>
    requires AllProper(ps)
  {
    if ps == [] then [] else PropertyBytes(ps[0]) + ListBytes(ps[1..])
  }

  /** A property list on the wire: its length, then its properties. */
  function WireBytes(ps: seq<Property>): seq<byte>
    requires AllProper(ps)
  {
    Encode(|ListBytes(ps)|) + ListBytes(ps)
  }

  lemma {:induction false} ListJoin(a: seq<Property>, p: Property)
    requires AllProper(a) && Proper(p)
    ensures AllProper(a + [p]) && ListBytes(a + [p]) == ListBytes(a) + PropertyBytes(p)
  {
    hide Proper, PropertyBytes;
    if a == [] {
      assert a + [p] == [p] && [p][1..] == [];
      assert ListBytes([p]) == PropertyBytes(p) + ListBytes([]);
    } else {
      assert (a + [p])[1..] == a[1..] + [p];
      ListJoin(a[1..], p);
    }
  }

  // ----- building and writing

  class PropertyList {
    var items: seq<Property>
    var length: int

    /** The length kept is the exact number of bytes of the properties. */
    ghost predicate Valid()
      reads this
    {
      AllProper(items) && length == |ListBytes(items)|
    }

    constructor ()
      ensures Valid() && items == []
    {
      items, length := [], 0;
    }

    /** MQTTProperties_add; false for an identifier that is none. */
    method Add(p: Property) returns (ok: bool)
      requires Valid() && (TypeOf(p.identifier).Some? ==> Proper(p))
      modifies this
      ensures Valid() && ok == TypeOf(p.identifier).Some?
      ensures items == old(items) + if ok then [p] else []
    {
      var t := GetType(p.identifier);
      ok := t.Some?;
      if ok {
        var len := 0;
        match t.value {
          case Byte => len := 1;
          case TwoByteInteger => len := 2;
          case FourByteInteger => len := 4;
          case VariableByteInteger =>
            VbiLenIsExact(p.content.n);
            len := VbiLen(p.content.n);
          case BinaryData => len := 2 + |p.content.data|;
          case Utf8String => len := 2 + |p.content.data|;
          case Utf8Pair => len := 2 + |p.content.data| + 2 + |p.content.value|;
        }
        assert len + 1 == |PropertyBytes(p)|;
        ListJoin(items, p);
        hide Proper, PropertyBytes;
        items := items + [p];
        length := length + len + 1;
      }
    }

    /** MQTTProperties_copy. */
    method Copy() returns (result: PropertyList)
      requires Valid()
      ensures fresh(result) && result.Valid() && result.items == items && result.length == length
    {
      hide AllProper, Proper, ListBytes;
      result := new PropertyList();
      CopyReady(items);
      var i := 0;
      while i < |items|
        invariant 0 <= i <= |items| && fresh(result) && result.Valid() && result.items == items[..i]
      {
        assert items[..i] + [items[i]] == items[..i + 1];
        var ok := result.Add(items[i]);
        i := i + 1;
      }
      assert items[..i] == items;
    }

    /** MQTTProperties_len, for a list that is not too long to be sent. */
    function Len(): (n: int)
      requires length >= 0
      reads this
    {
      length + VbiLen(length)
    }

    lemma LenIsExact()
      requires Valid() && length <= MAX_REMAINING
      ensures Len() == |WireBytes(items)|
    {
      VbiLenIsExact(length);
    }

    /** MQTTProperties_write: exactly Len() bytes. */
    method Write(buf: array<byte>, pos: nat) returns (next: nat)
      requires Valid() && length <= MAX_REMAINING && pos + Len() <= buf.Length
      modifies buf
      ensures Put(buf, pos, WireBytes(items), next) && next == pos + Len()
    {
      LenIsExact();
      VbiLenIsExact(length);
      hide AllProper, Proper, PropertyBytes, Encode, ListBytes;
      ghost var start := buf[..pos];
      next := WriteVbi(buf, pos, length);
      next := WriteItems(buf, next);
      Regroup(start, Encode(length), ListBytes(items));
    }

    /** The properties behind the length, one after the other. */
    method WriteItems(buf: array<byte>, pos: nat) returns (next: nat)
      requires Valid() && pos + length <= buf.Length
      modifies buf
      ensures Put(buf, pos, ListBytes(items), next)
    {
      hide AllProper, Proper, PropertyBytes, ListBytes;
      ListStart(items);
      ghost var start, done := buf[..pos], [];
      next := pos;
      var i := 0;
      while i < |items|
        invariant 0 <= i <= |items|
        invariant ProperFrom(items, i) && done + ListBytes(items[i..]) == ListBytes(items)
        invariant next == pos + |done| && buf[..next] == start + done && buf[next..] == old(buf[next..])
      {
        ListStep(items, i);
        Regroup(done, PropertyBytes(items[i]), ListBytes(items[i + 1..]));
        Regroup(start, done, PropertyBytes(items[i]));
        next := WriteProperty(buf, next, items[i]);
        done := done + PropertyBytes(items[i]);
        i := i + 1;
      }
      ListEnd(items, done);
    }
  }

  ghost predicate ProperFrom(ps: seq<Property>, i: nat) {
    i <= |ps| && AllProper(ps) && AllProper(ps[i..])
  }

  lemma ListStart(ps: seq<Property>)
    requires AllProper(ps)
    ensures ProperFrom(ps, 0) && [] + ListBytes(ps[0..]) == ListBytes(ps)
  {
    assert ps[0..] == ps;
  }

  lemma ListStep(ps: seq<Property>, i: nat)
    requires ProperFrom(ps, i) && i < |ps|
    ensures Proper(ps[i]) && ProperFrom(ps, i + 1)
    ensures ListBytes(ps[i..]) == PropertyBytes(ps[i]) + ListBytes(ps[i + 1..])
  {
    assert ps[i..][1..] == ps[i + 1..];
  }

  lemma ListEnd(ps: seq<Property>, done: seq<byte>)
    requires ProperFrom(ps, |ps|)
    ensures done + ListBytes(ps[|ps|..]) == done
  {
  }

  lemma Regroup(a: seq<byte>, b: seq<byte>, c: seq<byte>)
    ensures a + b + c == a + (b + c)
  {
  }

  method WriteContent(buf: array<byte>, pos: nat, t: Type, c: Content) returns (next: nat)
    requires Fits(t, c) && pos + |ContentBytes(c)| <= buf.Length
    modifies buf
    ensures Put(buf, pos, ContentBytes(c), next)
  {
    hide Int2, Int4, Utf, Encode;
    ghost var start := buf[..pos];
    match t {
      case Byte => next := WriteChar(buf, pos, c.b);
      case TwoByteInteger => next := WriteInt(buf, pos, c.n);
      case FourByteInteger =>
        StoredSmall(c.n);
        next := WriteInt4(buf, pos, c.n);
      case VariableByteInteger => next := WriteVbi(buf, pos, c.n);
      case BinaryData => next := WriteUtf(buf, pos, c.data);
      case Utf8String => next := WriteUtf(buf, pos, c.data);
      case Utf8Pair =>
        Regroup(start, Utf(c.data), Utf(c.value));
        next := WriteUtf(buf, pos, c.data);
        next := WriteUtf(buf, next, c.value);
    }
  }

  /** MQTTProperty_write. */
  method WriteProperty(buf: array<byte>, pos: nat, p: Property) returns (next: nat)
    requires Proper(p) && pos + |PropertyBytes(p)| <= buf.Length
    modifies buf
    ensures Put(buf, pos, PropertyBytes(p), next)
  {
    var t := GetType(p.identifier);
    hide TypeOf, ContentBytes;
    ghost var start := buf[..pos];
    Regroup(start, [p.identifier], ContentBytes(p.content));
    next := WriteChar(buf, pos, p.identifier);
    next := WriteContent(buf, next, t.value, p.content);
  }

  // ----- reading

  method ReadContent(buf: seq<byte>, pos: nat, end: nat, t: Type, ghost c: Content) returns (r: Option<Content>, next: nat)
    requires Fits(t, c) && Has(buf, pos, ContentBytes(c)) && pos + |ContentBytes(c)| <= end <= |buf|
    ensures r == Some(c) && next == pos + |ContentBytes(c)|
  {
    hide Int4, Encode, Utf;
    match t {
      case Byte =>
        assert buf[pos..pos + 1] == [c.b];
        r, next := Some(Small(buf[pos])), pos + 1;
      case TwoByteInteger =>
        var n;
        n, next := ReadInt(buf, pos);
        Int2Unique(n, c.n, buf[pos..pos + 2]);
        r := Some(Short(n));
      case FourByteInteger =>
        var n;
        n, next := ReadInt4(buf, pos);
        r := Some(Long(n));
      case VariableByteInteger =>
        VbiAt(buf, pos, c.n);
        var n, len := ReadVbi(buf, pos);
        r, next := Some(Variable(n)), pos + len;
      case BinaryData => r, next := ReadData(buf, pos, end, c.data);
      case Utf8String => r, next := ReadData(buf, pos, end, c.data);
      case Utf8Pair =>
        HasParts(buf, pos, Utf(c.data), Utf(c.value));
        var first, second;
        first, next := ReadData(buf, pos, end, c.data);
        second, next := ReadData(buf, next, end, c.value);
        r := Some(Pair(first.value.data, second.value.data));
    }
  }

  method ReadData(buf: seq<byte>, pos: nat, end: nat, ghost data: seq<byte>) returns (r: Option<Content>, next: nat)
    requires |data| <= MAX_INT2 && Has(buf, pos, Utf(data)) && pos + |Utf(data)| <= end <= |buf|
    ensures r == Some(Data(data)) && next == pos + |Utf(data)|
  {
    UtfThere(buf, pos, data);
    var s;
    s, next := ReadUtf(buf, pos, end);
    UtfUnique(buf, pos, s.value, data);
    r := Some(Data(s.value));
  }

  lemma UtfThere(buf: seq<byte>, pos: nat, data: seq<byte>)
    requires |data| <= MAX_INT2 && Has(buf, pos, Utf(data))
    ensures ToInt2(buf[pos], buf[pos + 1]) == |data|
  {
    HasParts(buf, pos, Int2(|data|), data);
    assert buf[pos..pos + 2] == Int2(|data|);
    Int2Unique(|data|, |data|, buf[pos..pos + 2]);
  }

  /** MQTTProperty_read, where a property has been written. */
  method ReadProperty(buf: seq<byte>, pos: nat, end: nat, ghost p: Property) returns (r: Option<Property>, next: nat)
    requires Proper(p) && Has(buf, pos, PropertyBytes(p)) && pos + |PropertyBytes(p)| <= end <= |buf|
    ensures r == Some(p) && next == pos + |PropertyBytes(p)|
  {
    HasParts(buf, pos, [p.identifier], ContentBytes(p.content));
    assert buf[pos..pos + 1] == [p.identifier];
    hide ContentBytes;
    var t := GetType(buf[pos]);
    hide TypeOf;
    var c;
    c, next := ReadContent(buf, pos + 1, end, t.value, p.content);
    r := Some(Property(buf[pos], c.value));
  }

  /** MQTTProperties_read, where a list has been written: the same list, and the pointer stops behind it. */
  method Read(buf: seq<byte>, pos: nat, end: nat, ghost ps: seq<Property>)
    returns (list: PropertyList, ok: bool, next: nat)
    requires AllProper(ps) && |ListBytes(ps)| <= MAX_REMAINING
    requires Has(buf, pos, WireBytes(ps)) && pos + |WireBytes(ps)| <= end <= |buf|
    ensures fresh(list) && list.Valid() && list.items == ps && ok && next == pos + |WireBytes(ps)|
  {
    list := new PropertyList();
    HasParts(buf, pos, Encode(|ListBytes(ps)|), ListBytes(ps));
    VbiAt(buf, pos, |ListBytes(ps)|);
    hide AllProper, Proper, PropertyBytes, Encode, ListBytes, Has;
    var remaining, len := ReadVbi(buf, pos);
    list.length := remaining;
    remaining, next := ReadItems(buf, pos + len, end, list, remaining, ps);
    ok := remaining == 0;
  }

  /** Properties until their announced length is used up. */
  method ReadItems(buf: seq<byte>, pos: nat, end: nat, list: PropertyList, length: nat, ghost ps: seq<Property>)
    returns (remaining: nat, next: nat)
    requires AllProper(ps) && length == |ListBytes(ps)| && list.items == []
    requires Has(buf, pos, ListBytes(ps)) && pos + length <= end <= |buf|
    modifies list`items
    ensures remaining == 0 && list.items == ps && next == pos + length
  {
    hide AllProper, Proper, PropertyBytes, ListBytes, Has;
    ListStart(ps);
    next, remaining := pos, length;
    ghost var i := 0;
    while remaining > 0
      invariant i <= |ps| && list.items == ps[..i]
      invariant ProperFrom(ps, i) && remaining == |ListBytes(ps[i..])| && Has(buf, next, ListBytes(ps[i..]))
      invariant next + remaining == pos + length
    {
      ListNotEmpty(ps, i);
      ListStep(ps, i);
      HasParts(buf, next, PropertyBytes(ps[i]), ListBytes(ps[i + 1..]));
      var was := next;
      var p;
      p, next := ReadProperty(buf, next, end, ps[i]);
      remaining := remaining - (next - was);
      list.items := list.items + [p.value];
      i := i + 1;
    }
    ListNotEmpty(ps, i);
  }

  lemma CopyReady(ps: seq<Property>)
    requires AllProper(ps)
    ensures forall i :: 0 <= i < |ps| ==> Proper(ps[i]) && TypeOf(ps[i].identifier).Some?
  {
  }

  lemma ListNotEmpty(ps: seq<Property>, i: nat)
    requires ProperFrom(ps, i)
    ensures i == |ps| <==> ListBytes(ps[i..]) == []
    ensures i == |ps| ==> ps[..i] == ps
  {
    if i < |ps| {
      ListStep(ps, i);
    }
  }
}
