/**
 What a peer reads in the packets built here, by the words of the standard alone (MQTT 5.0 sections 1.5, 2.1, 2.2.2,
 3.1, 3.3, 3.8 and 3.10; MQTT 3.1.1 for the older forms): flags bit by bit, numbers byte by byte, and the fields that
 the flags announce.  The readers know nothing of how a packet is built.
 */
module PeerReads {
  import opened Framing
  import P = PacketData
  import Q = Properties
  import O = PacketOut
  import S = PublishPacket
  import MessageIds
  import PacketWriter

  /** A value and what follows it, or nothing. */
  datatype Got<+T> = Nothing | Got(value: T, rest: seq<byte>) {
    predicate IsFailure() { Nothing? }

    function PropagateFailure<U>(): Got<U>
      requires Nothing?
    {
      Nothing
    }

    function Extract(): (T, seq<byte>)
      requires Got?
    {
      (value, rest)
    }
  }

  // ----- data types (section 1.5)

  function GetByte(s: seq<byte>): Got<byte> {
    if s == [] then Nothing else Got(s[0], s[1..])
  }

  /** The high byte comes first. */
  function GetShort(s: seq<byte>): Got<nat> {
    if |s| < 2 then Nothing
    else
      var hi: int, lo: int := s[0], s[1];
      Got(256 * hi + lo, s[2..])
  }

  function GetLong(s: seq<byte>): Got<nat> {
    if |s| < 4 then Nothing
    else
      var a: int, b: int, c: int, d: int := s[0], s[1], s[2], s[3];
      Got(16777216 * a + 65536 * b + 256 * c + d, s[4..])
  }

  /** What the byte at each place of a variable byte integer counts. */
  const WEIGHTS: seq<nat> := [1, 128, 16384, 2097152]

  /** Seven bits a byte, the low ones first; the top bit says that another byte follows, and there are at most four. */
  function GetVariable(s: seq<byte>, place: nat): Got<nat>
    requires place <= 4
    decreases 4 - place
  {
    if s == [] || place == 4 then Nothing
    else
      var b: int := s[0];
      if b < 128 then Got(b * WEIGHTS[place], s[1..])
      else
        var more :- GetVariable(s[1..], place + 1);
        Got((b - 128) * WEIGHTS[place] + more.0, more.1)
  }

  function GetData(s: seq<byte>): Got<seq<byte>> {
    var n :- GetShort(s);
    if n.0 <= |n.1| then Got(n.1[..n.0], n.1[n.0..]) else Nothing
  }

  /** Bit k of a byte. */
  predicate Bit(b: byte, k: nat)
    requires k < 8
  {
    b / [1, 2, 4, 8, 16, 32, 64, 128][k] % 2 == 1
  }

  // ----- properties (section 2.2.2)

  function GetContent(t: Q.Type, s: seq<byte>): Got<Q.Content> {
    match t
    case Byte => var x :- GetByte(s); Got(Q.Small(x.0), x.1)
    case TwoByteInteger => var x :- GetShort(s); Got(Q.Short(x.0), x.1)
    case FourByteInteger => var x :- GetLong(s); Got(Q.Long(x.0), x.1)
    case VariableByteInteger => var x :- GetVariable(s, 0); Got(Q.Variable(x.0), x.1)
    case BinaryData => var x :- GetData(s); Got(Q.Data(x.0), x.1)
    case Utf8String => var x :- GetData(s); Got(Q.Data(x.0), x.1)
    case Utf8Pair =>
      var x :- GetData(s);
      var y :- GetData(x.1);
      Got(Q.Pair(x.0, y.0), y.1)
  }

  /** How the value of each property is written. */
  function FormOf(id: byte): P.Option<Q.Type> {
    match id
    case 1 => P.Some(Q.Byte)                     // payload format indicator
    case 2 => P.Some(Q.FourByteInteger)          // message expiry interval
    case 3 => P.Some(Q.Utf8String)               // content type
    case 8 => P.Some(Q.Utf8String)               // response topic
    case 9 => P.Some(Q.BinaryData)               // correlation data
    case 11 => P.Some(Q.VariableByteInteger)     // subscription identifier
    case 17 => P.Some(Q.FourByteInteger)         // session expiry interval
    case 18 => P.Some(Q.Utf8String)              // assigned client identifier
    case 19 => P.Some(Q.TwoByteInteger)          // server keep alive
    case 21 => P.Some(Q.Utf8String)              // authentication method
    case 22 => P.Some(Q.BinaryData)              // authentication data
    case 23 => P.Some(Q.Byte)                    // request problem information
    case 24 => P.Some(Q.FourByteInteger)         // will delay interval
    case 25 => P.Some(Q.Byte)                    // request response information
    case 26 => P.Some(Q.Utf8String)              // response information
    case 28 => P.Some(Q.Utf8String)              // server reference
    case 31 => P.Some(Q.Utf8String)              // reason string
    case 33 => P.Some(Q.TwoByteInteger)          // receive maximum
    case 34 => P.Some(Q.TwoByteInteger)          // topic alias maximum
    case 35 => P.Some(Q.TwoByteInteger)          // topic alias
    case 36 => P.Some(Q.Byte)                    // maximum QoS
    case 37 => P.Some(Q.Byte)                    // retain available
    case 38 => P.Some(Q.Utf8Pair)                // user property
    case 39 => P.Some(Q.FourByteInteger)         // maximum packet size
    case 40 => P.Some(Q.Byte)                    // wildcard subscription available
    case 41 => P.Some(Q.Byte)                    // subscription identifier available
    case 42 => P.Some(Q.Byte)                    // shared subscription available
    case _ => P.None
  }

  lemma TypesAgree(id: byte)
    ensures Q.TypeOf(id) == FormOf(id)
  {
  }

  function GetProperty(s: seq<byte>): Got<Q.Property> {
    var id :- GetByte(s);
    var t := FormOf(id.0);
    if t.None? then Nothing
    else
      var c :- GetContent(t.value, id.1);
      Got(Q.Property(id.0, c.0), c.1)
  }

  /** Properties up to the end. */
  function AllProperties(s: seq<byte>): Got<seq<Q.Property>>
    decreases |s|
  {
    if s == [] then Got([], [])
    else
      var p :- GetProperty(s);
      if |p.1| >= |s| then Nothing
      else
        var more :- AllProperties(p.1);
        Got([p.0] + more.0, more.1)
  }

  function GetProperties(s: seq<byte>): Got<seq<Q.Property>> {
    var n :- GetVariable(s, 0);
    if n.0 > |n.1| then Nothing
    else
      var ps :- AllProperties(n.1[..n.0]);
      Got(ps.0, n.1[n.0..])
  }

  // ----- what has been written is read

  lemma CutAt(a: seq<byte>, b: seq<byte>)
    ensures (a + b)[|a|..] == b && (a + b)[..|a|] == a
  {
  }

  lemma ShortRead(n: nat, rest: seq<byte>)
    requires n <= P.MAX_INT2
    ensures GetShort(P.Int2(n) + rest) == Got(n, rest)
  {
    CutAt(P.Int2(n), rest);
  }

  lemma LongRead(n: nat, rest: seq<byte>)
    requires n < P.TWO32
    ensures GetLong(P.Int4(n) + rest) == Got(n, rest)
  {
    P.Int4Value(n);
    var s := P.Int4(n);
    hide P.Int4;
    assert forall i :: 0 <= i < 4 ==> (s + rest)[i] == s[i];
    CutAt(s, rest);
  }

  lemma {:induction false} VariableRead(n: nat, rest: seq<byte>, place: nat)
    requires place < 4 && n < [268435456, 2097152, 16384, 128][place]
    ensures GetVariable(Encode(n) + rest, place) == Got(n * WEIGHTS[place], rest)
    decreases 4 - place
  {
    var s := Encode(n) + rest;
    if n < 128 {
      assert s == [n] + rest && s[1..] == rest;
    } else {
      var q, d := n / 128, n % 128;
      assert s == [d + 128] + (Encode(q) + rest) && s[1..] == Encode(q) + rest;
      assert place < 3;
      VariableRead(q, rest, place + 1);
      Places(d, q, place);
    }
  }

  lemma Places(d: nat, q: nat, place: nat)
    requires place < 3
    ensures d * WEIGHTS[place] + q * WEIGHTS[place + 1] == (128 * q + d) * WEIGHTS[place]
  {
  }

  lemma LengthRead(n: nat, rest: seq<byte>)
    requires n <= MAX_REMAINING
    ensures GetVariable(Encode(n) + rest, 0) == Got(n, rest)
  {
    VariableRead(n, rest, 0);
  }

  lemma DataRead(data: seq<byte>, rest: seq<byte>)
    requires |data| <= P.MAX_INT2
    ensures GetData(P.Utf(data) + rest) == Got(data, rest)
  {
    assert P.Utf(data) + rest == P.Int2(|data|) + (data + rest);
    ShortRead(|data|, data + rest);
    CutAt(data, rest);
    hide P.Int2;
  }

  lemma ContentRead(t: Q.Type, c: Q.Content, rest: seq<byte>)
    requires Q.Fits(t, c)
    ensures GetContent(t, Q.ContentBytes(c) + rest) == Got(c, rest)
  {
    hide GetShort, GetLong, GetVariable, GetData, P.Int2, P.Int4, P.Utf, Encode;
    match c
    case Small(b) =>
    case Short(n) => ShortRead(n, rest);
    case Long(n) => LongRead(n, rest);
    case Variable(n) => LengthRead(n, rest);
    case Data(data) => DataRead(data, rest);
    case Pair(data, value) =>
      assert P.Utf(data) + P.Utf(value) + rest == P.Utf(data) + (P.Utf(value) + rest);
      DataRead(data, P.Utf(value) + rest);
      DataRead(value, rest);
  }

  lemma PropertyRead(p: Q.Property, rest: seq<byte>)
    requires Q.Proper(p)
    ensures GetProperty(Q.PropertyBytes(p) + rest) == Got(p, rest)
  {
    TypesAgree(p.identifier);
    hide GetContent, Q.ContentBytes, Q.TypeOf, FormOf;
    var s := Q.PropertyBytes(p) + rest;
    assert s[0] == p.identifier && s[1..] == Q.ContentBytes(p.content) + rest;
    ContentRead(Q.TypeOf(p.identifier).value, p.content, rest);
  }

  lemma {:induction false} ListRead(ps: seq<Q.Property>)
    requires Q.AllProper(ps)
    ensures AllProperties(Q.ListBytes(ps)) == Got(ps, [])
  {
    hide GetProperty, Q.PropertyBytes, Q.Proper;
    if ps != [] {
      PropertyRead(ps[0], Q.ListBytes(ps[1..]));
      ListRead(ps[1..]);
      assert ps == [ps[0]] + ps[1..];
    }
  }

  lemma PropertiesRead(ps: seq<Q.Property>, rest: seq<byte>)
    requires Q.AllProper(ps) && |Q.ListBytes(ps)| <= MAX_REMAINING
    ensures GetProperties(Q.WireBytes(ps) + rest) == Got(ps, rest)
  {
    hide Q.AllProper, Q.ListBytes, AllProperties, GetVariable, Encode;
    var list := Q.ListBytes(ps);
    assert Q.WireBytes(ps) + rest == Encode(|list|) + (list + rest);
    LengthRead(|list|, list + rest);
    CutAt(list, rest);
    ListRead(ps);
  }

  // ----- packets (section 2.1)

  /** The first byte and the rest of one packet, with nothing behind it. */
  function GetPacket(s: seq<byte>): Got<byte> {
    var first :- GetByte(s);
    var n :- GetVariable(first.1, 0);
    if n.0 != |n.1| then Nothing else Got(first.0, n.1)
  }

  lemma PacketRead(first: byte, body: seq<byte>)
    requires |body| <= MAX_REMAINING
    ensures GetPacket([first] + Encode(|body|) + body) == Got(first, body)
  {
    hide GetVariable, Encode;
    LengthRead(|body|, body);
    Prefixed(first, Encode(|body|), body);
  }

  lemma Prefixed(first: byte, a: seq<byte>, b: seq<byte>)
    ensures var s := [first] + a + b; s[0] == first && s[1..] == a + b
  {
  }

  /** The loops read every stretch of bytes as the standard does, well formed or not: a length needs more bytes while each
      of fewer than four has its top bit set, and is malformed if four have. */
  lemma {:induction false} LengthsAgree(s: seq<byte>, place: nat)
    requires place <= 4
    ensures var d, g := Decode(s, 4 - place), GetVariable(s, place);
            && (d.Value? <==> g.Got?)
            && (d.Value? ==> d.value * [1, 128, 16384, 2097152, 0][place] == g.value && d.used <= |s| && s[d.used..] == g.rest)
            && (d.More? ==> |s| < 4 - place) && (d.Bad? ==> |s| >= 4 - place)
    decreases 4 - place
  {
    if place < 4 && s != [] && s[0] >= 128 {
      LengthsAgree(s[1..], place + 1);
      var d := Decode(s[1..], 3 - place);
      if d.Value? {
        assert s[d.used + 1..] == s[1..][d.used..];
        if place < 3 { Places(s[0] % 128, d.value, place); }
      }
    }
  }

  /** So do the packets. */
  lemma PacketsAgree(s: seq<byte>, first: byte, body: seq<byte>)
    ensures GetPacket(s) == Got(first, body) <==> Frame(s) == Whole(Packet(first, body), |s|)
  {
    hide Decode, GetVariable;
    if s != [] {
      LengthsAgree(s[1..], 0);
      var d := Decode(s[1..], MAX_LENGTH_BYTES);
      if d.Value? {
        assert s[1..][d.used..] == s[1 + d.used..];
        assert |s| == 1 + d.used + d.value ==> s[1 + d.used..1 + d.used + d.value] == s[1 + d.used..];
      }
    }
  }

  /** The ids that the client gives out are all that fit into the two bytes of a packet, but for zero. */
  lemma IdsAreShorts(id: int)
    ensures MessageIds.InRing(id) <==> id != 0 && exists s :: |s| == 2 && GetShort(s) == Got(id, [])
  {
    if MessageIds.InRing(id) {
      ShortRead(id, []);
      assert P.Int2(id) + [] == P.Int2(id) && GetShort(P.Int2(id)) == Got(id, []);
    }
  }

  /** The type of a packet is in the upper four bits. */
  predicate IsType(first: byte, kind: nat) {
    first / 16 == kind
  }

  predicate LowBits(first: byte, bits: nat) {
    first % 16 == bits
  }

  // ----- a row of fields

  lemma FirstField(s: seq<byte>, more: seq<seq<byte>>)
    ensures O.Fields([s] + more) == s + O.Fields(more)
  {
    PacketWriter.ConcatTwo([s], more);
    S.OneBuffer(s);
  }

  lemma NoMoreFields()
    ensures O.Fields([]) == []
  {
  }

  lemma FieldsTogether(a: seq<seq<byte>>, b: seq<seq<byte>>)
    ensures O.Fields(a + b) == O.Fields(a) + O.Fields(b)
  {
    PacketWriter.ConcatTwo(a, b);
  }

  // ----- CONNECT (section 3.1)

  datatype LastWill = LastWill(topic: seq<byte>, payload: seq<byte>, qos: nat, retained: bool, properties: seq<Q.Property>)

  datatype Connection = Connection(
    version: nat, clean: bool, keepAlive: nat, properties: seq<Q.Property>, clientID: seq<byte>,
    will: P.Option<LastWill>, username: P.Option<seq<byte>>, password: P.Option<seq<byte>>)

  function Ascii(s: string): seq<int> {
    seq(|s|, i requires 0 <= i < |s| => s[i] as int)
  }

  /** Version 3 calls the protocol MQIsdp, versions 4 and 5 call it MQTT. */
  predicate NameFits(name: seq<byte>, version: byte) {
    (version == 3 && name == Ascii("MQIsdp")) || ((version == 4 || version == 5) && name == Ascii("MQTT"))
  }

  /** Bit 0 is reserved; without a will its bits are zero; a QoS of three there is not. */
  predicate FlagsFit(flags: byte) {
    !Bit(flags, 0) && (!Bit(flags, 2) ==> !Bit(flags, 3) && !Bit(flags, 4) && !Bit(flags, 5)) && !(Bit(flags, 3) && Bit(flags, 4))
  }

  function GetListFrom5(version: nat, s: seq<byte>): Got<seq<Q.Property>> {
    if version >= 5 then GetProperties(s) else Got([], s)
  }

  function GetIf(there: bool, s: seq<byte>): Got<P.Option<seq<byte>>> {
    if there then var x :- GetData(s); Got(P.Some(x.0), x.1) else Got(P.None, s)
  }

  function GetWill(version: nat, flags: byte, s: seq<byte>): Got<P.Option<LastWill>> {
    if !Bit(flags, 2) then Got(P.None, s)
    else
      var ps :- GetListFrom5(version, s);
      var topic :- GetData(ps.1);
      var payload :- GetData(topic.1);
      var qos := (if Bit(flags, 3) then 1 else 0) + (if Bit(flags, 4) then 2 else 0);
      Got(P.Some(LastWill(topic.0, payload.0, qos, Bit(flags, 5), ps.0)), payload.1)
  }

  datatype Opening = Opening(version: byte, flags: byte, keepAlive: nat, properties: seq<Q.Property>)

  /** The variable header. */
  function GetOpening(s: seq<byte>): Got<Opening> {
    var name :- GetData(s);
    var version :- GetByte(name.1);
    var flags :- GetByte(version.1);
    var keepAlive :- GetShort(flags.1);
    var ps :- GetListFrom5(version.0, keepAlive.1);
    if !NameFits(name.0, version.0) || !FlagsFit(flags.0) then Nothing
    else Got(Opening(version.0, flags.0, keepAlive.0, ps.0), ps.1)
  }

  function ReadConnect(s: seq<byte>): Got<Connection> {
    var packet :- GetPacket(s);
    if !IsType(packet.0, 1) || !LowBits(packet.0, 0) then Nothing
    else
      var opening :- GetOpening(packet.1);
      var o := opening.0;
      var id :- GetData(opening.1);
      var will :- GetWill(o.version, o.flags, id.1);
      var username :- GetIf(Bit(o.flags, 7), will.1);
      var password :- GetIf(Bit(o.flags, 6), username.1);
      if password.1 != [] then Nothing
      else Got(Connection(o.version, Bit(o.flags, 1), o.keepAlive, o.properties, id.0, will.0, username.0, password.0), [])
  }

  /** What a client means to say. */
  function Meant(version: nat, c: O.Client, props: seq<Q.Property>, willProps: seq<Q.Property>): Connection
    requires O.Connectable(c)
  {
    Connection(
      version, if version >= 5 then c.cleanstart else c.cleansession, c.keepAlive, if version >= 5 then props else [], c.clientID,
      match c.will
      case None => P.None
      case Some(w) => P.Some(LastWill(w.topic, w.payload, w.qos, w.retained, if version >= 5 then willProps else [])),
      c.username, c.password)
  }

  lemma FlagsRead(version: int, c: O.Client)
    requires O.Connectable(c)
    ensures var f := O.ConnectFlags(version, c);
            && FlagsFit(f)
            && Bit(f, 1) == (if version >= 5 then c.cleanstart else c.cleansession)
            && Bit(f, 2) == c.will.Some?
            && (c.will.Some? ==>
                  && c.will.value.qos == (if Bit(f, 3) then 1 else 0) + (if Bit(f, 4) then 2 else 0)
                  && Bit(f, 5) == c.will.value.retained)
            && Bit(f, 6) == c.password.Some? && Bit(f, 7) == c.username.Some?
  {
    var b1: nat := if (if version >= 5 then c.cleanstart else c.cleansession) then 1 else 0;
    var w := c.will.Some?;
    var b2: nat := if w then 1 else 0;
    var b3: nat := if w && c.will.value.qos == 1 then 1 else 0;
    var b4: nat := if w && c.will.value.qos == 2 then 1 else 0;
    var b5: nat := if w && c.will.value.retained then 1 else 0;
    var b6: nat := if c.password.Some? then 1 else 0;
    var b7: nat := if c.username.Some? then 1 else 0;
    var f := O.ConnectFlags(version, c);
    assert f == 2 * b1 + 4 * b2 + 8 * b3 + 16 * b4 + 32 * b5 + 64 * b6 + 128 * b7;
    BitsOf(b1, b2, b3, b4, b5, b6, b7);
  }

  lemma BitsOf(b1: nat, b2: nat, b3: nat, b4: nat, b5: nat, b6: nat, b7: nat)
    requires b1 <= 1 && b2 <= 1 && b3 <= 1 && b4 <= 1 && b5 <= 1 && b6 <= 1 && b7 <= 1
    ensures var f: byte := 2 * b1 + 4 * b2 + 8 * b3 + 16 * b4 + 32 * b5 + 64 * b6 + 128 * b7;
            && !Bit(f, 0) && (Bit(f, 1) <==> b1 == 1) && (Bit(f, 2) <==> b2 == 1) && (Bit(f, 3) <==> b3 == 1)
            && (Bit(f, 4) <==> b4 == 1) && (Bit(f, 5) <==> b5 == 1) && (Bit(f, 6) <==> b6 == 1) && (Bit(f, 7) <==> b7 == 1)
  {
    hide Bit;
    BitIs(0, b1 + 2 * b2 + 4 * b3 + 8 * b4 + 16 * b5 + 32 * b6 + 64 * b7, 0, 0);
    BitIs(1, b2 + 2 * b3 + 4 * b4 + 8 * b5 + 16 * b6 + 32 * b7, b1, 0);
    BitIs(2, b3 + 2 * b4 + 4 * b5 + 8 * b6 + 16 * b7, b2, 2 * b1);
    BitIs(3, b4 + 2 * b5 + 4 * b6 + 8 * b7, b3, 2 * b1 + 4 * b2);
    BitIs(4, b5 + 2 * b6 + 4 * b7, b4, 2 * b1 + 4 * b2 + 8 * b3);
    BitIs(5, b6 + 2 * b7, b5, 2 * b1 + 4 * b2 + 8 * b3 + 16 * b4);
    BitIs(6, b7, b6, 2 * b1 + 4 * b2 + 8 * b3 + 16 * b4 + 32 * b5);
    BitIs(7, 0, b7, 2 * b1 + 4 * b2 + 8 * b3 + 16 * b4 + 32 * b5 + 64 * b6);
  }

  /** Bit k of a number put together from what is above it, itself, and what is below. */
  lemma BitIs(k: nat, above: nat, bit: nat, below: nat)
    requires k < 8 && bit <= 1
    requires var w := [1, 2, 4, 8, 16, 32, 64, 128][k]; below < w && (2 * above + bit) * w + below < 256
    ensures var w := [1, 2, 4, 8, 16, 32, 64, 128][k]; Bit((2 * above + bit) * w + below, k) <==> bit == 1
  {
  }

  /** The properties are short enough to be sent. */
  ghost predicate ShortEnough(ps: seq<Q.Property>) {
    Q.AllProper(ps) && |Q.ListBytes(ps)| <= MAX_REMAINING
  }

  lemma NameRead(version: nat)
    requires 3 <= version <= 5
    ensures NameFits(O.Protocol(version), version)
  {
    assert Ascii("MQIsdp") == [77, 81, 73, 115, 100, 112] && Ascii("MQTT") == [77, 81, 84, 84];
  }

  lemma OpeningRead(version: int, c: O.Client, props: seq<Q.Property>, rest: seq<byte>)
    requires 3 <= version <= 5 && O.Connectable(c) && ShortEnough(props)
    ensures GetOpening(O.Fields(O.ConnectFront(version, c, props)) + rest) ==
              Got(Opening(version, O.ConnectFlags(version, c), c.keepAlive, if version >= 5 then props else []), rest)
  {
    hide P.Utf, P.Int2, Q.WireBytes, GetData, GetShort, GetProperties, O.Fields, O.Protocol, O.ConnectFlags, NameFits, FlagsFit;
    var name, flags := O.Protocol(version), O.ConnectFlags(version, c);
    var list := if version >= 5 then Q.WireBytes(props) else [];
    OpeningBytes(version, c, props, rest);
    NameRead(version);
    FlagsRead(version, c);
    var s4 := list + rest;
    var s3 := P.Int2(c.keepAlive) + s4;
    var s2 := [flags] + s3;
    var s1 := [version] + s2;
    DataRead(name, s1);
    assert s1[0] == version && s1[1..] == s2 && s2[0] == flags && s2[1..] == s3;
    ShortRead(c.keepAlive, s4);
    if version >= 5 { PropertiesRead(props, rest); } else { assert s4 == rest; }
  }

  lemma OpeningBytes(version: int, c: O.Client, props: seq<Q.Property>, rest: seq<byte>)
    requires 3 <= version <= 5 && O.Connectable(c) && Q.AllProper(props)
    ensures O.Fields(O.ConnectFront(version, c, props)) + rest ==
              P.Utf(O.Protocol(version)) + ([version] + ([O.ConnectFlags(version, c)] + (P.Int2(c.keepAlive) +
                ((if version >= 5 then Q.WireBytes(props) else []) + rest))))
  {
    hide P.Utf, P.Int2, Q.WireBytes, O.Fields, O.Protocol, O.ConnectFlags;
    var a, b, f, k := P.Utf(O.Protocol(version)), [version], [O.ConnectFlags(version, c)], P.Int2(c.keepAlive);
    var l := if version >= 5 then [Q.WireBytes(props)] else [];
    assert O.ConnectFront(version, c, props) == [a] + ([b] + ([f] + ([k] + l)));
    FirstField(a, [b] + ([f] + ([k] + l)));
    FirstField(b, [f] + ([k] + l));
    FirstField(f, [k] + l);
    FirstField(k, l);
    NoMoreFields();
    FirstField(Q.WireBytes(props), []);
    assert [Q.WireBytes(props)] + [] == [Q.WireBytes(props)];
    Joined(a, b, f, k, O.Fields(l), rest);
  }

  lemma Joined(a: seq<byte>, b: seq<byte>, c: seq<byte>, d: seq<byte>, e: seq<byte>, f: seq<byte>)
    ensures (a + (b + (c + (d + e)))) + f == a + (b + (c + (d + (e + f))))
    ensures e + [] == e
  {
  }

  lemma WillBytes(version: int, c: O.Client, willProps: seq<Q.Property>, rest: seq<byte>)
    requires 3 <= version <= 5 && O.Connectable(c) && Q.AllProper(willProps) && c.will.Some?
    ensures O.Fields(O.ConnectWill(version, c, willProps)) + rest ==
              (if version >= 5 then Q.WireBytes(willProps) else []) +
              (P.Utf(c.will.value.topic) + (P.Utf(c.will.value.payload) + rest))
  {
    hide P.Utf, Q.WireBytes, O.Fields;
    var t, p := P.Utf(c.will.value.topic), P.Utf(c.will.value.payload);
    var l := if version >= 5 then [Q.WireBytes(willProps)] else [];
    assert O.ConnectWill(version, c, willProps) == l + ([t] + ([p] + []));
    FieldsTogether(l, [t] + ([p] + []));
    FirstField(t, [p] + []);
    FirstField(p, []);
    NoMoreFields();
    FirstField(Q.WireBytes(willProps), []);
    assert [Q.WireBytes(willProps)] + [] == [Q.WireBytes(willProps)];
    Joined([], [], O.Fields(l), t, p, rest);
  }

  lemma WillRead(version: int, c: O.Client, willProps: seq<Q.Property>, rest: seq<byte>)
    requires 3 <= version <= 5 && O.Connectable(c) && ShortEnough(willProps)
    ensures GetWill(version, O.ConnectFlags(version, c), O.Fields(O.ConnectWill(version, c, willProps)) + rest) ==
              Got(Meant(version, c, [], willProps).will, rest)
  {
    hide P.Utf, Q.WireBytes, GetData, GetProperties, O.Fields, O.ConnectFlags, Bit, FlagsFit;
    FlagsRead(version, c);
    if c.will.Some? {
      var w := c.will.value;
      var after := P.Utf(w.topic) + (P.Utf(w.payload) + rest);
      WillBytes(version, c, willProps, rest);
      if version >= 5 { PropertiesRead(willProps, after); } else { assert [] + after == after; }
      DataRead(w.topic, P.Utf(w.payload) + rest);
      DataRead(w.payload, rest);
    } else {
      NoMoreFields();
      assert [] + rest == rest;
    }
  }

  lemma IfRead(x: P.Option<seq<byte>>, rest: seq<byte>)
    requires x.Some? ==> |x.value| <= P.MAX_INT2
    ensures GetIf(x.Some?, (if x.Some? then P.Utf(x.value) else []) + rest) == Got(x, rest)
  {
    hide P.Utf, GetData;
    if x.Some? { DataRead(x.value, rest); } else { assert [] + rest == rest; }
  }

  lemma UserBytes(c: O.Client)
    requires O.Connectable(c)
    ensures O.Fields(O.ConnectUser(c)) == (if c.username.Some? then P.Utf(c.username.value) else []) +
                                         ((if c.password.Some? then P.Utf(c.password.value) else []) + [])
  {
    hide P.Utf, O.Fields;
    var u := if c.username.Some? then [P.Utf(c.username.value)] else [];
    var p := if c.password.Some? then [P.Utf(c.password.value)] else [];
    FieldsTogether(u, p);
    NoMoreFields();
    if c.username.Some? { FirstField(P.Utf(c.username.value), []); assert [P.Utf(c.username.value)] + [] == u; }
    if c.password.Some? { FirstField(P.Utf(c.password.value), []); assert [P.Utf(c.password.value)] + [] == p; }
  }

  /** A peer reads in a CONNECT just what the client means, at each of the three versions. */
  lemma ConnectIsRead(version: int, c: O.Client, props: seq<Q.Property>, willProps: seq<Q.Property>)
    requires 3 <= version <= 5 && O.Connectable(c) && ShortEnough(props) && ShortEnough(willProps)
    requires |O.Fields(O.ConnectFields(version, c, props, willProps))| <= MAX_REMAINING
    ensures ReadConnect(O.ConnectPacket(version, c, props, willProps)) == Got(Meant(version, c, props, willProps), [])
  {
    hide GetPacket, GetOpening, GetWill, GetIf, GetData, O.Fields, O.ConnectFront, O.ConnectWill, O.ConnectUser, P.Utf, Bit,
      O.ConnectFlags;
    var user, pass := if c.username.Some? then P.Utf(c.username.value) else [], if c.password.Some? then P.Utf(c.password.value) else [];
    var will := O.Fields(O.ConnectWill(version, c, willProps));
    var after := will + (user + (pass + []));
    PacketRead(16, O.Fields(O.ConnectFields(version, c, props, willProps)));
    ConnectBytes(version, c, props, willProps);
    UserBytes(c);
    OpeningRead(version, c, props, P.Utf(c.clientID) + after);
    DataRead(c.clientID, after);
    WillRead(version, c, willProps, user + (pass + []));
    FlagsRead(version, c);
    IfRead(c.username, pass + []);
    IfRead(c.password, []);
  }

  lemma ConnectBytes(version: int, c: O.Client, props: seq<Q.Property>, willProps: seq<Q.Property>)
    requires 3 <= version <= 5 && O.Connectable(c) && Q.AllProper(props) && Q.AllProper(willProps)
    ensures O.Fields(O.ConnectFields(version, c, props, willProps)) ==
              O.Fields(O.ConnectFront(version, c, props)) +
              (P.Utf(c.clientID) + (O.Fields(O.ConnectWill(version, c, willProps)) + O.Fields(O.ConnectUser(c))))
  {
    hide O.Fields, O.ConnectFront, O.ConnectWill, O.ConnectUser, P.Utf;
    var f, w, u := O.ConnectFront(version, c, props), O.ConnectWill(version, c, willProps), O.ConnectUser(c);
    assert O.ConnectFields(version, c, props, willProps) == f + ([P.Utf(c.clientID)] + (w + u));
    FieldsTogether(f, [P.Utf(c.clientID)] + (w + u));
    FirstField(P.Utf(c.clientID), w + u);
    FieldsTogether(w, u);
  }

  // ----- SUBSCRIBE and UNSUBSCRIBE (sections 3.8 and 3.10)

  datatype Wanted = Wanted(topic: seq<byte>, qos: int, noLocal: bool, retainAsPublished: bool, retainHandling: int)

  datatype Subscribing = Subscribing(msgid: nat, properties: seq<Q.Property>, wanted: seq<Wanted>)

  /** Two bits of a byte as a number. */
  function TwoBits(b: byte, k: nat): nat
    requires k < 7
  {
    (if Bit(b, k) then 1 else 0) + if Bit(b, k + 1) then 2 else 0
  }

  /** The QoS is in bits 0 and 1; version 5 has options in bits 2 to 5; the rest is reserved, and three is no value. */
  predicate OptionsFit(version: nat, b: byte) {
    && TwoBits(b, 0) < 3 && TwoBits(b, 4) < 3 && TwoBits(b, 6) == 0
    && (version < 5 ==> !Bit(b, 2) && !Bit(b, 3) && TwoBits(b, 4) == 0)
  }

  function AllWanted(version: nat, s: seq<byte>): Got<seq<Wanted>>
    decreases |s|
  {
    if s == [] then Got([], [])
    else
      var topic :- GetData(s);
      var b :- GetByte(topic.1);
      if !OptionsFit(version, b.0) || |b.1| >= |s| then Nothing
      else
        var more :- AllWanted(version, b.1);
        Got([Wanted(topic.0, TwoBits(b.0, 0), Bit(b.0, 2), Bit(b.0, 3), TwoBits(b.0, 4))] + more.0, more.1)
  }

  function ReadSubscribe(version: nat, s: seq<byte>): Got<Subscribing> {
    var packet :- GetPacket(s);
    if !IsType(packet.0, 8) || !LowBits(packet.0, 2) then Nothing
    else
      var id :- GetShort(packet.1);
      var ps :- GetListFrom5(version, id.1);
      var wanted :- AllWanted(version, ps.1);
      Got(Subscribing(id.0, ps.0, wanted.0), wanted.1)
  }

  function AllTopics(s: seq<byte>): Got<seq<seq<byte>>>
    decreases |s|
  {
    if s == [] then Got([], [])
    else
      var topic :- GetData(s);
      if |topic.1| >= |s| then Nothing
      else
        var more :- AllTopics(topic.1);
        Got([topic.0] + more.0, more.1)
  }

  datatype Unsubscribing = Unsubscribing(msgid: nat, properties: seq<Q.Property>, topics: seq<seq<byte>>)

  function ReadUnsubscribe(version: nat, s: seq<byte>): Got<Unsubscribing> {
    var packet :- GetPacket(s);
    if !IsType(packet.0, 10) || !LowBits(packet.0, 2) then Nothing
    else
      var id :- GetShort(packet.1);
      var ps :- GetListFrom5(version, id.1);
      var topics :- AllTopics(ps.1);
      Got(Unsubscribing(id.0, ps.0, topics.0), topics.1)
  }

  /** What one subscription asks for; without options all of them are off. */
  function Asked(sub: O.Subscription): Wanted {
    match sub.opts
    case None => Wanted(sub.topic, sub.qos, false, false, 0)
    case Some(o) => Wanted(sub.topic, sub.qos, o.noLocal, o.retainAsPublished, o.retainHandling)
  }

  function AllAsked(subs: seq<O.Subscription>): seq<Wanted> {
    seq(|subs|, i requires 0 <= i < |subs| => Asked(subs[i]))
  }

  lemma OptionsRead(version: int, sub: O.Subscription)
    requires version >= 0 && O.Subscribable([sub]) && (version < 5 ==> sub.opts.None?)
    ensures [sub][0] == sub
    ensures var b := O.OptionsByte(sub.qos, sub.opts);
            && OptionsFit(version, b)
            && Asked(sub) == Wanted(sub.topic, TwoBits(b, 0), Bit(b, 2), Bit(b, 3), TwoBits(b, 4))
  {
    assert [sub][0] == sub;
    var q, h := sub.qos, if sub.opts.Some? then sub.opts.value.retainHandling else 0;
    var b0: nat, b1: nat := if q == 1 then 1 else 0, if q == 2 then 1 else 0;
    var b2: nat := if sub.opts.Some? && sub.opts.value.noLocal then 1 else 0;
    var b3: nat := if sub.opts.Some? && sub.opts.value.retainAsPublished then 1 else 0;
    var b4: nat, b5: nat := if h == 1 then 1 else 0, if h == 2 then 1 else 0;
    assert O.OptionsByte(q, sub.opts) == b0 + 2 * b1 + 4 * b2 + 8 * b3 + 16 * b4 + 32 * b5;
    SixBits(b0, b1, b2, b3, b4, b5);
    hide Bit;
  }

  lemma SixBits(b0: nat, b1: nat, b2: nat, b3: nat, b4: nat, b5: nat)
    requires b0 <= 1 && b1 <= 1 && b2 <= 1 && b3 <= 1 && b4 <= 1 && b5 <= 1
    ensures var f: byte := b0 + 2 * b1 + 4 * b2 + 8 * b3 + 16 * b4 + 32 * b5;
            && (Bit(f, 0) <==> b0 == 1) && (Bit(f, 1) <==> b1 == 1) && (Bit(f, 2) <==> b2 == 1) && (Bit(f, 3) <==> b3 == 1)
            && (Bit(f, 4) <==> b4 == 1) && (Bit(f, 5) <==> b5 == 1) && !Bit(f, 6) && !Bit(f, 7)
  {
    hide Bit;
    BitIs(0, b1 + 2 * b2 + 4 * b3 + 8 * b4 + 16 * b5, b0, 0);
    BitIs(1, b2 + 2 * b3 + 4 * b4 + 8 * b5, b1, b0);
    BitIs(2, b3 + 2 * b4 + 4 * b5, b2, b0 + 2 * b1);
    BitIs(3, b4 + 2 * b5, b3, b0 + 2 * b1 + 4 * b2);
    BitIs(4, b5, b4, b0 + 2 * b1 + 4 * b2 + 8 * b3);
    BitIs(5, 0, b5, b0 + 2 * b1 + 4 * b2 + 8 * b3 + 16 * b4);
    BitIs(6, 0, 0, b0 + 2 * b1 + 4 * b2 + 8 * b3 + 16 * b4 + 32 * b5);
    BitIs(7, 0, 0, b0 + 2 * b1 + 4 * b2 + 8 * b3 + 16 * b4 + 32 * b5);
  }

  lemma {:induction false} FirstSubscription(subs: seq<O.Subscription>)
    requires O.Subscribable(subs) && subs != []
    ensures O.SubscriptionFields(subs) ==
              [P.Utf(subs[0].topic)] + ([[O.OptionsByte(subs[0].qos, subs[0].opts)]] + O.SubscriptionFields(subs[1..]))
  {
    hide P.Utf, O.OptionsByte;
    var n := |subs| - 1;
    if n == 0 {
      assert subs[..0] == [] && subs[1..] == [];
    } else {
      FirstSubscription(subs[..n]);
      assert subs[..n][1..] == subs[1..][..n - 1] && subs[1..][n - 1] == subs[n];
    }
  }

  lemma {:induction false} WantedRead(version: int, subs: seq<O.Subscription>)
    requires version >= 0 && O.Subscribable(subs) && (version < 5 ==> forall i :: 0 <= i < |subs| ==> subs[i].opts.None?)
    ensures AllWanted(version, O.Fields(O.SubscriptionFields(subs))) == Got(AllAsked(subs), [])
  {
    hide GetData, Bit, TwoBits, OptionsFit, P.Utf, O.Fields, O.OptionsByte, Asked;
    if subs == [] {
      NoMoreFields();
    } else {
      var u, o, l := P.Utf(subs[0].topic), O.OptionsByte(subs[0].qos, subs[0].opts), O.SubscriptionFields(subs[1..]);
      FirstSubscription(subs);
      FirstField(u, [[o]] + l);
      FirstField([o], l);
      var after := [o] + O.Fields(l);
      DataRead(subs[0].topic, after);
      assert after[0] == o && after[1..] == O.Fields(l);
      assert [subs[0]][0] == subs[0];
      OptionsRead(version, subs[0]);
      WantedRead(version, subs[1..]);
      assert AllAsked(subs) == [Asked(subs[0])] + AllAsked(subs[1..]);
    }
  }

  lemma FrontRead(version: int, msgid: nat, props: seq<Q.Property>, more: seq<seq<byte>>)
    requires version >= 0 && msgid <= P.MAX_INT2 && ShortEnough(props)
    ensures var s := O.Fields(O.Front(version, msgid, props) + more);
            && GetShort(s).Got? && GetShort(s).value == msgid
            && GetListFrom5(version, GetShort(s).rest) == Got(if version >= 5 then props else [], O.Fields(more))
  {
    hide GetShort, GetProperties, P.Int2, Q.WireBytes, O.Fields;
    var l := if version >= 5 then [Q.WireBytes(props)] else [];
    assert O.Front(version, msgid, props) + more == [P.Int2(msgid)] + (l + more);
    FirstField(P.Int2(msgid), l + more);
    ShortRead(msgid, O.Fields(l + more));
    if version >= 5 {
      FirstField(Q.WireBytes(props), more);
      PropertiesRead(props, O.Fields(more));
    } else {
      assert l + more == more;
    }
  }

  /** A peer reads in a SUBSCRIBE the topics with what is asked for each of them. */
  lemma SubscribeIsRead(version: int, msgid: nat, props: seq<Q.Property>, subs: seq<O.Subscription>)
    requires version >= 0 && msgid <= P.MAX_INT2 && ShortEnough(props) && O.Subscribable(subs)
    requires version < 5 ==> forall i :: 0 <= i < |subs| ==> subs[i].opts.None?
    requires |O.Fields(O.Front(version, msgid, props) + O.SubscriptionFields(subs))| <= MAX_REMAINING
    ensures ReadSubscribe(version, O.SubscribePacket(version, msgid, props, subs)) ==
              Got(Subscribing(msgid, if version >= 5 then props else [], AllAsked(subs)), [])
  {
    hide GetPacket, GetShort, GetListFrom5, AllWanted, O.Fields, O.Front, O.SubscriptionFields;
    PacketRead(130, O.Fields(O.Front(version, msgid, props) + O.SubscriptionFields(subs)));
    FrontRead(version, msgid, props, O.SubscriptionFields(subs));
    WantedRead(version, subs);
  }

  lemma {:induction false} FirstTopic(topics: seq<seq<byte>>)
    requires O.Topics(topics) && topics != []
    ensures O.TopicFields(topics) == [P.Utf(topics[0])] + O.TopicFields(topics[1..])
  {
    hide P.Utf;
    var n := |topics| - 1;
    if n == 0 {
      assert topics[..0] == [] && topics[1..] == [];
    } else {
      FirstTopic(topics[..n]);
      assert topics[..n][1..] == topics[1..][..n - 1] && topics[1..][n - 1] == topics[n];
    }
  }

  lemma {:induction false} TopicsRead(topics: seq<seq<byte>>)
    requires O.Topics(topics)
    ensures AllTopics(O.Fields(O.TopicFields(topics))) == Got(topics, [])
  {
    hide GetData, P.Utf, O.Fields;
    if topics == [] {
      NoMoreFields();
    } else {
      FirstTopic(topics);
      FirstField(P.Utf(topics[0]), O.TopicFields(topics[1..]));
      DataRead(topics[0], O.Fields(O.TopicFields(topics[1..])));
      TopicsRead(topics[1..]);
      assert topics == [topics[0]] + topics[1..];
    }
  }

  lemma UnsubscribeIsRead(version: int, msgid: nat, props: seq<Q.Property>, topics: seq<seq<byte>>)
    requires version >= 0 && msgid <= P.MAX_INT2 && ShortEnough(props) && O.Topics(topics)
    requires |O.Fields(O.Front(version, msgid, props) + O.TopicFields(topics))| <= MAX_REMAINING
    ensures ReadUnsubscribe(version, O.UnsubscribePacket(version, msgid, props, topics)) ==
              Got(Unsubscribing(msgid, if version >= 5 then props else [], topics), [])
  {
    hide GetPacket, GetShort, GetListFrom5, AllTopics, O.Fields, O.Front, O.TopicFields;
    PacketRead(162, O.Fields(O.Front(version, msgid, props) + O.TopicFields(topics)));
    FrontRead(version, msgid, props, O.TopicFields(topics));
    TopicsRead(topics);
  }

  // ----- PUBLISH (section 3.3)

  /** Type 3; dup is bit 3 of the first byte, the QoS bits 1 and 2, retain bit 0; an id only from QoS 1 on. */
  function ReadPublish(version: nat, s: seq<byte>): Got<S.Publish> {
    var packet :- GetPacket(s);
    var first := packet.0;
    var qos := TwoBits(first, 1);
    if !IsType(first, 3) || qos == 3 then Nothing
    else
      var topic :- GetData(packet.1);
      var id :- if qos > 0 then GetShort(topic.1) else Got(0, topic.1);
      var ps :- GetListFrom5(version, id.1);
      Got(S.Publish(Bit(first, 3), qos, Bit(first, 0), topic.0, id.0, ps.0, ps.1), [])
  }

  /** Any body, well formed or not, has a topic and an id for the client exactly when it has them for a peer. */
  lemma HeadsAgree(qos: int, data: seq<byte>)
    ensures S.Readable(qos, data) <==> GetData(data).Got? && (qos > 0 ==> GetShort(GetData(data).rest).Got?)
  {
  }

  lemma FirstByteRead(p: S.Publish)
    requires 0 <= p.qos <= 2
    ensures var h := S.HeaderByte(p);
            IsType(h, 3) && TwoBits(h, 1) == p.qos && Bit(h, 3) == p.dup && Bit(h, 0) == p.retained
  {
    var r: nat, d: nat := if p.retained then 1 else 0, if p.dup then 1 else 0;
    var q0: nat, q1: nat := if p.qos == 1 then 1 else 0, if p.qos == 2 then 1 else 0;
    assert S.HeaderByte(p) == 48 + 8 * d + 4 * q1 + 2 * q0 + r;
    BitIs(0, 24 + 4 * d + 2 * q1 + q0, r, 0);
    BitIs(1, 12 + 2 * d + q1, q0, r);
    BitIs(2, 6 + d, q1, 2 * q0 + r);
    BitIs(3, 3, d, 4 * q1 + 2 * q0 + r);
    hide Bit;
  }

  /** A peer reads in a PUBLISH the message that was sent, with its id and its flags. */
  lemma PublishIsRead(version: int, p: S.Publish)
    requires version >= 0 && S.CanSend(version, p)
    ensures ReadPublish(version, S.PacketBytes(version, p)) == Got(p, [])
  {
    hide GetPacket, GetShort, GetData, GetProperties, P.Utf, P.Int2, Q.WireBytes, Bit, TwoBits, S.HeaderByte, Q.ListBytes, Encode;
    PacketRead(S.HeaderByte(p), S.Body(version, p));
    FirstByteRead(p);
    var list := if version >= 5 then Q.WireBytes(p.properties) else [];
    var after := (if p.qos > 0 then P.Int2(p.msgId) else []) + (list + p.payload);
    assert S.Body(version, p) == P.Utf(p.topic) + after;
    DataRead(p.topic, after);
    if p.qos > 0 { ShortRead(p.msgId, list + p.payload); } else { assert after == list + p.payload; }
    if version >= 5 { PropertiesRead(p.properties, p.payload); } else { assert list + p.payload == p.payload; }
  }
}
