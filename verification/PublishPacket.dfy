/**
 PUBLISH packets (MQTT 5.0 section 3.3): built as a row of buffers, sent or stored, and parsed again
 (MQTTPacket.c and MQTTPersistence.c).
 */
module PublishPacket {
  import opened Framing
  import opened PacketData
  import opened Properties
  import PacketWriter

  datatype Publish = Publish(
    dup: bool, qos: int, retained: bool,
    topic: seq<byte>, msgId: nat, properties: seq<Property>, payload: seq<byte>)

  const PUBLISH := 3

  function Bit(b: bool): int {
    if b then 1 else 0
  }

  /** The bits of the header byte. */
  function HeaderByte(p: Publish): byte
    requires 0 <= p.qos <= 2
  {
    PUBLISH * 16 + Bit(p.dup) * 8 + p.qos * 2 + Bit(p.retained)
  }

  /** What can be sent at a protocol version. */
  ghost predicate CanSend(version: int, p: Publish) {
    && 0 <= p.qos <= 2 && |p.topic| <= MAX_INT2 && 0 !in p.topic && p.msgId <= MAX_INT2
    && (p.qos == 0 ==> p.msgId == 0)
    && (if version >= 5 then AllProper(p.properties) && |ListBytes(p.properties)| <= MAX_REMAINING else p.properties == [])
    && |Body(version, p)| <= MAX_REMAINING
  }

  /** The message id and properties. */
  function Middle(version: int, p: Publish): seq<byte>
    requires p.msgId <= MAX_INT2 && (version >= 5 ==> AllProper(p.properties))
  {
    (if p.qos > 0 then Int2(p.msgId) else []) + (if version >= 5 then WireBytes(p.properties) else [])
  }

  function Body(version: int, p: Publish): seq<byte>
    requires |p.topic| <= MAX_INT2 && p.msgId <= MAX_INT2 && (version >= 5 ==> AllProper(p.properties))
  {
    Utf(p.topic) + (Middle(version, p) + p.payload)
  }

  ghost function PacketBytes(version: int, p: Publish): seq<byte>
    requires CanSend(version, p)
  {
    [HeaderByte(p)] + Encode(|Body(version, p)|) + Body(version, p)
  }

  // ----- building

  /** The buffer for the message id and properties has exactly the length computed for it. */
  method BuildMiddle(version: int, p: Publish, props: PropertyList) returns (data: seq<byte>)
    requires CanSend(version, p) && (version >= 5 ==> props.Valid() && props.items == p.properties)
    ensures data == Middle(version, p)
  {
    var buflen := (if p.qos > 0 then 2 else 0) + (if version >= 5 then props.Len() else 0);
    var buf := new byte[buflen];
    var ptr := 0;
    if p.qos > 0 {
      ptr := WriteInt(buf, ptr, p.msgId);
    }
    if version >= 5 {
      ptr := props.Write(buf, ptr);
    }
    assert ptr == buflen;
    data := buf[..];
    assert data == buf[..ptr];
  }

  method Sum(bufs: seq<seq<byte>>) returns (total: nat)
    ensures total == |PacketWriter.Concat(bufs)|
  {
    total := 0;
    for i := 0 to |bufs|
      invariant total == |PacketWriter.Concat(bufs[..i])|
    {
      total := total + |bufs[i]|;
      PacketWriter.ConcatOne(bufs[..i], bufs[i]);
      assert bufs[..i] + [bufs[i]] == bufs[..i + 1];
    }
    assert bufs[..|bufs|] == bufs;
  }

  /** The buffers behind the first one (MQTTPacket_send_publish). */
  method Buffers(version: int, p: Publish, props: PropertyList) returns (bufs: seq<seq<byte>>)
    requires CanSend(version, p) && (version >= 5 ==> props.Valid() && props.items == p.properties)
    ensures PacketWriter.Concat(bufs) == Body(version, p)
    ensures |bufs| < PacketWriter.MAX_IOVECS && (p.qos > 0 ==> |bufs| == 4 && bufs[2] == Middle(version, p))
  {
    hide AllProper, ListBytes, WireBytes, PacketWriter.Concat;
    var len := new byte[2];
    var next := WriteInt(len, 0, |p.topic|);
    assert len[..] == len[..next];
    var topiclen := len[..];
    if p.qos > 0 || version >= 5 {
      var middle := BuildMiddle(version, p, props);
      bufs := [topiclen, p.topic, middle, p.payload];
      FourBuffers(topiclen, p.topic, middle, p.payload);
    } else {
      bufs := [topiclen, p.topic, p.payload];
      ThreeBuffers(topiclen, p.topic, p.payload);
    }
  }

  /**
   MQTTPacket_sends: all buffers handed to the socket and to the store, and the message id taken from them for
   the key of the record.
   */
  method SendPublish(version: int, p: Publish, props: PropertyList)
    returns (buf0: seq<byte>, bufs: seq<seq<byte>>, keyId: nat)
    requires CanSend(version, p) && (version >= 5 ==> props.Valid() && props.items == p.properties)
    ensures PacketWriter.Concat([buf0] + bufs) == PacketBytes(version, p)
    ensures 1 + |bufs| <= 5 == PacketWriter.MAX_IOVECS
    ensures keyId == if p.qos > 0 then p.msgId else 0
  {
    hide AllProper, Body, Encode, PacketWriter.Concat;
    bufs := Buffers(version, p, props);
    var total := Sum(bufs);
    buf0 := FirstBuffer(HeaderByte(p), total);
    keyId := 0;
    if p.qos > 0 {
      MiddleStarts(version, p);
      var next;
      keyId, next := ReadInt(bufs[2], 0);
      MiddleId(version, p, keyId);
    }
    PacketWriter.ConcatTwo([buf0], bufs);
    OneBuffer(buf0);
  }

  lemma OneBuffer(a: seq<byte>)
    ensures PacketWriter.Concat([a]) == a
  {
    PacketWriter.ConcatOne([], a);
    assert [] + [a] == [a] && PacketWriter.Concat([]) + a == a;
  }

  lemma MiddleStarts(version: int, p: Publish)
    requires CanSend(version, p) && p.qos > 0
    ensures |Middle(version, p)| >= 2
  {
  }

  lemma FourBuffers(a: seq<byte>, b: seq<byte>, c: seq<byte>, d: seq<byte>)
    ensures PacketWriter.Concat([a, b, c, d]) == a + b + (c + d)
  {
    ThreeBuffers(a, b, c);
    PacketWriter.ConcatOne([a, b, c], d);
    assert [a, b, c] + [d] == [a, b, c, d];
  }

  lemma ThreeBuffers(a: seq<byte>, b: seq<byte>, c: seq<byte>)
    ensures PacketWriter.Concat([a, b, c]) == a + b + ([] + c)
  {
    PacketWriter.ConcatOne([], a);
    PacketWriter.ConcatOne([a], b);
    PacketWriter.ConcatOne([a, b], c);
    assert [] + [a] == [a] && [a] + [b] == [a, b] && [a, b] + [c] == [a, b, c];
  }

  lemma MiddleId(version: int, p: Publish, id: nat)
    requires CanSend(version, p) && p.qos > 0 && id <= MAX_INT2 && Has(Middle(version, p), 0, Int2(id))
    ensures id == p.msgId
  {
    var m := Middle(version, p);
    assert m[..2] == Int2(p.msgId) && m[0..2] == m[..2];
    Int2Unique(id, p.msgId, m[..2]);
  }

  // ----- parsing

  /** Topic and message id, or nothing if one of them runs beyond the end. */
  method ReadHead(qos: int, data: seq<byte>) returns (head: Option<(seq<byte>, nat)>, cur: nat)
    ensures head.None? <==> !Readable(qos, data)
    ensures head.Some? ==>
              && |head.value.0| <= MAX_INT2 && head.value.1 <= MAX_INT2
              && Has(data, 0, Utf(head.value.0))
              && (if qos > 0 then Has(data, 2 + |head.value.0|, Int2(head.value.1)) else head.value.1 == 0)
              && cur == 2 + |head.value.0| + (if qos > 0 then 2 else 0) <= |data|
  {
    hide Utf, Int2;
    var topic;
    topic, cur := ReadUtf(data, 0, |data|);
    if topic.None? {
      return None, cur;
    }
    UtfThere(data, 0, topic.value);
    var msgId := 0;
    if qos > 0 {
      if |data| - cur < 2 {
        return None, cur;
      }
      msgId, cur := ReadInt(data, cur);
    }
    head := Some((topic.value, msgId));
  }

  /** Where the parts of a body lie. */
  lemma BodyParts(version: int, p: Publish)
    requires CanSend(version, p)
    ensures var data := Body(version, p);
            var afterTopic := 2 + |p.topic|;
            var afterId := afterTopic + if p.qos > 0 then 2 else 0;
            var end := afterId + if version >= 5 then |WireBytes(p.properties)| else 0;
            && Has(data, 0, Utf(p.topic))
            && (p.qos > 0 ==> Has(data, afterTopic, Int2(p.msgId)))
            && (version >= 5 ==> Has(data, afterId, WireBytes(p.properties)))
            && end <= |data| && data[end..] == p.payload
  {
    hide Utf, Int2, WireBytes, Has, AllProper, ListBytes;
    var data, m := Body(version, p), Middle(version, p);
    var id := if p.qos > 0 then Int2(p.msgId) else [];
    var ps := if version >= 5 then WireBytes(p.properties) else [];
    Everywhere(data);
    HasParts(data, 0, Utf(p.topic), m + p.payload);
    HasParts(data, |Utf(p.topic)|, m, p.payload);
    HasParts(data, |Utf(p.topic)|, id, ps);
    EndOf(data, |Utf(p.topic)| + |m|, p.payload);
  }

  lemma Everywhere(data: seq<byte>)
    ensures Has(data, 0, data)
  {
  }

  lemma EndOf(data: seq<byte>, pos: nat, s: seq<byte>)
    requires Has(data, pos, s) && pos + |s| == |data|
    ensures data[pos..] == s
  {
  }

  /** The head of a body that has been built. */
  lemma HeadIs(version: int, p: Publish, topic: seq<byte>, id: nat)
    requires CanSend(version, p) && |topic| <= MAX_INT2 && id <= MAX_INT2
    requires Has(Body(version, p), 0, Utf(topic))
    requires if p.qos > 0 then Has(Body(version, p), 2 + |topic|, Int2(id)) else id == 0
    ensures topic == p.topic && id == p.msgId
  {
    var data := Body(version, p);
    BodyParts(version, p);
    UtfUnique(data, 0, topic, p.topic);
    if p.qos > 0 {
      Int2Unique(id, p.msgId, data[2 + |topic|..2 + |topic| + 2]);
    }
  }

  lemma HeadReadable(version: int, p: Publish)
    requires CanSend(version, p)
    ensures Readable(p.qos, Body(version, p))
  {
    BodyParts(version, p);
    UtfThere(Body(version, p), 0, p.topic);
    hide Body;
  }

  lemma HeaderBits(p: Publish)
    requires 0 <= p.qos <= 2
    ensures var h := HeaderByte(p);
            h / 16 == PUBLISH && h / 8 % 2 == Bit(p.dup) && h / 2 % 4 == p.qos && h % 2 == Bit(p.retained)
  {
  }

  /** MQTTPacket_publish on a body that has been built: the same packet. */
  method ParseBuilt(version: int, aHeader: byte, data: seq<byte>, ghost sent: Publish) returns (pack: Option<Publish>)
    requires CanSend(version, sent) && data == Body(version, sent) && aHeader == HeaderByte(sent)
    ensures pack == Some(sent)
  {
    HeaderBits(sent);
    HeadReadable(version, sent);
    BodyParts(version, sent);
    hide Body, Middle, Utf, Int2, AllProper, ListBytes, WireBytes, Has, HeaderByte;
    var dup, qos, retained: int := aHeader / 8 % 2, aHeader / 2 % 4, aHeader % 2;
    var head, cur := ReadHead(qos, data);
    if head.None? {
      return None;
    }
    HeadIs(version, sent, head.value.0, head.value.1);
    var properties := [];
    if version >= 5 {
      var list, ok;
      list, ok, cur := Properties.Read(data, cur, |data|, sent.properties);
      if !ok {
        return None;
      }
      properties := list.items;
    }
    pack := Some(Publish(dup == 1, qos, retained == 1, head.value.0, head.value.1, properties, data[cur..]));
  }

  /** A topic within the data, and behind it a message id if there should be one. */
  predicate Readable(qos: int, data: seq<byte>) {
    && |data| >= 2
    && var end := 2 + ToInt2(data[0], data[1]);
       end <= |data| && (qos > 0 ==> end + 2 <= |data|)
  }

  /** MQTTPersistence_restorePacket on a record that has been stored. */
  method RestorePacket(version: int, buffer: seq<byte>, ghost sent: Publish) returns (pack: Option<Publish>)
    requires CanSend(version, sent) && buffer == PacketBytes(version, sent)
    ensures pack == Some(sent)
  {
    RecordParts(version, sent);
    HeaderBits(sent);
    hide Body, Encode, HeaderByte;
    var header := buffer[0];
    var remaining, len := ReadVbi(buffer, 1);
    pack := None;
    if 1 + len + remaining == |buffer| {
      if 1 <= header / 16 <= 14 {
        pack := ParseBuilt(version, header, buffer[1 + len..], sent);
      }
    }
  }

  lemma RecordParts(version: int, p: Publish)
    requires CanSend(version, p)
    ensures var buffer, n := PacketBytes(version, p), |Body(version, p)|;
            && |buffer| > 1 && buffer[0] == HeaderByte(p)
            && Decode(buffer[1..], MAX_LENGTH_BYTES) == Value(n, |Encode(n)|)
            && |buffer| == 1 + |Encode(n)| + n && buffer[1 + |Encode(n)|..] == Body(version, p)
  {
    hide Body, HeaderByte;
    var body := Body(version, p);
    var buffer, e := PacketBytes(version, p), Encode(|body|);
    assert buffer[1..1 + |e|] == e;
    VbiAt(buffer, 1, |body|);
  }

  /** A reader of the stream finds exactly this packet in the bytes sent. */
  lemma BuiltIsFramed(version: int, p: Publish)
    requires CanSend(version, p)
    ensures OnePacketLong(PacketBytes(version, p))
    ensures Frame(PacketBytes(version, p)).packet == Packet(HeaderByte(p), Body(version, p))
  {
    hide Body, HeaderByte, Encode;
    MadeOfParts(HeaderByte(p), Body(version, p));
  }
}
