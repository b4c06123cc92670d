/**
 CONNECT, SUBSCRIBE and UNSUBSCRIBE packets (MQTTPacketOut.c): each is written into a buffer whose size is
 computed beforehand, and fills it exactly.
 */
module PacketOut {
  import opened Framing
  import opened PacketData
  import opened Properties
  import PacketWriter

  /** The bytes of a row of fields. */
  function Fields(pieces: seq<seq<byte>>): seq<byte> {
    PacketWriter.Concat(pieces)
  }

  lemma OneMore(pieces: seq<seq<byte>>, s: seq<byte>)
    ensures Fields(pieces + [s]) == Fields(pieces) + s
  {
    PacketWriter.ConcatOne(pieces, s);
  }

  /** The buffer so far holds these fields. */
  ghost predicate Filled(buf: array<byte>, ptr: nat, pieces: seq<seq<byte>>)
    reads buf
  {
    ptr == |Fields(pieces)| <= buf.Length && buf[..ptr] == Fields(pieces)
  }

  // ----- the whole packet

  const CONNECT := 1
  const SUBSCRIBE := 8
  const UNSUBSCRIBE := 10

  /** The bits of the first byte: type, dup, QoS and retain. */
  function Header(kind: nat, dup: bool, qos: nat, retain: bool): byte
    requires kind < 16 && qos < 4
  {
    kind * 16 + Flag(dup, 8) + qos * 2 + Flag(retain, 1)
  }

  function Flag(b: bool, value: nat): nat {
    if b then value else 0
  }

  function PacketBytes(header: byte, body: seq<byte>): seq<byte> {
    [header] + Encode(|body|) + body
  }

  /** MQTTPacket_send, up to the socket: header and remaining length in a buffer of their own. */
  method Assemble(header: byte, body: seq<byte>) returns (buf0: seq<byte>)
    ensures buf0 + body == PacketBytes(header, body)
  {
    buf0 := FirstBuffer(header, |body|);
  }

  // ----- one field

  method FieldChar(buf: array<byte>, ptr: nat, c: byte, ghost pieces: seq<seq<byte>>) returns (next: nat)
    requires Filled(buf, ptr, pieces) && ptr + 1 <= buf.Length
    modifies buf
    ensures Filled(buf, next, pieces + [[c]]) && next == ptr + 1
  {
    OneMore(pieces, [c]);
    next := WriteChar(buf, ptr, c);
  }

  method FieldInt(buf: array<byte>, ptr: nat, n: nat, ghost pieces: seq<seq<byte>>) returns (next: nat)
    requires Filled(buf, ptr, pieces) && ptr + 2 <= buf.Length && n <= MAX_INT2
    modifies buf
    ensures Filled(buf, next, pieces + [Int2(n)]) && next == ptr + 2
  {
    OneMore(pieces, Int2(n));
    next := WriteInt(buf, ptr, n);
  }

  method FieldUtf(buf: array<byte>, ptr: nat, s: seq<byte>, ghost pieces: seq<seq<byte>>) returns (next: nat)
    requires Filled(buf, ptr, pieces) && ptr + |s| + 2 <= buf.Length && |s| <= MAX_INT2
    modifies buf
    ensures Filled(buf, next, pieces + [Utf(s)]) && next == ptr + |s| + 2
  {
    OneMore(pieces, Utf(s));
    next := WriteUtf(buf, ptr, s);
  }

  /** The properties a pointer stands for; the null pointer stands for none. */
  ghost function Listed(props: PropertyList?): seq<Property>
    reads props
  {
    if props == null then [] else props.items
  }

  ghost predicate CanSend(props: PropertyList?)
    reads props
  {
    props != null ==> props.Valid() && props.length <= MAX_REMAINING
  }

  /** MQTTProperties_len. */
  method PropertiesLen(props: PropertyList?) returns (n: nat)
    requires CanSend(props)
    ensures AllProper(Listed(props)) && n == |WireBytes(Listed(props))|
  {
    if props == null {
      n := 1;
    } else {
      props.LenIsExact();
      n := props.Len();
    }
  }

  method FieldProperties(buf: array<byte>, ptr: nat, props: PropertyList?, ghost pieces: seq<seq<byte>>) returns (next: nat)
    requires CanSend(props) && AllProper(Listed(props))
    requires Filled(buf, ptr, pieces) && ptr + |WireBytes(Listed(props))| <= buf.Length
    modifies buf
    ensures Filled(buf, next, pieces + [WireBytes(Listed(props))]) && next == ptr + |WireBytes(Listed(props))|
  {
    OneMore(pieces, WireBytes(Listed(props)));
    if props == null {
      next := WriteVbi(buf, ptr, 0);
    } else {
      props.LenIsExact();
      next := props.Write(buf, ptr);
    }
  }

  // ----- SUBSCRIBE and UNSUBSCRIBE

  datatype SubscribeOptions = SubscribeOptions(noLocal: bool, retainAsPublished: bool, retainHandling: int)

  predicate Topics(topics: seq<seq<byte>>) {
    forall i :: 0 <= i < |topics| ==> |topics[i]| <= MAX_INT2
  }

  /** The options byte of one subscription (MQTT 5.0 section 3.8.3.1). */
  function OptionsByte(qos: int, opts: Option<SubscribeOptions>): byte
    requires 0 <= qos <= 2 && (opts.Some? ==> 0 <= opts.value.retainHandling <= 2)
  {
    match opts
    case None => qos
    case Some(o) => qos + (if o.noLocal then 4 else 0) + (if o.retainAsPublished then 8 else 0) + o.retainHandling * 16
  }

  datatype Subscription = Subscription(topic: seq<byte>, qos: int, opts: Option<SubscribeOptions>)

  predicate Subscribable(subs: seq<Subscription>) {
    forall i :: 0 <= i < |subs| ==>
      && |subs[i].topic| <= MAX_INT2 && 0 <= subs[i].qos <= 2
      && (subs[i].opts.Some? ==> 0 <= subs[i].opts.value.retainHandling <= 2)
  }

  function SubscriptionFields(subs: seq<Subscription>): seq<seq<byte>>
    requires Subscribable(subs)
  {
    if subs == [] then []
    else
      var last := subs[|subs| - 1];
      SubscriptionFields(subs[..|subs| - 1]) + [Utf(last.topic)] + [[OptionsByte(last.qos, last.opts)]]
  }

  function TopicFields(topics: seq<seq<byte>>): seq<seq<byte>>
    requires Topics(topics)
  {
    if topics == [] then [] else TopicFields(topics[..|topics| - 1]) + [Utf(topics[|topics| - 1])]
  }

  /** Message id and, from version 5 on, properties. */
  function Front(version: int, msgid: nat, props: seq<Property>): seq<seq<byte>>
    requires msgid <= MAX_INT2 && AllProper(props)
  {
    [Int2(msgid)] + if version >= 5 then [WireBytes(props)] else []
  }

  function TotalSize(topics: seq<seq<byte>>): nat {
    if topics == [] then 0 else TotalSize(topics[..|topics| - 1]) + |topics[|topics| - 1]|
  }

  lemma {:induction false} TopicsSize(pieces: seq<seq<byte>>, topics: seq<seq<byte>>)
    requires Topics(topics)
    ensures |Fields(pieces + TopicFields(topics))| == |Fields(pieces)| + TotalSize(topics) + 2 * |topics|
  {
    if topics == [] {
      assert pieces + [] == pieces;
    } else {
      var front, last := topics[..|topics| - 1], topics[|topics| - 1];
      TopicsSize(pieces, front);
      assert pieces + TopicFields(topics) == pieces + TopicFields(front) + [Utf(last)];
      OneMore(pieces + TopicFields(front), Utf(last));
    }
  }

  method SumTopics(topics: seq<seq<byte>>, each: nat) returns (n: nat)
    ensures n == each * |topics| + TotalSize(topics)
  {
    n := |topics| * each;
    var i := 0;
    while i < |topics|
      invariant 0 <= i <= |topics| && n == |topics| * each + TotalSize(topics[..i])
    {
      assert topics[..i + 1][..i] == topics[..i];
      n := n + |topics[i]|;
      i := i + 1;
    }
    assert topics[..i] == topics;
  }

  method WriteFront(buf: array<byte>, version: int, msgid: nat, props: PropertyList?) returns (ptr: nat)
    requires msgid <= MAX_INT2 && CanSend(props) && AllProper(Listed(props))
    requires 2 + (if version >= 5 then |WireBytes(Listed(props))| else 0) <= buf.Length
    modifies buf
    ensures Filled(buf, ptr, Front(version, msgid, Listed(props)))
  {
    hide WireBytes, AllProper, Int2;
    assert Filled(buf, 0, []);
    assert [] + [Int2(msgid)] == [Int2(msgid)];
    ptr := FieldInt(buf, 0, msgid, []);
    if version >= 5 {
      ptr := FieldProperties(buf, ptr, props, [Int2(msgid)]);
    } else {
      assert [Int2(msgid)] + [] == [Int2(msgid)];
    }
  }

  /** MQTTPacket_send_unsubscribe: the buffer is exactly filled. */
  method BuildUnsubscribe(version: int, topics: seq<seq<byte>>, props: PropertyList?, msgid: nat) returns (data: seq<byte>)
    requires Topics(topics) && msgid <= MAX_INT2 && CanSend(props)
    ensures AllProper(Listed(props))
    ensures data == Fields(Front(version, msgid, Listed(props)) + TopicFields(topics))
  {
    hide WireBytes, AllProper, Fields, Int2;
    var sum := SumTopics(topics, 2);
    var propsLen := PropertiesLen(props);
    var datalen := 2 + sum;
    if version >= 5 {
      datalen := datalen + propsLen;
    }
    var buf := new byte[datalen];
    var ptr := WriteFront(buf, version, msgid, props);
    ghost var front := Front(version, msgid, Listed(props));
    FrontSize(version, msgid, Listed(props));
    TopicsSize(front, topics);
    ptr := WriteTopics(buf, ptr, topics, front);
    assert ptr == datalen;
    data := buf[..];
    assert data == buf[..ptr];
  }

  method WriteTopics(buf: array<byte>, start: nat, topics: seq<seq<byte>>, ghost front: seq<seq<byte>>) returns (ptr: nat)
    requires Topics(topics) && Filled(buf, start, front) && start + TotalSize(topics) + 2 * |topics| <= buf.Length
    modifies buf
    ensures Filled(buf, ptr, front + TopicFields(topics))
  {
    hide Fields, TotalSize;
    ptr := start;
    assert topics[..0] == [] && front + TopicFields([]) == front;
    var i := 0;
    while i < |topics|
      invariant 0 <= i <= |topics| && Filled(buf, ptr, front + TopicFields(topics[..i]))
    {
      Room(front, topics, i);
      assert topics[..i + 1][..i] == topics[..i];
      assert front + TopicFields(topics[..i + 1]) == front + TopicFields(topics[..i]) + [Utf(topics[i])];
      ptr := FieldUtf(buf, ptr, topics[i], front + TopicFields(topics[..i]));
      i := i + 1;
    }
    assert topics[..i] == topics;
  }

  lemma FrontSize(version: int, msgid: nat, props: seq<Property>)
    requires msgid <= MAX_INT2 && AllProper(props)
    ensures |Fields(Front(version, msgid, props))| == 2 + if version >= 5 then |WireBytes(props)| else 0
  {
    hide WireBytes, Int2;
    OneMore([], Int2(msgid));
    OneMore([Int2(msgid)], WireBytes(props));
    assert [] + [Int2(msgid)] == [Int2(msgid)] && [Int2(msgid)] + [] == [Int2(msgid)];
  }

  /** There is room for the next topic. */
  lemma Room(front: seq<seq<byte>>, topics: seq<seq<byte>>, i: nat)
    requires Topics(topics) && i < |topics|
    ensures |Fields(front + TopicFields(topics[..i]))| + |topics[i]| + 2 <= |Fields(front)| + TotalSize(topics) + 2 * |topics|
  {
    TopicsSize(front, topics[..i]);
    TotalGrows(topics, i + 1);
    assert topics[..i + 1][..i] == topics[..i];
  }

  lemma {:induction false} TotalGrows(topics: seq<seq<byte>>, i: nat)
    requires i <= |topics|
    ensures TotalSize(topics[..i]) <= TotalSize(topics)
  {
    if i < |topics| {
      var front := topics[..|topics| - 1];
      assert front[..i] == topics[..i];
      TotalGrows(front, i);
    } else {
      assert topics[..i] == topics;
    }
  }

  function TopicsOf(subs: seq<Subscription>): (t: seq<seq<byte>>)
    ensures |t| == |subs| && forall i :: 0 <= i < |subs| ==> t[i] == subs[i].topic
  {
    seq(|subs|, i requires 0 <= i < |subs| => subs[i].topic)
  }

  lemma {:induction false} SubscriptionsSize(pieces: seq<seq<byte>>, subs: seq<Subscription>)
    requires Subscribable(subs)
    ensures |Fields(pieces + SubscriptionFields(subs))| == |Fields(pieces)| + TotalSize(TopicsOf(subs)) + 3 * |subs|
  {
    if subs == [] {
      assert pieces + [] == pieces;
    } else {
      var front, last := subs[..|subs| - 1], subs[|subs| - 1];
      SubscriptionsSize(pieces, front);
      var options := [OptionsByte(last.qos, last.opts)];
      assert TopicsOf(subs)[..|subs| - 1] == TopicsOf(front);
      ThreeMore(pieces, SubscriptionFields(front), Utf(last.topic), options);
      OneMore(pieces + SubscriptionFields(front), Utf(last.topic));
      OneMore(pieces + SubscriptionFields(front) + [Utf(last.topic)], options);
    }
  }

  lemma ThreeMore(a: seq<seq<byte>>, b: seq<seq<byte>>, x: seq<byte>, y: seq<byte>)
    ensures a + (b + [x] + [y]) == a + b + [x] + [y]
  {
  }

  lemma SubscriptionRoom(front: seq<seq<byte>>, subs: seq<Subscription>, i: nat)
    requires Subscribable(subs) && i < |subs|
    ensures |Fields(front + SubscriptionFields(subs[..i]))| + |subs[i].topic| + 3 <=
            |Fields(front)| + TotalSize(TopicsOf(subs)) + 3 * |subs|
  {
    SubscriptionsSize(front, subs[..i]);
    var topics := TopicsOf(subs);
    TotalGrows(topics, i + 1);
    assert topics[..i + 1][..i] == topics[..i];
    assert TopicsOf(subs[..i]) == topics[..i];
  }

  lemma NextSubscription(front: seq<seq<byte>>, subs: seq<Subscription>, i: nat)
    requires Subscribable(subs) && i < |subs|
    ensures front + SubscriptionFields(subs[..i + 1]) ==
            front + SubscriptionFields(subs[..i]) + [Utf(subs[i].topic)] + [[OptionsByte(subs[i].qos, subs[i].opts)]]
  {
    assert subs[..i + 1][..i] == subs[..i];
    ThreeMore(front, SubscriptionFields(subs[..i]), Utf(subs[i].topic), [OptionsByte(subs[i].qos, subs[i].opts)]);
  }

  /** MQTTPacket_send_subscribe: the buffer is exactly filled. Options are sent from version 5 on, if there are any. */
  method BuildSubscribe(version: int, topics: seq<seq<byte>>, qoss: seq<int>, opts: Option<seq<SubscribeOptions>>,
                        props: PropertyList?, msgid: nat, ghost subs: seq<Subscription>) returns (data: seq<byte>)
    requires |topics| == |qoss| == |subs| && (opts.Some? ==> |opts.value| == |topics|) && Subscribable(subs)
    requires forall i :: 0 <= i < |topics| ==>
               subs[i] == Subscription(topics[i], qoss[i],
                                       if version >= 5 && opts.Some? then Some(opts.value[i]) else None)
    requires msgid <= MAX_INT2 && CanSend(props)
    ensures AllProper(Listed(props))
    ensures data == Fields(Front(version, msgid, Listed(props)) + SubscriptionFields(subs))
  {
    hide WireBytes, AllProper, Fields, Int2, OptionsByte;
    var sum := SumTopics(topics, 3);
    assert topics == TopicsOf(subs);
    var propsLen := PropertiesLen(props);
    var datalen := 2 + sum;
    if version >= 5 {
      datalen := datalen + propsLen;
    }
    var buf := new byte[datalen];
    var ptr := WriteFront(buf, version, msgid, props);
    ghost var front := Front(version, msgid, Listed(props));
    FrontSize(version, msgid, Listed(props));
    SubscriptionsSize(front, subs);
    ptr := WriteSubscriptions(buf, ptr, version, topics, qoss, opts, subs, front);
    assert ptr == datalen;
    data := buf[..];
    assert data == buf[..ptr];
  }

  /** The topics with their options, one after the other. */
  method WriteSubscriptions(buf: array<byte>, start: nat, version: int, topics: seq<seq<byte>>, qoss: seq<int>,
                            opts: Option<seq<SubscribeOptions>>, ghost subs: seq<Subscription>, ghost front: seq<seq<byte>>)
    returns (ptr: nat)
    requires |topics| == |qoss| == |subs| && (opts.Some? ==> |opts.value| == |topics|) && Subscribable(subs)
    requires forall i :: 0 <= i < |topics| ==>
               subs[i] == Subscription(topics[i], qoss[i],
                                       if version >= 5 && opts.Some? then Some(opts.value[i]) else None)
    requires Filled(buf, start, front) && start + TotalSize(TopicsOf(subs)) + 3 * |subs| <= buf.Length
    modifies buf
    ensures Filled(buf, ptr, front + SubscriptionFields(subs))
  {
    hide Fields, OptionsByte, TopicsOf, TotalSize;
    ptr := start;
    assert subs[..0] == [] && front + SubscriptionFields([]) == front;
    var i := 0;
    while i < |topics|
      invariant 0 <= i <= |topics| && Filled(buf, ptr, front + SubscriptionFields(subs[..i]))
    {
      SubscriptionRoom(front, subs, i);
      NextSubscription(front, subs, i);
      ghost var before := front + SubscriptionFields(subs[..i]);
      ptr := FieldUtf(buf, ptr, topics[i], before);
      var subopts := MakeOptions(version, qoss[i], opts, i, subs[i]);
      ptr := FieldChar(buf, ptr, subopts, before + [Utf(topics[i])]);
      i := i + 1;
    }
    assert subs[..i] == subs;
  }

  /** The options byte, bit by bit. */
  method MakeOptions(version: int, qos: int, opts: Option<seq<SubscribeOptions>>, i: nat, ghost sub: Subscription)
    returns (subopts: byte)
    requires opts.Some? ==> i < |opts.value|
    requires sub.qos == qos && 0 <= qos <= 2 && (sub.opts.Some? ==> 0 <= sub.opts.value.retainHandling <= 2)
    requires sub.opts == if version >= 5 && opts.Some? then Some(opts.value[i]) else None
    ensures subopts == OptionsByte(sub.qos, sub.opts)
  {
    subopts := qos;
    if version >= 5 && opts.Some? {
      if opts.value[i].noLocal {
        subopts := subopts + 4;
      }
      if opts.value[i].retainAsPublished {
        subopts := subopts + 8;
      }
      subopts := subopts + opts.value[i].retainHandling * 16;
    }
  }

  // ----- CONNECT

  datatype Will = Will(topic: seq<byte>, payload: seq<byte>, qos: int, retained: bool)

  datatype Client = Client(
    clientID: seq<byte>, cleanstart: bool, cleansession: bool, keepAlive: int,
    will: Option<Will>, username: Option<seq<byte>>, password: Option<seq<byte>>)

  const VERSION_3_1 := 3
  const VERSION_5 := 5

  predicate Connectable(c: Client) {
    && |c.clientID| <= MAX_INT2 && 0 <= c.keepAlive <= MAX_INT2
    && (c.will.Some? ==> |c.will.value.topic| <= MAX_INT2 && |c.will.value.payload| <= MAX_INT2 && 0 <= c.will.value.qos <= 2)
    && (c.username.Some? ==> |c.username.value| <= MAX_INT2)
    && (c.password.Some? ==> |c.password.value| <= MAX_INT2)
  }

  /** Connect flags (MQTT 5.0 section 3.1.2.3). */
  function ConnectFlags(version: int, c: Client): byte
    requires Connectable(c)
  {
    var clean := if version >= VERSION_5 then c.cleanstart else c.cleansession;
    Flag(clean, 2)
    + (if c.will.Some? then 4 + c.will.value.qos * 8 + Flag(c.will.value.retained, 32) else 0)
    + Flag(c.password.Some?, 64) + Flag(c.username.Some?, 128)
  }

  /** "MQIsdp" for 3.1, "MQTT" from 3.1.1 on. */
  function Protocol(version: int): (s: seq<byte>)
    ensures |s| <= 6
  {
    if version == VERSION_3_1 then [77, 81, 73, 115, 100, 112] else [77, 81, 84, 84]
  }

  /** The variable header (section 3.1.2). */
  function ConnectFront(version: int, c: Client, props: seq<Property>): seq<seq<byte>>
    requires 3 <= version <= 5 && Connectable(c) && AllProper(props)
  {
    [Utf(Protocol(version)), [version], [ConnectFlags(version, c)], Int2(c.keepAlive)]
    + if version >= VERSION_5 then [WireBytes(props)] else []
  }

  /** Client id and will (section 3.1.3). */
  function ConnectWill(version: int, c: Client, willProps: seq<Property>): seq<seq<byte>>
    requires Connectable(c) && AllProper(willProps)
  {
    if c.will.None? then []
    else
      (if version >= VERSION_5 then [WireBytes(willProps)] else [])
      + [Utf(c.will.value.topic), Utf(c.will.value.payload)]
  }

  function ConnectUser(c: Client): seq<seq<byte>>
    requires Connectable(c)
  {
    (if c.username.Some? then [Utf(c.username.value)] else [])
    + (if c.password.Some? then [Utf(c.password.value)] else [])
  }

  function ConnectFields(version: int, c: Client, props: seq<Property>, willProps: seq<Property>): seq<seq<byte>>
    requires 3 <= version <= 5 && Connectable(c) && AllProper(props) && AllProper(willProps)
  {
    ConnectFront(version, c, props) + [Utf(c.clientID)] + ConnectWill(version, c, willProps) + ConnectUser(c)
  }

  method WriteConnectFront(buf: array<byte>, version: int, c: Client, props: PropertyList?) returns (ptr: nat)
    requires 3 <= version <= 5 && Connectable(c) && CanSend(props) && AllProper(Listed(props))
    requires FrontLength(version, Listed(props)) <= buf.Length
    modifies buf
    ensures Filled(buf, ptr, ConnectFront(version, c, Listed(props))) && ptr == FrontLength(version, Listed(props))
  {
    hide WireBytes, AllProper, Utf, Int2, Fields, ConnectFlags, Protocol;
    ghost var all := ConnectFront(version, c, Listed(props));
    ConnectFrontParts(version, c, Listed(props));
    NoFields(buf);
    if version == VERSION_3_1 {
      ptr := FieldUtf(buf, 0, Protocol(VERSION_3_1), []);
      ptr := FieldChar(buf, ptr, VERSION_3_1, [Utf(Protocol(version))]);
    } else {
      ptr := FieldUtf(buf, 0, Protocol(version), []);
      ptr := FieldChar(buf, ptr, version, [Utf(Protocol(version))]);
    }
    ptr := FieldChar(buf, ptr, ConnectFlags(version, c), all[..2]);
    ptr := FieldInt(buf, ptr, c.keepAlive, all[..3]);
    if version >= VERSION_5 {
      ptr := FieldProperties(buf, ptr, props, all[..4]);
    }
  }

  function FrontLength(version: int, props: seq<Property>): nat
    requires AllProper(props)
  {
    (if version == VERSION_3_1 then 12 else 10) + if version >= VERSION_5 then |WireBytes(props)| else 0
  }

  lemma NoFields(buf: array<byte>)
    ensures Filled(buf, 0, [])
  {
  }

  lemma ConnectFrontParts(version: int, c: Client, props: seq<Property>)
    requires 3 <= version <= 5 && Connectable(c) && AllProper(props)
    ensures var all := ConnectFront(version, c, props);
            && |all| == (if version >= 5 then 5 else 4)
            && [] + [Utf(Protocol(version))] == [Utf(Protocol(version))]
            && [Utf(Protocol(version))] + [[version]] == all[..2]
            && all[..2] + [[ConnectFlags(version, c)]] == all[..3]
            && all[..3] + [Int2(c.keepAlive)] == all[..4]
            && (version >= 5 ==> all[..4] + [WireBytes(props)] == all)
            && (version < 5 ==> all[..4] == all)
            && |Protocol(version)| == if version == VERSION_3_1 then 6 else 4
  {
    hide WireBytes, Utf, Int2, ConnectFlags;
  }

  method WriteWill(buf: array<byte>, start: nat, version: int, c: Client, willProps: PropertyList?, ghost before: seq<seq<byte>>)
    returns (ptr: nat)
    requires Connectable(c) && CanSend(willProps) && AllProper(Listed(willProps))
    requires Filled(buf, start, before) && start + WillLength(version, c, Listed(willProps)) <= buf.Length
    modifies buf
    ensures Filled(buf, ptr, before + ConnectWill(version, c, Listed(willProps)))
    ensures ptr == start + WillLength(version, c, Listed(willProps))
  {
    hide WireBytes, AllProper, Utf, Fields;
    ptr := start;
    ghost var pieces := before;
    if c.will.Some? {
      var will := c.will.value;
      if version >= VERSION_5 {
        ptr := FieldProperties(buf, ptr, willProps, pieces);
        pieces := pieces + [WireBytes(Listed(willProps))];
      }
      ptr := FieldUtf(buf, ptr, will.topic, pieces);
      ptr := FieldUtf(buf, ptr, will.payload, pieces + [Utf(will.topic)]);
      pieces := pieces + [Utf(will.topic)] + [Utf(will.payload)];
    }
    assert pieces == before + ConnectWill(version, c, Listed(willProps));
  }

  function WillLength(version: int, c: Client, willProps: seq<Property>): nat
    requires AllProper(willProps)
  {
    if c.will.None? then 0
    else |c.will.value.topic| + 2 + |c.will.value.payload| + 2 + if version >= VERSION_5 then |WireBytes(willProps)| else 0
  }

  method WriteUser(buf: array<byte>, start: nat, c: Client, ghost before: seq<seq<byte>>) returns (ptr: nat)
    requires Connectable(c) && Filled(buf, start, before) && start + UserLength(c) <= buf.Length
    modifies buf
    ensures Filled(buf, ptr, before + ConnectUser(c)) && ptr == start + UserLength(c)
  {
    hide Utf, Fields;
    ptr := start;
    ghost var pieces := before;
    if c.username.Some? {
      ptr := FieldUtf(buf, ptr, c.username.value, pieces);
      pieces := pieces + [Utf(c.username.value)];
    }
    if c.password.Some? {
      ptr := FieldUtf(buf, ptr, c.password.value, pieces);
      pieces := pieces + [Utf(c.password.value)];
    }
    assert pieces == before + ConnectUser(c);
  }

  function UserLength(c: Client): nat {
    (if c.username.Some? then |c.username.value| + 2 else 0) + if c.password.Some? then |c.password.value| + 2 else 0
  }

  lemma {:induction false} FieldsJoin(a: seq<seq<byte>>, b: seq<seq<byte>>)
    ensures |Fields(a + b)| == |Fields(a)| + |Fields(b)|
    decreases |b|
  {
    if b == [] {
      assert a + b == a && Fields(b) == [];
    } else {
      var b', last := b[..|b| - 1], b[|b| - 1];
      FieldsJoin(a, b');
      OneMore(a + b', last);
      OneMore(b', last);
      hide Fields;
      assert (a + b') + [last] == a + b && b' + [last] == b;
    }
  }

  lemma FieldsOne(s: seq<byte>)
    ensures |Fields([s])| == |s|
  {
    OneMore([], s);
    assert [] + [s] == [s] && Fields([]) == [];
  }

  lemma FieldsTwo(s: seq<byte>, t: seq<byte>)
    ensures |Fields([s, t])| == |s| + |t|
  {
    FieldsOne(s);
    OneMore([s], t);
    assert [s] + [t] == [s, t];
  }

  lemma ConnectFrontSize(version: int, c: Client, props: seq<Property>)
    requires 3 <= version <= 5 && Connectable(c) && AllProper(props)
    ensures |Fields(ConnectFront(version, c, props))| == FrontLength(version, props)
  {
    var a := [Utf(Protocol(version)), [version]];
    var b := [[ConnectFlags(version, c)], Int2(c.keepAlive)];
    var v := if version >= VERSION_5 then [WireBytes(props)] else [];
    FieldsTwo(Utf(Protocol(version)), [version]);
    FieldsTwo([ConnectFlags(version, c)], Int2(c.keepAlive));
    FieldsOne(WireBytes(props));
    FieldsJoin(a, b);
    FieldsJoin(a + b, v);
    hide WireBytes, Utf, Int2, ConnectFlags, AllProper;
    assert ConnectFront(version, c, props) == a + b + v;
    assert v == [] ==> Fields(v) == [];
    hide Fields;
  }

  lemma WillSize(version: int, c: Client, willProps: seq<Property>)
    requires Connectable(c) && AllProper(willProps)
    ensures |Fields(ConnectWill(version, c, willProps))| == WillLength(version, c, willProps)
  {
    if c.will.Some? {
      var v := if version >= VERSION_5 then [WireBytes(willProps)] else [];
      var b := [Utf(c.will.value.topic), Utf(c.will.value.payload)];
      FieldsOne(WireBytes(willProps));
      FieldsTwo(Utf(c.will.value.topic), Utf(c.will.value.payload));
      FieldsJoin(v, b);
      assert v == [] ==> Fields(v) == [];
      assert ConnectWill(version, c, willProps) == v + b;
      hide Fields, WireBytes, Utf;
    }
  }

  lemma UserSize(c: Client)
    requires Connectable(c)
    ensures |Fields(ConnectUser(c))| == UserLength(c)
  {
    var a := if c.username.Some? then [Utf(c.username.value)] else [];
    var b := if c.password.Some? then [Utf(c.password.value)] else [];
    if c.username.Some? { FieldsOne(Utf(c.username.value)); }
    if c.password.Some? { FieldsOne(Utf(c.password.value)); }
    FieldsJoin(a, b);
    assert ConnectUser(c) == a + b && Fields([]) == [];
    hide Fields, Utf;
  }

  /** The lengths of the parts add up to the bytes of all the fields. */
  lemma ConnectSize(version: int, c: Client, props: seq<Property>, willProps: seq<Property>)
    requires 3 <= version <= 5 && Connectable(c) && AllProper(props) && AllProper(willProps)
    ensures |Fields(ConnectFields(version, c, props, willProps))|
         == FrontLength(version, props) + |c.clientID| + 2 + WillLength(version, c, willProps) + UserLength(c)
  {
    var f, i, w, u := ConnectFront(version, c, props), [Utf(c.clientID)], ConnectWill(version, c, willProps), ConnectUser(c);
    ConnectFrontSize(version, c, props);
    FieldsOne(Utf(c.clientID));
    WillSize(version, c, willProps);
    UserSize(c);
    FieldsJoin(f, i);
    FieldsJoin(f + i, w);
    FieldsJoin(f + i + w, u);
    hide Fields, ConnectFront, ConnectWill, ConnectUser, FrontLength, WillLength, UserLength;
  }

  /** The size computed for a CONNECT is the number of its bytes. */
  method ConnectLength(version: int, c: Client, props: PropertyList?, willProps: PropertyList?) returns (len: nat)
    requires Connectable(c) && CanSend(props) && CanSend(willProps)
    ensures AllProper(Listed(props)) && AllProper(Listed(willProps))
    ensures 3 <= version <= 5 ==> len == |Fields(ConnectFields(version, c, Listed(props), Listed(willProps)))|
  {
    hide WireBytes, AllProper, Fields, ConnectFields;
    len := (if version == VERSION_3_1 then 12 else 10) + |c.clientID| + 2;
    if c.will.Some? {
      len := len + |c.will.value.topic| + 2 + |c.will.value.payload| + 2;
    }
    if c.username.Some? {
      len := len + |c.username.value| + 2;
    }
    if c.password.Some? {
      len := len + |c.password.value| + 2;
    }
    var propsLen := PropertiesLen(props);
    var willLen := PropertiesLen(willProps);
    if version >= VERSION_5 {
      len := len + propsLen;
      if c.will.Some? {
        len := len + willLen;
      }
    }
    if 3 <= version <= 5 {
      ConnectSize(version, c, Listed(props), Listed(willProps));
    }
  }

  /** MQTTPacket_send_connect: for the three versions there are, the buffer is exactly filled. */
  method BuildConnect(version: int, c: Client, props: PropertyList?, willProps: PropertyList?) returns (data: Option<seq<byte>>)
    requires Connectable(c) && CanSend(props) && CanSend(willProps)
    ensures AllProper(Listed(props)) && AllProper(Listed(willProps))
    ensures data.Some? <==> 3 <= version <= 5
    ensures data.Some? ==> data.value == Fields(ConnectFields(version, c, Listed(props), Listed(willProps)))
  {
    hide WireBytes, AllProper, Utf, Fields, ConnectFront, ConnectWill, ConnectUser, FrontLength, WillLength, UserLength;
    var len := ConnectLength(version, c, props, willProps);
    if version < 3 || version > 5 {
      return None;
    }
    var buf := new byte[len];
    ConnectSize(version, c, Listed(props), Listed(willProps));
    ghost var front := ConnectFront(version, c, Listed(props));
    var ptr := WriteConnectFront(buf, version, c, props);
    ptr := FieldUtf(buf, ptr, c.clientID, front);
    ptr := WriteWill(buf, ptr, version, c, willProps, front + [Utf(c.clientID)]);
    ptr := WriteUser(buf, ptr, c, front + [Utf(c.clientID)] + ConnectWill(version, c, Listed(willProps)));
    assert ptr == len;
    assert buf[..] == buf[..ptr];
    data := Some(buf[..]);
  }

  // ----- what goes out

  method SendConnect(version: int, c: Client, props: PropertyList?, willProps: PropertyList?)
    returns (packet: Option<seq<byte>>)
    requires Connectable(c) && CanSend(props) && CanSend(willProps)
    ensures AllProper(Listed(props)) && AllProper(Listed(willProps))
    ensures packet.Some? <==> 3 <= version <= 5
    ensures packet.Some? ==> packet.value == ConnectPacket(version, c, Listed(props), Listed(willProps))
  {
    hide WireBytes, AllProper, Fields, ConnectFields, PacketBytes;
    var body := BuildConnect(version, c, props, willProps);
    packet := None;
    if body.Some? {
      var buf0 := Assemble(Header(CONNECT, false, 0, false), body.value);
      packet := Some(buf0 + body.value);
    }
  }

  function ConnectPacket(version: int, c: Client, props: seq<Property>, willProps: seq<Property>): seq<byte>
    requires 3 <= version <= 5 && Connectable(c) && AllProper(props) && AllProper(willProps)
  {
    PacketBytes(Header(CONNECT, false, 0, false), Fields(ConnectFields(version, c, props, willProps)))
  }

  method SendSubscribe(version: int, topics: seq<seq<byte>>, qoss: seq<int>, opts: Option<seq<SubscribeOptions>>,
                       props: PropertyList?, msgid: nat, ghost subs: seq<Subscription>) returns (packet: seq<byte>)
    requires |topics| == |qoss| == |subs| && (opts.Some? ==> |opts.value| == |topics|) && Subscribable(subs)
    requires forall i :: 0 <= i < |topics| ==>
               subs[i] == Subscription(topics[i], qoss[i],
                                       if version >= 5 && opts.Some? then Some(opts.value[i]) else None)
    requires msgid <= MAX_INT2 && CanSend(props)
    ensures AllProper(Listed(props)) && packet == SubscribePacket(version, msgid, Listed(props), subs)
  {
    hide WireBytes, AllProper, Fields, Front, SubscriptionFields, PacketBytes;
    var body := BuildSubscribe(version, topics, qoss, opts, props, msgid, subs);
    var buf0 := Assemble(Header(SUBSCRIBE, false, 1, false), body);
    packet := buf0 + body;
  }

  function SubscribePacket(version: int, msgid: nat, props: seq<Property>, subs: seq<Subscription>): seq<byte>
    requires msgid <= MAX_INT2 && AllProper(props) && Subscribable(subs)
  {
    PacketBytes(Header(SUBSCRIBE, false, 1, false), Fields(Front(version, msgid, props) + SubscriptionFields(subs)))
  }

  method SendUnsubscribe(version: int, topics: seq<seq<byte>>, props: PropertyList?, msgid: nat) returns (packet: seq<byte>)
    requires Topics(topics) && msgid <= MAX_INT2 && CanSend(props)
    ensures AllProper(Listed(props)) && packet == UnsubscribePacket(version, msgid, Listed(props), topics)
  {
    hide WireBytes, AllProper, Fields, Front, TopicFields, PacketBytes;
    var body := BuildUnsubscribe(version, topics, props, msgid);
    var buf0 := Assemble(Header(UNSUBSCRIBE, false, 1, false), body);
    packet := buf0 + body;
  }

  function UnsubscribePacket(version: int, msgid: nat, props: seq<Property>, topics: seq<seq<byte>>): seq<byte>
    requires msgid <= MAX_INT2 && AllProper(props) && Topics(topics)
  {
    PacketBytes(Header(UNSUBSCRIBE, false, 1, false), Fields(Front(version, msgid, props) + TopicFields(topics)))
  }
}
