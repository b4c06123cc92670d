/**
 Commands and received messages in the persistent store (MQTTAsyncUtils.c and MQTTPersistence.c): each is written
 as a row of buffers and restored field for field. A number is four bytes; their order is that of the host.
 */
module Persisted {
  import opened Framing
  import opened PacketData
  import opened Properties
  import PacketOut
  import PacketWriter
  import PublishPacket

  /** A row of buffers and one more. */
  lemma Row(bufs: seq<seq<byte>>, s: seq<byte>)
    ensures PacketWriter.Concat(bufs + [s]) == PacketWriter.Concat(bufs) + s
  {
    PacketWriter.ConcatOne(bufs, s);
  }

  lemma HasIs(buf: seq<byte>, pos: nat, s: seq<byte>)
    requires Has(buf, pos, s)
    ensures pos + |s| <= |buf| && buf[pos..pos + |s|] == s
  {
  }

  /** A number as it lies in memory, if it is an int. */
  function Number(n: int): (s: seq<byte>)
    ensures |s| == 4
  {
    if 0 <= n < TWO31 then Int4(n) else [0, 0, 0, 0]
  }

  ghost function PropertyField(ps: seq<Property>): seq<byte> {
    if AllProper(ps) then WireBytes(ps) else []
  }

  // ----- strings

  predicate Plain(s: seq<byte>) {
    0 !in s
  }

  function Terminated(s: seq<byte>): (r: seq<byte>)
    ensures |r| == |s| + 1
  {
    s + [0]
  }

  /** strnlen and one for the terminator. */
  method StringSize(buf: seq<byte>, ptr: nat, end: nat, ghost s: seq<byte>) returns (size: nat)
    requires Plain(s) && Has(buf, ptr, Terminated(s)) && ptr + |s| + 1 <= end <= |buf|
    ensures size == |s| + 1 && buf[ptr..ptr + size - 1] == s
  {
    Characters(buf, ptr, s);
    size := 0;
    while ptr + size < end && buf[ptr + size] != 0
      invariant size <= |s|
    {
      size := size + 1;
    }
    assert size == |s|;
    size := size + 1;
  }

  lemma Characters(buf: seq<byte>, ptr: nat, s: seq<byte>)
    requires Plain(s) && Has(buf, ptr, Terminated(s))
    ensures forall j {:trigger buf[j]} :: ptr <= j < ptr + |s| ==> buf[j] != 0
    ensures buf[ptr + |s|] == 0 && buf[ptr..ptr + |s|] == s
  {
    var t := buf[ptr..ptr + |s| + 1];
    assert t == Terminated(s);
    forall j {:trigger buf[j]} | ptr <= j < ptr + |s| ensures buf[j] != 0 {
      assert buf[j] == t[j - ptr] == s[j - ptr];
      assert s[j - ptr] in s;
    }
    assert t[|s|] == 0 && t[..|s|] == s;
  }

  method ReadNumber(buf: seq<byte>, ptr: nat, ghost n: nat) returns (r: nat, next: nat)
    requires n < TWO31 && Has(buf, ptr, Number(n))
    ensures r == n && next == ptr + 4
  {
    r, next := ReadInt4(buf, ptr);
  }

  // ----- commands

  const PUBLISH := PublishPacket.PUBLISH
  const SUBSCRIBE := PacketOut.SUBSCRIBE
  const UNSUBSCRIBE := PacketOut.UNSUBSCRIBE

  const OPTIONS_SIZE := 12   // sizeof(MQTTSubscribe_options)

  /** One subscription; the options are the bytes of their structure, and none below version 5. */
  datatype Sub = Sub(topic: seq<byte>, qos: nat, opts: seq<byte>)

  datatype Details =
    | Subscribe(subs: seq<Sub>)
    | Unsubscribe(topics: seq<seq<byte>>)
    | Publish(topic: seq<byte>, payload: seq<byte>, qos: nat, retained: nat)

  datatype Command = Command(token: nat, details: Details, properties: seq<Property>)

  predicate SubOk(version: int, s: Sub) {
    Plain(s.topic) && s.qos < TWO31 && |s.opts| == if version >= 5 then OPTIONS_SIZE else 0
  }

  predicate AllOk(version: int, subs: seq<Sub>) {
    forall i :: 0 <= i < |subs| ==> SubOk(version, subs[i])
  }

  predicate AllPlain(topics: seq<seq<byte>>) {
    forall i :: 0 <= i < |topics| ==> Plain(topics[i])
  }

  /** Topics that are C strings, and numbers that are ints. */
  predicate DetailsOk(version: int, d: Details) {
    match d
    case Subscribe(subs) => |subs| < TWO31 && AllOk(version, subs)
    case Unsubscribe(topics) => |topics| < TWO31 && AllPlain(topics)
    case Publish(topic, payload, qos, retained) =>
      Plain(topic) && |payload| < TWO31 && qos < TWO31 && retained < TWO31
  }

  ghost predicate PropertiesOk(ps: seq<Property>) {
    AllProper(ps) && |ListBytes(ps)| <= MAX_REMAINING
  }

  ghost predicate CanStore(version: int, c: Command) {
    && c.token < TWO31 && DetailsOk(version, c.details)
    && if version >= 5 then PropertiesOk(c.properties) else c.properties == []
  }

  function TypeCode(d: Details): nat {
    match d
    case Subscribe(_) => SUBSCRIBE
    case Unsubscribe(_) => UNSUBSCRIBE
    case Publish(_, _, _, _) => PUBLISH
  }

  function SubBytes(version: int, s: Sub): seq<byte> {
    Terminated(s.topic) + (Number(s.qos) + s.opts)
  }

  function SubsBytes(version: int, subs: seq<Sub>): seq<byte> {
    if subs == [] then [] else SubBytes(version, subs[0]) + SubsBytes(version, subs[1..])
  }

  function TopicsBytes(topics: seq<seq<byte>>): seq<byte> {
    if topics == [] then [] else Terminated(topics[0]) + TopicsBytes(topics[1..])
  }

  function PublishBytes(topic: seq<byte>, payload: seq<byte>, qos: nat, retained: nat): seq<byte> {
    Terminated(topic) + (Number(|payload|) + (payload + (Number(qos) + Number(retained))))
  }

  /** What lies behind type and token. */
  function DetailBytes(version: int, d: Details): seq<byte> {
    match d
    case Subscribe(subs) => Number(|subs|) + SubsBytes(version, subs)
    case Unsubscribe(topics) => Number(|topics|) + TopicsBytes(topics)
    case Publish(topic, payload, qos, retained) => PublishBytes(topic, payload, qos, retained)
  }

  ghost function Record(version: int, c: Command): seq<byte> {
    Number(TypeCode(c.details)) + (Number(c.token)
    + (DetailBytes(version, c.details) + if version >= 5 then PropertyField(c.properties) else []))
  }

  // ----- writing

  method NumberField(n: nat) returns (s: seq<byte>)
    requires n < TWO31
    ensures s == Number(n)
  {
    StoredSmall(n);
    var buf := new byte[4];
    var next := WriteInt4(buf, 0, n);
    assert buf[..] == buf[..next];
    s := buf[..];
  }

  method PropertyBuffer(props: PropertyList) returns (s: seq<byte>)
    requires props.Valid() && props.length <= MAX_REMAINING
    ensures s == PropertyField(props.items)
  {
    props.LenIsExact();
    var ptr := new byte[props.Len()];
    var next := props.Write(ptr, 0);
    assert ptr[..] == ptr[..next];
    s := ptr[..];
  }

  /** MQTTAsync_persistCommand: as many buffers as were allocated for, and in them the record. */
  method Persist(version: int, c: Command, props: PropertyList) returns (bufs: seq<seq<byte>>, nbufs: nat)
    requires CanStore(version, c) && (version >= 5 ==> props.Valid() && props.items == c.properties)
    ensures PacketWriter.Concat(bufs) == Record(version, c) && |bufs| == nbufs
  {
    var kind := NumberField(TypeCode(c.details));
    var token := NumberField(c.token);
    var details;
    match c.details {
      case Subscribe(subs) =>
        nbufs := if version >= 5 then 4 + 3 * |subs| else 3 + 2 * |subs|;
        details := PersistSubs(version, subs);
      case Unsubscribe(topics) =>
        nbufs := (if version >= 5 then 4 else 3) + |topics|;
        details := PersistTopics(topics);
      case Publish(topic, payload, qos, retained) =>
        nbufs := if version >= 5 then 8 else 7;
        details := PersistPublish(topic, payload, qos, retained);
    }
    var last := [];
    if version >= 5 {
      var p := PropertyBuffer(props);
      last := [p];
    }
    bufs := [kind] + ([token] + (details + last));
    hide PacketWriter.Concat, Number, DetailBytes, PropertyField, CanStore;
    FourParts([kind], [token], details, last);
    Single(kind);
    Single(token);
    if version >= 5 { Single(last[0]); } else { Empty(); }
  }

  lemma Single(s: seq<byte>)
    ensures PacketWriter.Concat([s]) == s
  {
    Row([], s);
    assert [] + [s] == [s] && PacketWriter.Concat([]) + s == s;
  }

  lemma Empty()
    ensures PacketWriter.Concat([]) == []
  {
  }

  lemma FourParts(a: seq<seq<byte>>, b: seq<seq<byte>>, c: seq<seq<byte>>, d: seq<seq<byte>>)
    ensures PacketWriter.Concat(a + (b + (c + d))) ==
            PacketWriter.Concat(a) + (PacketWriter.Concat(b) + (PacketWriter.Concat(c) + PacketWriter.Concat(d)))
  {
    PacketWriter.ConcatTwo(a, b + (c + d));
    PacketWriter.ConcatTwo(b, c + d);
    PacketWriter.ConcatTwo(c, d);
  }

  method PersistPublish(topic: seq<byte>, payload: seq<byte>, qos: nat, retained: nat) returns (bufs: seq<seq<byte>>)
    requires |payload| < TWO31 && qos < TWO31 && retained < TWO31
    ensures PacketWriter.Concat(bufs) == PublishBytes(topic, payload, qos, retained) && |bufs| == 5
  {
    var len := NumberField(|payload|);
    var q := NumberField(qos);
    var r := NumberField(retained);
    bufs := [Terminated(topic)] + ([len] + ([payload] + ([q] + [r])));
    hide PacketWriter.Concat, Number;
    FourParts([Terminated(topic)], [len], [payload], [q] + [r]);
    PacketWriter.ConcatTwo([q], [r]);
    Single(Terminated(topic)); Single(len); Single(payload); Single(q); Single(r);
  }

  method PersistSubs(version: int, subs: seq<Sub>) returns (bufs: seq<seq<byte>>)
    requires |subs| < TWO31 && forall i :: 0 <= i < |subs| ==> SubOk(version, subs[i])
    ensures PacketWriter.Concat(bufs) == Number(|subs|) + SubsBytes(version, subs)
    ensures |bufs| == if version >= 5 then 1 + 3 * |subs| else 1 + 2 * |subs|
  {
    var count := NumberField(|subs|);
    hide PacketWriter.Concat, Number;
    bufs := [count];
    Single(count);
    assert subs[0..] == subs;
    var i := 0;
    while i < |subs|
      invariant 0 <= i <= |subs| && |bufs| == if version >= 5 then 1 + 3 * i else 1 + 2 * i
      invariant PacketWriter.Concat(bufs) + SubsBytes(version, subs[i..]) == count + SubsBytes(version, subs)
    {
      assert subs[i..][1..] == subs[i + 1..];
      var qos := NumberField(subs[i].qos);
      ghost var before := bufs;
      Row(bufs, Terminated(subs[i].topic));
      bufs := bufs + [Terminated(subs[i].topic)];
      Row(bufs, qos);
      bufs := bufs + [qos];
      if version >= 5 {
        Row(bufs, subs[i].opts);
        bufs := bufs + [subs[i].opts];
      }
      Brackets(PacketWriter.Concat(before), Terminated(subs[i].topic), qos, subs[i].opts, SubsBytes(version, subs[i + 1..]));
      i := i + 1;
    }
    assert subs[i..] == [];
    assert PacketWriter.Concat(bufs) + [] == PacketWriter.Concat(bufs);
  }

  lemma Brackets(a: seq<byte>, t: seq<byte>, q: seq<byte>, o: seq<byte>, r: seq<byte>)
    ensures a + (t + (q + o) + r) == a + t + q + o + r
    ensures o == [] ==> a + t + q + o + r == a + t + q + r
  {
  }

  method PersistTopics(topics: seq<seq<byte>>) returns (bufs: seq<seq<byte>>)
    requires |topics| < TWO31
    ensures PacketWriter.Concat(bufs) == Number(|topics|) + TopicsBytes(topics) && |bufs| == 1 + |topics|
  {
    var count := NumberField(|topics|);
    hide PacketWriter.Concat, Number;
    bufs := [count];
    Single(count);
    assert topics[0..] == topics;
    var i := 0;
    while i < |topics|
      invariant 0 <= i <= |topics| && |bufs| == 1 + i
      invariant PacketWriter.Concat(bufs) + TopicsBytes(topics[i..]) == count + TopicsBytes(topics)
    {
      assert topics[i..][1..] == topics[i + 1..];
      Row(bufs, Terminated(topics[i]));
      Regroup(PacketWriter.Concat(bufs), Terminated(topics[i]), TopicsBytes(topics[i + 1..]));
      bufs := bufs + [Terminated(topics[i])];
      i := i + 1;
    }
    assert topics[i..] == [];
    assert PacketWriter.Concat(bufs) + [] == PacketWriter.Concat(bufs);
  }

  // ----- restoring

  /** Restoring loses exactly one kind of command: below version 5, an unsubscribe of at least one topic. */
  predicate Restorable(version: int, d: Details) {
    version >= 5 || !(d.Unsubscribe? && d.topics != [])
  }

  class QueuedCommand {
    var notRestored: bool
    var kind: nat
    var token: nat
    var subs: seq<Sub>
    var topics: seq<seq<byte>>
    var topic: seq<byte>
    var payloadlen: nat
    var payload: seq<byte>
    var qos: nat
    var retained: nat
    var properties: seq<Property>

    /** memset of a new command. */
    constructor ()
      ensures notRestored && kind == 0 && token == 0 && subs == [] && topics == [] && topic == [] && payload == []
      ensures payloadlen == 0 && qos == 0 && retained == 0 && properties == []
    {
      notRestored, kind, token, subs, topics, topic, payload := true, 0, 0, [], [], [], [];
      payloadlen, qos, retained, properties := 0, 0, 0, [];
    }

    /** The details are wholly there. */
    ghost predicate HoldsDetails(d: Details)
      reads this
    {
      match d
      case Subscribe(s) => subs == s
      case Unsubscribe(t) => topics == t
      case Publish(t, p, q, r) => topic == t && payload == p && payloadlen == |p| && qos == q && retained == r
    }

    /** The command is wholly there. */
    ghost predicate Is(c: Command)
      reads this
    {
      !notRestored && kind == TypeCode(c.details) && token == c.token && properties == c.properties && HoldsDetails(c.details)
    }

    /** After the first pass: what is needed to queue the command. */
    ghost predicate Outlines(c: Command)
      reads this
    {
      && notRestored && kind == TypeCode(c.details) && token == c.token
      && match c.details
         case Publish(t, p, q, r) => payloadlen == |p| && qos == q && retained == r
         case _ => true
    }

    /** The details of a publish; topic and payload only in the second pass. */
    method RestorePublish(buf: seq<byte>, pos: nat, ghost t: seq<byte>, ghost p: seq<byte>, ghost q: nat, ghost r: nat)
      returns (ok: bool, ptr: nat)
      requires Plain(t) && |p| < TWO31 && q < TWO31 && r < TWO31
      requires Has(buf, pos, PublishBytes(t, p, q, r))
      modifies this`topic, this`payloadlen, this`payload, this`qos, this`retained
      ensures ok && ptr == pos + |PublishBytes(t, p, q, r)|
      ensures payloadlen == |p| && qos == q && retained == r
      ensures if notRestored then topic == old(topic) && payload == old(payload) else topic == t && payload == p
    {
      PublishParts(buf, pos, t, p, q, r);
      hide Number, Has;
      var end := |buf|;
      var size := StringSize(buf, pos, end, t);
      if size == end - pos {
        return false, pos;
      }
      if !notRestored {
        topic := buf[pos..pos + size - 1];
      }
      ptr := pos + size;
      if ptr + 4 > end {
        return false, ptr;
      }
      payloadlen, ptr := ReadNumber(buf, ptr, |p|);
      if ptr + payloadlen > end {
        return false, ptr;
      }
      if !notRestored {
        payload := buf[ptr..ptr + payloadlen];
      }
      ptr := ptr + payloadlen;
      if ptr + 8 > end {
        return false, ptr;
      }
      qos, ptr := ReadNumber(buf, ptr, q);
      retained, ptr := ReadNumber(buf, ptr, r);
      ok := true;
    }

    /** One subscription of the list. */
    method RestoreSub(buf: seq<byte>, pos: nat, version: int, ghost s: Sub) returns (ok: bool, ptr: nat)
      requires SubOk(version, s) && Has(buf, pos, SubBytes(version, s))
      modifies this`subs
      ensures ok && ptr == pos + |SubBytes(version, s)| && subs == old(subs) + [s]
    {
      SubParts(buf, pos, version, s);
      hide Number, Has;
      var end := |buf|;
      var size := StringSize(buf, pos, end, s.topic);
      if size == end - pos {
        return false, pos;
      }
      var t := buf[pos..pos + size - 1];
      ptr := pos + size;
      if ptr + 4 > end {
        return false, ptr;
      }
      var q;
      q, ptr := ReadNumber(buf, ptr, s.qos);
      var opts := [];
      if version >= 5 {
        if ptr + OPTIONS_SIZE > end {
          return false, ptr;
        }
        opts := buf[ptr..ptr + OPTIONS_SIZE];
        ptr := ptr + OPTIONS_SIZE;
      }
      subs := subs + [Sub(t, q, opts)];
      ok := true;
    }

    method RestoreSubs(buf: seq<byte>, pos: nat, version: int, ghost all: seq<Sub>) returns (ok: bool, ptr: nat)
      requires |all| < TWO31 && AllOk(version, all) && Has(buf, pos, Number(|all|) + SubsBytes(version, all))
      modifies this`subs
      ensures ok && ptr == pos + 4 + |SubsBytes(version, all)| && subs == all
    {
      HasParts(buf, pos, Number(|all|), SubsBytes(version, all));
      HasRoom(buf, pos, Number(|all|));
      hide Number, Has, SubOk, SubBytes, SubsBytes;
      ok, ptr := true, pos;
      if ptr + 4 > |buf| {
        return false, ptr;
      }
      var count;
      count, ptr := ReadNumber(buf, ptr, |all|);
      subs := [];
      assert all[0..] == all;
      NoSubs(version, all);
      var i := 0;
      while i < count
        invariant 0 <= i <= count && subs == all[..i]
        invariant Has(buf, ptr, SubsBytes(version, all[i..]))
        invariant ptr + |SubsBytes(version, all[i..])| == pos + 4 + |SubsBytes(version, all)|
      {
        NextSub(buf, ptr, version, all, i);
        assert all[..i] + [all[i]] == all[..i + 1];
        ok, ptr := RestoreSub(buf, ptr, version, all[i]);
        if !ok {
          return;
        }
        i := i + 1;
      }
      assert all[..i] == all && all[i..] == [];
    }

    /** The check for a missing terminator also meets the last topic if nothing follows it. */
    method RestoreTopics(buf: seq<byte>, pos: nat, ghost all: seq<seq<byte>>) returns (ok: bool, ptr: nat)
      requires |all| < TWO31 && AllPlain(all) && Has(buf, pos, Number(|all|) + TopicsBytes(all))
      modifies this`topics
      ensures ok <==> all == [] || pos + 4 + |TopicsBytes(all)| < |buf|
      ensures ok ==> ptr == pos + 4 + |TopicsBytes(all)| && topics == all
    {
      HasParts(buf, pos, Number(|all|), TopicsBytes(all));
      HasRoom(buf, pos, Number(|all|));
      hide Number, Has, Plain, Terminated;
      ok, ptr := true, pos;
      if ptr + 4 > |buf| {
        return false, ptr;
      }
      var count;
      count, ptr := ReadNumber(buf, ptr, |all|);
      topics := [];
      assert all[0..] == all;
      var i := 0;
      while i < count
        invariant 0 <= i <= count && topics == all[..i]
        invariant Has(buf, ptr, TopicsBytes(all[i..]))
        invariant ptr + |TopicsBytes(all[i..])| == pos + 4 + |TopicsBytes(all)|
        invariant 0 < i ==> ptr < |buf|
      {
        NextTopic(buf, ptr, all, i);
        var size := StringSize(buf, ptr, |buf|, all[i]);
        if size == |buf| - ptr {
          return false, ptr;
        }
        assert all[..i] + [all[i]] == all[..i + 1];
        topics := topics + [buf[ptr..ptr + size - 1]];
        ptr := ptr + size;
        i := i + 1;
      }
      assert all[..i] == all && all[i..] == [];
    }

    method RestoreDetails(buf: seq<byte>, pos: nat, version: int, ghost d: Details) returns (ok: bool, ptr: nat)
      requires DetailsOk(version, d) && kind == TypeCode(d) && Has(buf, pos, DetailBytes(version, d))
      requires notRestored ==> d.Publish?
      modifies this`subs, this`topics, this`topic, this`payloadlen, this`payload, this`qos, this`retained
      ensures ok <==> !d.Unsubscribe? || d.topics == [] || pos + |DetailBytes(version, d)| < |buf|
      ensures ok ==> ptr == pos + |DetailBytes(version, d)|
      ensures ok && !notRestored ==> HoldsDetails(d)
      ensures d.Publish? ==> payloadlen == |d.payload| && qos == d.qos && retained == d.retained
    {
      hide Has, Number, SubsBytes, TopicsBytes, PublishBytes;
      if kind == SUBSCRIBE {
        ok, ptr := RestoreSubs(buf, pos, version, d.subs);
      } else if kind == UNSUBSCRIBE {
        ok, ptr := RestoreTopics(buf, pos, d.topics);
      } else {
        ok, ptr := RestorePublish(buf, pos, d.topic, d.payload, d.qos, d.retained);
      }
    }

    /**
     MQTTAsync_restoreCommand: the first pass, on a new command, takes what is needed to queue it; the second one
     fills in the rest.
     */
    method Restore(buf: seq<byte>, version: int, first: bool, ghost c: Command) returns (ok: bool)
      requires CanStore(version, c) && buf == Record(version, c)
      requires first ==> notRestored
      modifies this
      ensures first ==> ok && Outlines(c)
      ensures !first ==> (ok <==> Restorable(version, c.details)) && (ok ==> Is(c))
    {
      hide Number, Has, CanStore, Record, DetailBytes, DetailsOk, PropertyField, PropertiesOk, AllProper, Proper, ListBytes,
        WireBytes, AllOk, AllPlain, Plain;
      RecordParts(version, c);
      if |buf| == 0 {
        return false;
      }
      if !first {
        notRestored := false;
      }
      if 8 > |buf| {
        return false;
      }
      var ptr;
      kind, ptr := ReadNumber(buf, 0, TypeCode(c.details));
      token, ptr := ReadNumber(buf, ptr, c.token);
      if notRestored && (kind == SUBSCRIBE || kind == UNSUBSCRIBE) {
        return true;
      }
      if kind != SUBSCRIBE && kind != UNSUBSCRIBE && kind != PUBLISH {
        return false;
      }
      ok, ptr := RestoreDetails(buf, ptr, version, c.details);
      if ok && !notRestored {
        ok := RestoreProperties(buf, ptr, version, c);
      }
    }

    method RestoreProperties(buf: seq<byte>, ptr: nat, version: int, ghost c: Command) returns (ok: bool)
      requires if version >= 5 then PropertiesOk(c.properties) else c.properties == []
      requires version >= 5 ==> Has(buf, ptr, PropertyField(c.properties)) && ptr + |PropertyField(c.properties)| <= |buf|
      modifies this`properties
      ensures ok && properties == c.properties
    {
      properties := [];
      ok := true;
      if version >= 5 {
        var list, next;
        hide WireBytes, ListBytes, AllProper;
        list, ok, next := Properties.Read(buf, ptr, |buf|, c.properties);
        properties := list.items;
      }
    }
  }

  /** Subscription i, and the bytes of the ones behind it. */
  lemma NextSub(buf: seq<byte>, ptr: nat, version: int, all: seq<Sub>, i: nat)
    requires i < |all| && AllOk(version, all) && Has(buf, ptr, SubsBytes(version, all[i..]))
    ensures SubOk(version, all[i]) && Has(buf, ptr, SubBytes(version, all[i]))
    ensures |SubsBytes(version, all[i..])| == |SubBytes(version, all[i])| + |SubsBytes(version, all[i + 1..])|
    ensures Has(buf, ptr + |SubBytes(version, all[i])|, SubsBytes(version, all[i + 1..]))
  {
    assert all[i..][1..] == all[i + 1..];
    HasParts(buf, ptr, SubBytes(version, all[i]), SubsBytes(version, all[i + 1..]));
  }

  lemma NoSubs(version: int, all: seq<Sub>)
    ensures SubsBytes(version, all[|all|..]) == []
  {
  }

  lemma HasRoom(buf: seq<byte>, pos: nat, s: seq<byte>)
    requires Has(buf, pos, s)
    ensures pos + |s| <= |buf|
  {
  }

  /** Where the fields of a publish lie. */
  lemma PublishParts(buf: seq<byte>, pos: nat, t: seq<byte>, p: seq<byte>, q: nat, r: nat)
    requires Has(buf, pos, PublishBytes(t, p, q, r))
    ensures var at := pos + |t| + 1;
            && Has(buf, pos, Terminated(t)) && Has(buf, at, Number(|p|))
            && at + 4 + |p| <= |buf| && buf[at + 4..at + 4 + |p|] == p
            && Has(buf, at + 4 + |p|, Number(q)) && Has(buf, at + 8 + |p|, Number(r))
            && at + 12 + |p| == pos + |PublishBytes(t, p, q, r)| <= |buf|
  {
    hide Has, Number, Terminated;
    var numbers := Number(q) + Number(r);
    var rest := Number(|p|) + (p + numbers);
    var at := pos + |t| + 1;
    HasRoom(buf, pos, Terminated(t) + rest);
    HasParts(buf, pos, Terminated(t), rest);
    HasParts(buf, at, Number(|p|), p + numbers);
    HasParts(buf, at + 4, p, numbers);
    HasParts(buf, at + 4 + |p|, Number(q), Number(r));
    HasIs(buf, at + 4, p);
  }

  lemma SubParts(buf: seq<byte>, pos: nat, version: int, s: Sub)
    requires Has(buf, pos, SubBytes(version, s))
    ensures var at := pos + |s.topic| + 1;
            && Has(buf, pos, Terminated(s.topic)) && Has(buf, at, Number(s.qos))
            && at + 4 + |s.opts| == pos + |SubBytes(version, s)| <= |buf| && buf[at + 4..at + 4 + |s.opts|] == s.opts
  {
    HasRoom(buf, pos, SubBytes(version, s));
    hide Has, Number;
    HasParts(buf, pos, Terminated(s.topic), Number(s.qos) + s.opts);
    HasParts(buf, pos + |s.topic| + 1, Number(s.qos), s.opts);
    HasIs(buf, pos + |s.topic| + 5, s.opts);
  }

  /** Topic i, and the bytes of the ones behind it. */
  lemma NextTopic(buf: seq<byte>, ptr: nat, all: seq<seq<byte>>, i: nat)
    requires i < |all| && AllPlain(all) && Has(buf, ptr, TopicsBytes(all[i..]))
    ensures Plain(all[i]) && Has(buf, ptr, Terminated(all[i]))
    ensures TopicsBytes(all[i..]) == Terminated(all[i]) + TopicsBytes(all[i + 1..])
    ensures Has(buf, ptr + |all[i]| + 1, TopicsBytes(all[i + 1..]))
    ensures ptr + |TopicsBytes(all[i..])| <= |buf| && (i + 1 == |all| ==> TopicsBytes(all[i + 1..]) == [])
    ensures i + 1 < |all| ==> |TopicsBytes(all[i + 1..])| > 0
  {
    assert all[i..][1..] == all[i + 1..];
    HasParts(buf, ptr, Terminated(all[i]), TopicsBytes(all[i + 1..]));
    HasRoom(buf, ptr, TopicsBytes(all[i..]));
  }

  /** The parts of a record. */
  lemma RecordParts(version: int, c: Command)
    requires CanStore(version, c)
    ensures var buf, end := Record(version, c), 8 + |DetailBytes(version, c.details)|;
            && Has(buf, 0, Number(TypeCode(c.details))) && Has(buf, 4, Number(c.token)) && c.token < TWO31
            && DetailsOk(version, c.details) && Has(buf, 8, DetailBytes(version, c.details)) && end <= |buf|
            && (if version >= 5 then PropertiesOk(c.properties) else c.properties == [])
            && (version >= 5 ==> Has(buf, end, PropertyField(c.properties)))
            && (version >= 5 ==> end < |buf| && end + |PropertyField(c.properties)| <= |buf|)
            && (version < 5 ==> end == |buf|)
  {
    var d, p := DetailBytes(version, c.details), if version >= 5 then PropertyField(c.properties) else [];
    var buf := Record(version, c);
    assert Has(buf, 0, buf);
    hide Has, Number, DetailBytes;
    HasParts(buf, 0, Number(TypeCode(c.details)), Number(c.token) + (d + p));
    HasParts(buf, 4, Number(c.token), d + p);
    HasParts(buf, 8, d, p);
  }
}
