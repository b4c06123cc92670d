/**
 Received messages waiting for the application, in the persistent store (MQTTPersistence.c).
 */
module QueueEntries {
  import opened Framing
  import opened PacketData
  import opened Properties
  import opened Persisted
  import PacketWriter

  datatype Entry = Entry(
    payload: seq<byte>, qos: nat, retained: nat, dup: nat, msgid: nat,
    topicName: seq<byte>, topicLen: nat, properties: seq<Property>)

  /** A topic that is a C string, and numbers that are ints. */
  ghost predicate Storable(version: int, e: Entry) {
    && Plain(e.topicName) && |e.payload| < TWO31 && e.qos < TWO31 && e.retained < TWO31 && e.dup < TWO31
    && e.msgid < TWO31 && e.topicLen < TWO31
    && if version >= 5 then PropertiesOk(e.properties) else e.properties == []
  }

  /** What lies behind the payload, and in front of the properties. */
  function Numbers(e: Entry): seq<byte> {
    Number(e.qos) + (Number(e.retained) + (Number(e.dup) + (Number(e.msgid) + (Terminated(e.topicName) + Number(e.topicLen)))))
  }

  ghost function EntryRecord(version: int, e: Entry): seq<byte> {
    Number(|e.payload|) + (e.payload + (Numbers(e) + if version >= 5 then PropertyField(e.properties) else []))
  }

  const MAX_NO_OF_BUFFERS := 9

  /** MQTTPersistence_persistQueueEntry. */
  method PersistEntry(version: int, e: Entry, props: PropertyList) returns (bufs: seq<seq<byte>>)
    requires Storable(version, e) && (version >= 5 ==> props.Valid() && props.items == e.properties)
    ensures PacketWriter.Concat(bufs) == EntryRecord(version, e) && |bufs| <= MAX_NO_OF_BUFFERS
  {
    var len := NumberField(|e.payload|);
    var numbers := PersistNumbers(e);
    var last := [];
    if version >= 5 {
      var p := PropertyBuffer(props);
      last := [p];
    }
    bufs := [len] + ([e.payload] + (numbers + last));
    hide PacketWriter.Concat, Number, PropertyField, Numbers, Storable;
    FourParts([len], [e.payload], numbers, last);
    Single(len);
    Single(e.payload);
    if version >= 5 { Single(last[0]); } else { Empty(); }
  }

  method PersistNumbers(e: Entry) returns (bufs: seq<seq<byte>>)
    requires e.qos < TWO31 && e.retained < TWO31 && e.dup < TWO31 && e.msgid < TWO31 && e.topicLen < TWO31
    ensures PacketWriter.Concat(bufs) == Numbers(e) && |bufs| == 6
  {
    hide PacketWriter.Concat, Number, Terminated;
    var q := NumberField(e.qos);
    var r := NumberField(e.retained);
    var d := NumberField(e.dup);
    var m := NumberField(e.msgid);
    var l := NumberField(e.topicLen);
    var t := Terminated(e.topicName);
    bufs := [q] + ([r] + ([d] + ([m] + ([t] + [l]))));
    FourParts([q], [r], [d], [m] + ([t] + [l]));
    PacketWriter.ConcatTwo([m], [t] + [l]);
    PacketWriter.ConcatTwo([t], [l]);
    Single(q); Single(r); Single(d); Single(m); Single(t); Single(l);
  }

  /** Where the fields of an entry lie. */
  lemma EntryParts(version: int, e: Entry)
    ensures var buf, n, t := EntryRecord(version, e), |e.payload|, |e.topicName|;
            && Has(buf, 0, Number(n)) && 4 + n <= |buf| && buf[4..4 + n] == e.payload
            && Has(buf, 4 + n, Numbers(e))
            && |Numbers(e)| == 21 + t && 25 + n + t <= |buf|
            && (version >= 5 ==> Has(buf, 25 + n + t, PropertyField(e.properties)))
            && (version >= 5 ==> 25 + n + t + |PropertyField(e.properties)| <= |buf|)
  {
    var rest := Numbers(e) + if version >= 5 then PropertyField(e.properties) else [];
    var buf, n := EntryRecord(version, e), |e.payload|;
    assert Has(buf, 0, buf);
    hide Has, Number, PropertyField;
    HasParts(buf, 0, Number(n), e.payload + rest);
    HasParts(buf, 4, e.payload, rest);
    HasParts(buf, 4 + n, Numbers(e), if version >= 5 then PropertyField(e.properties) else []);
    HasIs(buf, 4, e.payload);
  }

  lemma NumberParts(buf: seq<byte>, pos: nat, e: Entry)
    requires Has(buf, pos, Numbers(e))
    ensures var t := |e.topicName|;
            && Has(buf, pos, Number(e.qos)) && Has(buf, pos + 4, Number(e.retained)) && Has(buf, pos + 8, Number(e.dup))
            && Has(buf, pos + 12, Number(e.msgid)) && Has(buf, pos + 16, Terminated(e.topicName))
            && Has(buf, pos + 17 + t, Number(e.topicLen)) && pos + 21 + t <= |buf|
  {
    HasRoom(buf, pos, Numbers(e));
    hide Has, Number;
    var last := Terminated(e.topicName) + Number(e.topicLen);
    HasParts(buf, pos, Number(e.qos), Number(e.retained) + (Number(e.dup) + (Number(e.msgid) + last)));
    HasParts(buf, pos + 4, Number(e.retained), Number(e.dup) + (Number(e.msgid) + last));
    HasParts(buf, pos + 8, Number(e.dup), Number(e.msgid) + last);
    HasParts(buf, pos + 12, Number(e.msgid), last);
    HasParts(buf, pos + 16, Terminated(e.topicName), Number(e.topicLen));
  }

  /** MQTTPersistence_restoreQueueEntry on a record that has been stored: the same entry. */
  method RestoreEntry(version: int, buf: seq<byte>, ghost e: Entry) returns (r: Entry)
    requires Storable(version, e) && buf == EntryRecord(version, e)
    ensures r == e
  {
    EntryParts(version, e);
    NumberParts(buf, 4 + |e.payload|, e);
    hide Number, Has, PropertyField, Numbers, EntryRecord, AllProper, ListBytes;
    var n, ptr := ReadNumber(buf, 0, |e.payload|);
    var payload := buf[ptr..ptr + n];
    ptr := ptr + n;
    var qos, retained, dup, msgid, topicLen;
    qos, ptr := ReadNumber(buf, ptr, e.qos);
    retained, ptr := ReadNumber(buf, ptr, e.retained);
    dup, ptr := ReadNumber(buf, ptr, e.dup);
    msgid, ptr := ReadNumber(buf, ptr, e.msgid);
    var size := StringSize(buf, ptr, |buf|, e.topicName);
    var topicName := buf[ptr..ptr + size - 1];
    ptr := ptr + size;
    topicLen, ptr := ReadNumber(buf, ptr, e.topicLen);
    var properties := RestoreProperties(buf, ptr, version, e.properties);
    r := Entry(payload, qos, retained, dup, msgid, topicName, topicLen, properties);
  }

  method RestoreProperties(buf: seq<byte>, ptr: nat, version: int, ghost ps: seq<Property>) returns (r: seq<Property>)
    requires if version >= 5 then PropertiesOk(ps) else ps == []
    requires version >= 5 ==> Has(buf, ptr, PropertyField(ps)) && ptr + |PropertyField(ps)| <= |buf|
    ensures r == ps
  {
    r := [];
    if version >= 5 {
      hide WireBytes, ListBytes, AllProper;
      var list, ok, next := Properties.Read(buf, ptr, |buf|, ps);
      r := list.items;
    }
  }

  // ----- the order of the restored queue

  /** An entry of the list: its sequence number, and what it is. */
  type Numbered = (int, Entry)

  ghost predicate InSequence(list: seq<Numbered>) {
    forall i, j :: 0 <= i < j < |list| ==> list[i].0 <= list[j].0
  }

  /** MQTTPersistence_insertInSeqOrder: before the first entry with a larger number. */
  method InsertInSeqOrder(list: seq<Numbered>, x: Numbered) returns (r: seq<Numbered>)
    requires InSequence(list)
    ensures InSequence(r)
    ensures exists i :: 0 <= i <= |list| && r == list[..i] + [x] + list[i..]
  {
    var i := 0;
    while i < |list| && !(x.0 < list[i].0)
      invariant 0 <= i <= |list| && forall j :: 0 <= j < i ==> list[j].0 <= x.0
    {
      i := i + 1;
    }
    r := list[..i] + [x] + list[i..];
  }
}
