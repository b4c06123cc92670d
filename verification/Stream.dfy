/**
 A writer and a reader at the two ends of one connection, whatever pieces the bytes travel in.
 */
module Stream {
  import opened Framing
  import W = PacketWriter
  import R = PacketReader

  /**
   The packets delivered at one end are a prefix of those written at the other, in order and whole; and when
   everything written has arrived, all of them.
   */
  lemma PacketsArriveInOrder(writer: W.Writer, s: int, reader: R.Reader, t: int)
    requires writer.Valid() && reader.Ready()
    requires R.Of(reader.received, t) <= W.Of(writer.sent, s)
    requires forall i :: 0 <= i < |W.Of(writer.written, s)| ==> OnePacketLong(W.Of(writer.written, s)[i])
    ensures R.Of(reader.delivered, t) <= W.Parsed(W.Of(writer.written, s))
    ensures R.Of(reader.received, t) == W.Of(writer.sent, s) && s !in writer.writes && s !in writer.failed ==>
              R.Of(reader.delivered, t) == W.Parsed(W.Of(writer.written, s))
  {
    reader.OneUninterruptedStream(t);
    W.PeerReads(writer.View(), s, R.Of(reader.received, t));
  }
}
