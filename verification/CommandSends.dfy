/**
 What may be sent when, told in the fields of a client, and what becomes of a request that has been sent.
 */
module CommandSends {
  import MessageIds
  import opened Commands
  import opened CommandRuns

  // ----- what is sent, and what holds a command back

  /** The client can send: it is connected, not in the middle of connecting, and has no pending write. */
  predicate Online(cl: Client) {
    cl.connected && cl.idle && cl.clear
  }

  /** Command i is the first of its client, and nothing holds it back: a CONNECT or DISCONNECT goes at any time, anything
      else only while the client can send and has an id to spare, and what takes an id only below the in-flight limit. */
  ghost predicate GoesNow(q: Queue, i: nat)
    requires Known(q) && i < |q.commands|
  {
    var cmd, cl := q.commands[i], q.clients[q.commands[i].client];
    && (forall j :: 0 <= j < i ==> q.commands[j].client != cmd.client)
    && match cmd.kind
       case Connect => true
       case Disconnect(_) => true
       case Publish(qos) => Online(cl) && |cl.outbound| < 65534 && (qos == 0 || |cl.outbound| < cl.maxInflight)
       case Subscribe => Online(cl) && |cl.outbound| < 65534 && |cl.outbound| < cl.maxInflight
       case Unsubscribe => Online(cl) && |cl.outbound| < 65534 && |cl.outbound| < cl.maxInflight
  }

  /** A command is chosen only if nothing holds it back. */
  lemma ChosenGoesNow(q: Queue, i: nat)
    requires Known(q) && i < |q.commands| && Selected(q, i)
    ensures GoesNow(q, i)
  {
    assert Ready(q.clients[q.commands[i].client], q.commands[i]);
  }

  /** If no command can be taken, something holds back the first command of every client that has commands queued. */
  lemma NoneGoesNow(q: Queue)
    requires Known(q) && Selected(q, |q.commands|)
    ensures forall i :: 0 <= i < |q.commands| ==> !GoesNow(q, i)
  {
    forall i | 0 <= i < |q.commands| ensures !GoesNow(q, i) {
      assert Passed(q, i);
    }
  }

  /** The state before event n of a run. */
  ghost function Before(r: Run, events: seq<Event>, n: nat): Run
    requires Possible(r, events) && n < |events|
    ensures Enabled(Before(r, events, n).q, events[n])
    decreases n
  {
    if n == 0 then r else Before(NextRun(r, events[0]), events[1..], n - 1)
  }

  /** In every run, whatever is taken off the queue to be sent is the first command of its client, and that client can
      send it. */
  lemma EverySendGoesNow(r: Run, events: seq<Event>, n: nat)
    requires Possible(r, events) && n < |events| && events[n].Send?
    ensures GoesNow(Before(r, events, n).q, events[n].i)
  {
    ChosenGoesNow(Before(r, events, n).q, events[n].i);
  }

  // ----- what is in flight, and what waits for a response

  function TicketOf(cmd: Command): Ticket {
    Ticket(cmd.token, cmd.serial)
  }

  /** The message of QoS 1 or 2 of client c that a step sends. */
  ghost function FlownBy(q: Queue, e: Event, c: int): multiset<Ticket>
    requires Enabled(q, e)
  {
    if e.Send? && q.commands[e.i].client == c && q.commands[e.i].kind in [Publish(1), Publish(2)]
    then multiset{TicketOf(q.commands[e.i])} else multiset{}
  }

  /** The message in flight of client c that is done with. */
  ghost function LandedBy(q: Queue, e: Event, c: int): multiset<Ticket>
    requires Enabled(q, e) && c in q.clients
  {
    if e.Finished? && e.c == c then multiset{q.clients[c].outbound[e.i]} else multiset{}
  }

  /** What has to be answered: all that has an id, if the write did not fail, and a message of QoS 0 whose write is not
      done yet. */
  predicate HasToWait(kind: Kind, o: Outcome) {
    match kind
    case Connect => false
    case Disconnect(_) => false
    case Publish(qos) => o == Interrupted || (qos > 0 && o == Complete)
    case Subscribe => o != Failed
    case Unsubscribe => o != Failed
  }

  ghost function AskedBy(q: Queue, e: Event, c: int): multiset<Ticket>
    requires Enabled(q, e)
  {
    if e.Send? && q.commands[e.i].client == c && HasToWait(q.commands[e.i].kind, e.o)
    then multiset{TicketOf(q.commands[e.i])} else multiset{}
  }

  ghost function HeardBy(q: Queue, e: Event, c: int): multiset<Ticket>
    requires Enabled(q, e) && c in q.clients
  {
    if e.Answered? && e.c == c then multiset{q.clients[c].responses[e.i]} else multiset{}
  }

  lemma ClientsStay(r: Run, e: Event)
    requires Enabled(r.q, e)
    ensures NextRun(r, e).q.clients.Keys == r.q.clients.Keys
  {
    RunFollows(r, e);
    KnownNext(r.q, e);
  }

  /** All messages of QoS 1 and 2 of client c that a run sends. */
  ghost function Flown(r: Run, events: seq<Event>, c: int): multiset<Ticket>
    requires Possible(r, events) && c in r.q.clients
    decreases |events|
  {
    if events == [] then multiset{}
    else
      ClientsStay(r, events[0]);
      FlownBy(r.q, events[0], c) + Flown(NextRun(r, events[0]), events[1..], c)
  }

  /** All messages in flight of client c that are done with in a run. */
  ghost function Landed(r: Run, events: seq<Event>, c: int): multiset<Ticket>
    requires Possible(r, events) && c in r.q.clients
    decreases |events|
  {
    if events == [] then multiset{}
    else
      ClientsStay(r, events[0]);
      LandedBy(r.q, events[0], c) + Landed(NextRun(r, events[0]), events[1..], c)
  }

  /** All requests of client c that a run sends and that have to be answered. */
  ghost function Asked(r: Run, events: seq<Event>, c: int): multiset<Ticket>
    requires Possible(r, events) && c in r.q.clients
    decreases |events|
  {
    if events == [] then multiset{}
    else
      ClientsStay(r, events[0]);
      AskedBy(r.q, events[0], c) + Asked(NextRun(r, events[0]), events[1..], c)
  }

  /** All of them that are done with. */
  ghost function Heard(r: Run, events: seq<Event>, c: int): multiset<Ticket>
    requires Possible(r, events) && c in r.q.clients
    decreases |events|
  {
    if events == [] then multiset{}
    else
      ClientsStay(r, events[0]);
      HeardBy(r.q, events[0], c) + Heard(NextRun(r, events[0]), events[1..], c)
  }

  lemma Adds(end: multiset<Ticket>, out: multiset<Ticket>, mid: multiset<Ticket>, into: multiset<Ticket>,
             out1: multiset<Ticket>, start: multiset<Ticket>, into1: multiset<Ticket>)
    requires end + out == mid + into && mid + out1 == start + into1
    ensures end + (out1 + out) == start + (into1 + into)
  {
    assert end + (out1 + out) == end + out + out1 == mid + into + out1 == mid + out1 + into;
  }

  lemma WithoutOne<T>(s: seq<T>, i: nat)
    requires i < |s|
    ensures multiset(Without(s, i)) + multiset{s[i]} == multiset(s)
  {
    assert s == s[..i] + [s[i]] + s[i + 1..];
  }

  /** One step of a client's two lists. */
  lemma ListsNext(r: Run, e: Event, c: int)
    requires Enabled(r.q, e) && c in r.q.clients
    ensures c in NextRun(r, e).q.clients
    ensures var before, after := r.q.clients[c], NextRun(r, e).q.clients[c];
            && multiset(after.outbound) + LandedBy(r.q, e, c) == multiset(before.outbound) + FlownBy(r.q, e, c)
            && multiset(after.responses) + HeardBy(r.q, e, c) == multiset(before.responses) + AskedBy(r.q, e, c)
  {
    hide Next, NextRun, Enabled, FlownBy, LandedBy, AskedBy, HeardBy;
    RunFollows(r, e);
    if e.Send? { SendMoves(r.q, e, c); } else { OthersKeep(r.q, e, c); }
  }

  lemma OthersKeep(q: Queue, e: Event, c: int)
    requires Enabled(q, e) && c in q.clients && !e.Send?
    ensures c in Next(q, e).clients
    ensures var before, after := q.clients[c], Next(q, e).clients[c];
            && multiset(after.outbound) + LandedBy(q, e, c) == multiset(before.outbound) + FlownBy(q, e, c)
            && multiset(after.responses) + HeardBy(q, e, c) == multiset(before.responses) + AskedBy(q, e, c)
  {
    hide Without, Next;
    ListsKept(q, e, c);
    if e.Finished? && e.c == c { WithoutOne(q.clients[c].outbound, e.i); }
    if e.Answered? && e.c == c { WithoutOne(q.clients[c].responses, e.i); }
  }

  lemma ListsKept(q: Queue, e: Event, c: int)
    requires Enabled(q, e) && c in q.clients && !e.Send?
    ensures c in Next(q, e).clients
    ensures var before, after := q.clients[c], Next(q, e).clients[c];
            && after.outbound == (if e.Finished? && e.c == c then Without(before.outbound, e.i) else before.outbound)
            && after.responses == if e.Answered? && e.c == c then Without(before.responses, e.i) else before.responses
  {
    hide Without, Add, MessageIds.Assigned, Full;
    match e
    case Ask(k, kind, id) => AddKeepsLists(Issue(q, k, kind, id), Command(k, kind, id, q.issued), c);
    case Put(cmd) => AddKeepsLists(q, cmd, c);
    case _ =>
  }

  lemma AddKeepsLists(q: Queue, cmd: Command, c: int)
    requires cmd.client in q.clients && c in q.clients
    ensures c in Add(q, cmd).clients
    ensures Add(q, cmd).clients[c].outbound == q.clients[c].outbound
    ensures Add(q, cmd).clients[c].responses == q.clients[c].responses
  {
    hide Without, OldestPublish, Duplicate, Full;
  }

  lemma OneTicket(s: seq<Ticket>, t: Ticket)
    ensures multiset(s + [t]) == multiset(s) + multiset{t} && s + [] == s && multiset(s) + multiset{} == multiset(s)
  {
  }

  lemma SendMoves(q: Queue, e: Event, c: int)
    requires Enabled(q, e) && e.Send? && c in q.clients
    ensures c in Next(q, e).clients
    ensures var before, after := q.clients[c], Next(q, e).clients[c];
            && multiset(after.outbound) + LandedBy(q, e, c) == multiset(before.outbound) + FlownBy(q, e, c)
            && multiset(after.responses) + HeardBy(q, e, c) == multiset(before.responses) + AskedBy(q, e, c)
  {
    hide Next, Selected, MessageIds.Assigned, TicketOf, HasToWait;
    SendLists(q, e, c);
    OneTicket(q.clients[c].outbound, TicketOf(q.commands[e.i]));
    OneTicket(q.clients[c].responses, TicketOf(q.commands[e.i]));
  }

  lemma SendLists(q: Queue, e: Event, c: int)
    requires Enabled(q, e) && e.Send? && c in q.clients
    ensures c in Next(q, e).clients
    ensures var before, after, cmd := q.clients[c], Next(q, e).clients[c], q.commands[e.i];
            && after.outbound == before.outbound
                                 + (if cmd.client == c && cmd.kind in [Publish(1), Publish(2)] then [TicketOf(cmd)] else [])
            && after.responses == before.responses
                                  + if cmd.client == c && HasToWait(cmd.kind, e.o) then [TicketOf(cmd)] else []
  {
    hide Without, Selected, InFlight, MessageIds.Assigned, TicketOf, HasToWait;
    var cl, cmd := q.clients[c], q.commands[e.i];
    TicketGoes(if cmd.kind.Publish? then cl.(buffered := cl.buffered - 1) else cl, cmd, e.o);
  }

  lemma TicketGoes(cl: Client, cmd: Command, o: Outcome)
    ensures var after, t := InFlight(cl, cmd, o), TicketOf(cmd);
            && after.outbound == cl.outbound + (if cmd.kind in [Publish(1), Publish(2)] then [t] else [])
            && after.responses == cl.responses + if HasToWait(cmd.kind, o) then [t] else []
  {
  }

  /** Nothing in flight is forgotten and nothing turns up there: what is in flight and what is done with are what was in
      flight and what has been sent. */
  lemma {:induction false} InFlightConserved(r: Run, events: seq<Event>, c: int)
    requires Possible(r, events) && c in r.q.clients
    ensures c in After(r, events).q.clients
    ensures multiset(After(r, events).q.clients[c].outbound) + Landed(r, events, c)
         == multiset(r.q.clients[c].outbound) + Flown(r, events, c)
    decreases |events|
  {
    hide NextRun, Without, FlownBy, LandedBy, AskedBy, HeardBy;
    if events != [] {
      ClientsStay(r, events[0]);
      var e, n := events[0], NextRun(r, events[0]);
      ListsNext(r, e, c);
      InFlightConserved(n, events[1..], c);
      Adds(multiset(After(n, events[1..]).q.clients[c].outbound), Landed(n, events[1..], c), multiset(n.q.clients[c].outbound),
           Flown(n, events[1..], c), LandedBy(r.q, e, c), multiset(r.q.clients[c].outbound), FlownBy(r.q, e, c));
    }
  }

  /** The same for the requests that wait for a response. */
  lemma {:induction false} WaitingConserved(r: Run, events: seq<Event>, c: int)
    requires Possible(r, events) && c in r.q.clients
    ensures c in After(r, events).q.clients
    ensures multiset(After(r, events).q.clients[c].responses) + Heard(r, events, c)
         == multiset(r.q.clients[c].responses) + Asked(r, events, c)
    decreases |events|
  {
    hide NextRun, Without, FlownBy, LandedBy, AskedBy, HeardBy;
    if events != [] {
      ClientsStay(r, events[0]);
      var e, n := events[0], NextRun(r, events[0]);
      ListsNext(r, e, c);
      WaitingConserved(n, events[1..], c);
      Adds(multiset(After(n, events[1..]).q.clients[c].responses), Heard(n, events[1..], c), multiset(n.q.clients[c].responses),
           Asked(n, events[1..], c), HeardBy(r.q, e, c), multiset(r.q.clients[c].responses), AskedBy(r.q, e, c));
    }
  }

  // ----- room for a message

  /** A message is turned away if and only if its client keeps to a limit, does not make room by dropping, and has as
      many messages queued as the limit says. */
  lemma TurnedAway(q: Queue, c: int, kind: Kind, id: int)
    requires c in q.clients && Counted(q) && (NeedsId(kind) ==> id != 0)
    ensures Request(q, c, kind, id).1 == MaxBuffered <==>
              && kind.Publish? && q.clients[c].createOptions.Some? && !q.clients[c].createOptions.value.deleteOldest
              && Buffered(q.commands, c) >= q.clients[c].createOptions.value.maxBuffered
  {
  }

  /** The last request of a client that got an id has the id that the client remembers. */
  lemma RemembersId(q: Queue, c: int, kind: Kind, id: int)
    requires c in q.clients
    ensures var n, rc := Request(q, c, kind, id).0, Request(q, c, kind, id).1;
            && c in n.clients
            && n.clients[c].msgID == if rc != NoMoreIds && kind !in [Connect, Disconnect(true), Disconnect(false), Publish(0)]
                                     then id else q.clients[c].msgID
  {
    hide Without, OldestPublish;
  }
}
