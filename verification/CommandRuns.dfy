/**
 What holds of the command queue in every run: the count of buffered messages, the order of commands, flow
 control and message ids.
 */
module CommandRuns {
  import opened MessageIds
  import opened Commands

  datatype Event =
    | Ask(c: int, kind: Kind, id: int)  // an API call, with the result of the search for an id
    | Put(cmd: Command)                 // a connect or disconnect
    | Send(i: nat, o: Outcome)          // the send thread takes command i
    | Finished(c: int, i: nat)          // message i of those in flight is done with
    | Answered(c: int, i: nat)          // request i of those waiting is done with
    | Link(c: int, connected: bool, idle: bool, clear: bool, maxInflight: int)

  /** The queue, every command it has accepted, and those that have left it to be sent, or for want of space. */
  datatype Run = Run(q: Queue, accepted: seq<Command>, taken: seq<Command>, dropped: seq<Command>)

  ghost predicate Enabled(q: Queue, e: Event) {
    && Known(q)
    && match e
       case Ask(c, kind, id) =>
         && c in q.clients && !kind.Connect? && !kind.Disconnect?
         && (if NeedsId(kind) then Assigned(InUse(q, c), q.clients[c].msgID, id) else id == 0)
       case Put(cmd) => cmd.client in q.clients && (cmd.kind.Connect? || cmd.kind.Disconnect?) && cmd.token == 0
       case Send(i, _) => i < |q.commands| && Selected(q, i)
       case Finished(c, i) => c in q.clients && i < |q.clients[c].outbound|
       case Answered(c, i) => c in q.clients && i < |q.clients[c].responses|
       case Link(c, _, _, _, _) => c in q.clients
  }

  ghost function Next(q: Queue, e: Event): Queue
    requires Enabled(q, e)
  {
    match e
    case Ask(c, kind, id) => Request(q, c, kind, id).0
    case Put(cmd) => Add(q, cmd)
    case Send(i, o) => Take(q, i, o)
    case Finished(c, i) => q.(clients := q.clients[c := q.clients[c].(outbound := Without(q.clients[c].outbound, i))])
    case Answered(c, i) => q.(clients := q.clients[c := q.clients[c].(responses := Without(q.clients[c].responses, i))])
    case Link(c, connected, idle, clear, maxInflight) =>
      q.(clients := q.clients[c := q.clients[c].(connected := connected, idle := idle, clear := clear,
                                                 maxInflight := maxInflight)])
  }

  // ----- the number of buffered messages

  lemma {:induction false} BufferedJoin(a: seq<Command>, b: seq<Command>, c: int)
    ensures Buffered(a + b, c) == Buffered(a, c) + Buffered(b, c)
  {
    if b == [] {
      assert a + b == a;
    } else {
      assert (a + b)[..|a + b| - 1] == a + b[..|b| - 1];
      BufferedJoin(a, b[..|b| - 1], c);
    }
  }

  lemma BufferedOne(cmd: Command, c: int)
    ensures Buffered([cmd], c) == if Publishes(cmd, c) then 1 else 0
  {
    assert [cmd][..0] == [];
  }

  lemma BufferedWithout(s: seq<Command>, i: nat, c: int)
    requires i < |s|
    ensures Buffered(Without(s, i), c) == Buffered(s, c) - if Publishes(s[i], c) then 1 else 0
  {
    assert s == s[..i] + [s[i]] + s[i + 1..];
    BufferedJoin(s[..i] + [s[i]], s[i + 1..], c);
    BufferedJoin(s[..i], [s[i]], c);
    BufferedJoin(s[..i], s[i + 1..], c);
    BufferedOne(s[i], c);
  }

  ghost predicate Counted(q: Queue) {
    forall c :: c in q.clients ==> q.clients[c].buffered == Buffered(q.commands, c)
  }

  lemma CountedAdd(q: Queue, cmd: Command)
    requires Counted(q) && cmd.client in q.clients
    ensures Counted(Add(q, cmd))
  {
    forall c | c in q.clients ensures Add(q, cmd).clients[c].buffered == Buffered(Add(q, cmd).commands, c) {
      BufferedAdd(q, cmd, c);
      hide Add, Buffered;
    }
  }

  lemma BufferedAdd(q: Queue, cmd: Command, c: int)
    requires cmd.client in q.clients && c in q.clients
    ensures Buffered(Add(q, cmd).commands, c) - Buffered(q.commands, c)
         == Add(q, cmd).clients[c].buffered - q.clients[c].buffered
  {
    hide Without, Buffered;
    var commands := q.commands + [cmd];
    BufferedOne(cmd, c);
    BufferedJoin(q.commands, [cmd], c);
    BufferedJoin([cmd], q.commands, c);
    var i := OldestPublish(commands, cmd.client);
    assert commands[|q.commands|] == cmd;
    if i < |commands| { BufferedWithout(commands, i, c); }
  }

  lemma CountedNext(q: Queue, e: Event)
    requires Enabled(q, e) && Counted(q)
    ensures Counted(Next(q, e))
  {
    match e {
      case Ask(c, kind, id) =>
        CountedAdd(Issue(q, c, kind, id), Command(c, kind, id, q.issued));
      case Put(cmd) => CountedAdd(q, cmd);
      case Send(i, o) =>
        forall c | c in q.clients ensures Next(q, e).clients[c].buffered == Buffered(Next(q, e).commands, c) {
          BufferedWithout(q.commands, i, c);
        }
      case _ =>
    }
  }

  // ----- connects and internal disconnects stay at the head

  /** A CONNECT or a DISCONNECT of the client's own making. */
  predicate GoesFirst(cmd: Command) {
    cmd.kind in [Connect, Disconnect(true)]
  }

  ghost predicate UrgentFirst(s: seq<Command>) {
    forall i, j :: 0 <= i < j < |s| && GoesFirst(s[j]) ==> GoesFirst(s[i])
  }

  ghost predicate OnlyHeadUrgent(s: seq<Command>) {
    forall i :: 0 < i < |s| ==> !GoesFirst(s[i])
  }

  lemma UrgentWithout(s: seq<Command>, i: nat)
    requires i < |s|
    ensures UrgentFirst(s) ==> UrgentFirst(Without(s, i))
    ensures OnlyHeadUrgent(s) ==> OnlyHeadUrgent(Without(s, i))
  {
    WithoutIs(s, i);
    hide Without;
  }

  lemma UrgentAdd(q: Queue, cmd: Command)
    requires cmd.client in q.clients
    ensures UrgentFirst(q.commands) ==> UrgentFirst(Add(q, cmd).commands)
    ensures (q.commands != [] ==> q.commands[0].client == cmd.client) && OnlyHeadUrgent(q.commands) ==>
              OnlyHeadUrgent(Add(q, cmd).commands)
  {
    var commands := q.commands + [cmd];
    var i := OldestPublish(commands, cmd.client);
    if !cmd.Urgent() && i < |commands| {
      UrgentWithout(commands, i);
    }
    hide Without, OldestPublish;
  }

  lemma UrgentNext(q: Queue, e: Event)
    requires Enabled(q, e) && UrgentFirst(q.commands)
    ensures UrgentFirst(Next(q, e).commands)
  {
    match e {
      case Ask(c, kind, id) =>
        UrgentAdd(Issue(q, c, kind, id), Command(c, kind, id, q.issued));
        hide Add, UrgentFirst;
      case Put(cmd) => UrgentAdd(q, cmd);
      case Send(i, _) => UrgentWithout(q.commands, i);
      case _ =>
    }
  }

  /** With one client the duplicate check is enough: the head is the only connect or internal disconnect. */
  lemma OnlyHeadNext(q: Queue, e: Event, c: int)
    requires Enabled(q, e) && q.clients.Keys == {c} && OnlyHeadUrgent(q.commands)
    ensures OnlyHeadUrgent(Next(q, e).commands)
  {
    assert q.commands != [] ==> q.commands[0].client == c;
    match e {
      case Ask(_, kind, id) =>
        UrgentAdd(Issue(q, c, kind, id), Command(c, kind, id, q.issued));
        hide Add, OnlyHeadUrgent;
      case Put(cmd) => UrgentAdd(q, cmd);
      case Send(i, _) => UrgentWithout(q.commands, i);
      case _ =>
    }
  }

  /** With two it is not: a connect of another client at the head hides one already waiting. */
  lemma DuplicateConnect(a: int, b: int, clients: map<int, Client>)
    requires a != b && a in clients && b in clients
    ensures var ca, cb := Command(a, Connect, 0, 0), Command(b, Connect, 0, 0);
            Add(Add(Add(Queue([], clients, 0), ca), cb), ca).commands == [ca, cb, ca]
  {
    var q1 := Add(Queue([], clients, 0), Command(a, Connect, 0, 0));
    assert q1.commands == [Command(a, Connect, 0, 0)];
    var q2 := Add(q1, Command(b, Connect, 0, 0));
    assert q2.commands == [Command(b, Connect, 0, 0), Command(a, Connect, 0, 0)];
  }

  // ----- the buffer bound and flow control

  function Max(a: int, b: int): int {
    if a < b then b else a
  }

  /** No more buffered messages than the options allow, or than there were at the start. */
  ghost predicate Bounded(q: Queue, restored: map<int, nat>) {
    forall c :: c in q.clients && q.clients[c].createOptions.Some? ==>
      && c in restored
      && q.clients[c].buffered <= Max(q.clients[c].createOptions.value.maxBuffered, restored[c])
  }

  lemma BoundedNext(q: Queue, e: Event, restored: map<int, nat>)
    requires Enabled(q, e) && Bounded(q, restored)
    ensures Bounded(Next(q, e), restored)
  {
    hide Without, OldestPublish, Selected, InFlight, Assigned;
    if e.Send? { InFlightKeeps(q, e.i, e.o); }
  }

  lemma InFlightKeeps(q: Queue, i: nat, o: Outcome)
    requires i < |q.commands| && q.commands[i].client in q.clients
    ensures var c := q.commands[i].client;
            var before, after := q.clients[c], Take(q, i, o).clients[c];
            && after.createOptions == before.createOptions && after.msgID == before.msgID
            && after.buffered == before.buffered - (if q.commands[i].kind.Publish? then 1 else 0)
  {
  }

  /** Sending a command never takes the messages in flight above the limit. */
  lemma FlowControl(q: Queue, e: Event, c: int)
    requires Enabled(q, e) && e.Send? && c in q.clients
    ensures var before, after := |q.clients[c].outbound|, |Next(q, e).clients[c].outbound|;
            && before <= after
            && (after > before ==> after <= q.clients[c].maxInflight && after < MAX_MSG_ID)
  {
  }

  // ----- message ids

  /** The queued requests of client c have ids of their own, different from each other and from those given. */
  ghost predicate Apart(s: seq<Command>, c: int, ids: set<int>) {
    && (forall i, j :: 0 <= i < j < |s| && s[i].client == c && s[j].client == c && s[i].token != 0 ==>
          s[i].token != s[j].token)
    && (forall i :: 0 <= i < |s| && s[i].client == c && s[i].token != 0 ==> s[i].token !in ids)
    && (forall i :: 0 <= i < |s| && s[i].kind in [Subscribe, Unsubscribe, Publish(1), Publish(2)] ==>
          1 <= s[i].token <= MAX_MSG_ID)
  }

  ghost predicate Distinct(s: seq<Ticket>) {
    forall i, j :: 0 <= i < j < |s| && s[i].id != 0 ==> s[i].id != s[j].id
  }

  /** Where a message in flight and an open request have the same id, they are of the same request. */
  ghost predicate Matching(a: seq<Ticket>, b: seq<Ticket>) {
    forall i, j :: 0 <= i < |a| && 0 <= j < |b| && a[i].id == b[j].id != 0 ==> a[i].serial == b[j].serial
  }

  /** No request has the serial number that the next one will get. */
  ghost predicate Numbered(q: Queue, c: int)
    requires c in q.clients
  {
    && (forall i :: 0 <= i < |q.commands| && q.commands[i].token != 0 ==> q.commands[i].serial < q.issued)
    && Below(q.clients[c].outbound, q.issued) && Below(q.clients[c].responses, q.issued)
  }

  ghost predicate Below(s: seq<Ticket>, n: nat) {
    forall i :: 0 <= i < |s| && s[i].id != 0 ==> s[i].serial < n
  }

  /** Distinct live requests of a client, queued, in flight or waiting for a response, have distinct ids. */
  ghost predicate OwnIds(q: Queue, c: int)
    requires c in q.clients
  {
    var cl := q.clients[c];
    && Apart(q.commands, c, IdsOf(cl.outbound) + IdsOf(cl.responses))
    && Distinct(cl.outbound) && Distinct(cl.responses) && Matching(cl.outbound, cl.responses) && Numbered(q, c)
  }

  lemma ApartAppend(s: seq<Command>, cmd: Command, c: int, ids: set<int>)
    requires Apart(s, c, ids)
    requires cmd.UsesId() ==> 1 <= cmd.token <= MAX_MSG_ID
    requires cmd.token != 0 && cmd.client == c ==>
               cmd.token !in ids && forall i :: 0 <= i < |s| ==> s[i].token != cmd.token
    ensures Apart(s + [cmd], c, ids)
  {
  }

  lemma ApartPrepend(s: seq<Command>, cmd: Command, c: int, ids: set<int>)
    requires Apart(s, c, ids) && cmd.token == 0 && !cmd.UsesId()
    ensures Apart([cmd] + s, c, ids)
  {
  }

  lemma ApartWithout(s: seq<Command>, i: nat, c: int, ids: set<int>)
    requires i < |s| && Apart(s, c, ids)
    ensures Apart(Without(s, i), c, ids)
    ensures s[i].client == c ==> Apart(Without(s, i), c, ids + {s[i].token})
  {
    WithoutIs(s, i);
    hide Without;
  }

  lemma ApartFewer(s: seq<Command>, c: int, more: set<int>, fewer: set<int>)
    requires Apart(s, c, more) && fewer <= more
    ensures Apart(s, c, fewer)
  {
  }

  lemma OwnIdsAdd(q: Queue, cmd: Command, c: int)
    requires cmd.client in q.clients && c in q.clients && OwnIds(q, c)
    requires cmd.token != 0 ==> cmd.serial < q.issued
    requires if cmd.Urgent() then cmd.token == 0
             else (cmd.UsesId() ==> 1 <= cmd.token <= MAX_MSG_ID)
                  && (cmd.token != 0 && cmd.client == c ==> cmd.token !in InUse(q, c))
    ensures OwnIds(Add(q, cmd), c)
  {
    var ids := IdsOf(q.clients[c].outbound) + IdsOf(q.clients[c].responses);
    AddNumbered(q, cmd, c);
    hide Numbered;
    if cmd.Urgent() {
      ApartPrepend(q.commands, cmd, c, ids);
    } else {
      assert forall i :: 0 <= i < |q.commands| ==> q.commands[i].token in InUse(q, cmd.client);
      ApartAppend(q.commands, cmd, c, ids);
      var i := OldestPublish(q.commands + [cmd], cmd.client);
      if i <= |q.commands| { ApartWithout(q.commands + [cmd], i, c, ids); }
    }
    hide Apart, Without, OldestPublish;
  }

  lemma AddNumbered(q: Queue, cmd: Command, c: int)
    requires cmd.client in q.clients && c in q.clients && Numbered(q, c) && (cmd.token != 0 ==> cmd.serial < q.issued)
    ensures Numbered(Add(q, cmd), c)
  {
    hide Without, OldestPublish, Below;
    var more := q.(commands := q.commands + [cmd]);
    assert Numbered(more, c);
    var i := OldestPublish(more.commands, cmd.client);
    if i < |more.commands| { NumberedLess(more, more.(commands := Without(more.commands, i)), i, c); }
    var n := Add(q, cmd);
    assert n.clients[c].outbound == q.clients[c].outbound && n.clients[c].responses == q.clients[c].responses;
  }

  lemma TicketsDrop(s: seq<Ticket>, i: nat, n: nat)
    requires i < |s| && Distinct(s) && Below(s, n)
    ensures IdsOf(Without(s, i)) <= IdsOf(s) && Distinct(Without(s, i)) && Below(Without(s, i), n)
    ensures forall t | t in Without(s, i) :: t in s
  {
    WithoutIs(s, i);
    hide Without;
  }

  lemma MatchingFewer(a: seq<Ticket>, b: seq<Ticket>, a': seq<Ticket>, b': seq<Ticket>)
    requires Matching(a, b) && (forall t | t in a' :: t in a) && (forall t | t in b' :: t in b)
    ensures Matching(a', b')
  {
    forall i, j | 0 <= i < |a'| && 0 <= j < |b'| && a'[i].id == b'[j].id != 0 ensures a'[i].serial == b'[j].serial {
      assert a'[i] in a && b'[j] in b;
    }
  }

  lemma DistinctAppend(s: seq<Ticket>, t: Ticket, n: nat)
    requires Distinct(s) && Below(s, n) && (t.id != 0 ==> t.id !in IdsOf(s) && t.serial < n)
    ensures Distinct(s + [t]) && Below(s + [t], n) && IdsOf(s + [t]) == IdsOf(s) + {t.id}
  {
    assert forall x :: x in s + [t] <==> x in s || x == t;
    assert forall i :: 0 <= i < |s| ==> s[i].id in IdsOf(s);
  }

  lemma OwnIdsTake(q: Queue, i: nat, o: Outcome, c: int)
    requires i < |q.commands| && Known(q) && c in q.clients && OwnIds(q, c)
    ensures OwnIds(Take(q, i, o), c)
  {
    hide Without, Distinct, Matching, Below, InFlight;
    var cmd, cl := q.commands[i], q.clients[c];
    var ids := IdsOf(cl.outbound) + IdsOf(cl.responses);
    ApartWithout(q.commands, i, c, ids);
    if cmd.client == c {
      TokenMoves(cl, cmd, o, q.issued);
      SameTickets(cl, cl.buffered - 1, cmd, o);
      var after := InFlight(cl, cmd, o);
      ApartFewer(Without(q.commands, i), c, ids + {cmd.token}, IdsOf(after.outbound) + IdsOf(after.responses));
    }
    NumberedLess(q, Take(q, i, o), i, c);
    hide Apart;
  }

  lemma NumberedLess(q: Queue, n: Queue, i: nat, c: int)
    requires c in q.clients && c in n.clients && Numbered(q, c) && i < |q.commands|
    requires n.commands == Without(q.commands, i) && n.issued == q.issued
    requires Below(n.clients[c].outbound, n.issued) && Below(n.clients[c].responses, n.issued)
    ensures Numbered(n, c)
  {
    WithoutIs(q.commands, i);
    hide Without;
  }

  lemma SameTickets(cl: Client, n: int, cmd: Command, o: Outcome)
    ensures var a, b := InFlight(cl, cmd, o), InFlight(cl.(buffered := n), cmd, o);
            a.outbound == b.outbound && a.responses == b.responses
  {
  }

  lemma TokenMoves(cl: Client, cmd: Command, o: Outcome, n: nat)
    requires Distinct(cl.outbound) && Distinct(cl.responses) && Matching(cl.outbound, cl.responses)
    requires Below(cl.outbound, n) && Below(cl.responses, n) && (cmd.token != 0 ==> cmd.serial < n)
    requires cmd.token != 0 ==> cmd.token !in IdsOf(cl.outbound) + IdsOf(cl.responses)
    ensures var after := InFlight(cl, cmd, o);
            && Distinct(after.outbound) && Distinct(after.responses) && Matching(after.outbound, after.responses)
            && Below(after.outbound, n) && Below(after.responses, n)
            && IdsOf(after.outbound) + IdsOf(after.responses) <= IdsOf(cl.outbound) + IdsOf(cl.responses) + {cmd.token}
  {
    var t := Ticket(cmd.token, cmd.serial);
    DistinctAppend(cl.outbound, t, n);
    DistinctAppend(cl.responses, t, n);
    MatchingMore(cl.outbound, cl.responses, t);
    hide Distinct, Matching, Below;
  }

  lemma MatchingMore(a: seq<Ticket>, b: seq<Ticket>, t: Ticket)
    requires Matching(a, b) && (t.id != 0 ==> t.id !in IdsOf(a) + IdsOf(b))
    ensures Matching(a + [t], b) && Matching(a, b + [t]) && Matching(a + [t], b + [t])
  {
    assert forall i :: 0 <= i < |a| ==> a[i].id in IdsOf(a);
    assert forall i :: 0 <= i < |b| ==> b[i].id in IdsOf(b);
  }

  lemma OwnIdsNext(q: Queue, e: Event, c: int)
    requires Enabled(q, e) && c in q.clients && OwnIds(q, c)
    ensures c in Next(q, e).clients && OwnIds(Next(q, e), c)
  {
    match e {
      case Ask(k, kind, id) =>
        var issued := Issue(q, k, kind, id);
        assert OwnIds(issued, c);
        if NeedsId(kind) ==> id != 0 {
          assert InUse(issued, c) == InUse(q, c);
          OwnIdsAdd(issued, Command(k, kind, id, q.issued), c);
        }
        hide Add, Apart, Distinct, Matching, Below;
      case Put(cmd) => OwnIdsAdd(q, cmd, c);
      case Send(i, o) => OwnIdsTake(q, i, o, c);
      case Finished(k, i) => if k == c { OwnIdsFinished(q, i, c); }
      case Answered(k, i) => if k == c { OwnIdsAnswered(q, i, c); }
      case Link(_, _, _, _, _) =>
    }
  }

  lemma OwnIdsFinished(q: Queue, i: nat, c: int)
    requires Enabled(q, Finished(c, i)) && OwnIds(q, c)
    ensures OwnIds(Next(q, Finished(c, i)), c)
  {
    var cl := q.clients[c];
    var fewer := Without(cl.outbound, i);
    TicketsDrop(cl.outbound, i, q.issued);
    MatchingFewer(cl.outbound, cl.responses, fewer, cl.responses);
    ApartFewer(q.commands, c, IdsOf(cl.outbound) + IdsOf(cl.responses), IdsOf(fewer) + IdsOf(cl.responses));
    hide Without, Apart, Distinct, Matching, Below;
  }

  lemma OwnIdsAnswered(q: Queue, i: nat, c: int)
    requires Enabled(q, Answered(c, i)) && OwnIds(q, c)
    ensures OwnIds(Next(q, Answered(c, i)), c)
  {
    var cl := q.clients[c];
    var fewer := Without(cl.responses, i);
    TicketsDrop(cl.responses, i, q.issued);
    MatchingFewer(cl.outbound, cl.responses, cl.outbound, fewer);
    ApartFewer(q.commands, c, IdsOf(cl.outbound) + IdsOf(cl.responses), IdsOf(cl.outbound) + IdsOf(fewer));
    hide Without, Apart, Distinct, Matching, Below;
  }

  /** The number that an API call gets is no other request's. */
  lemma SerialsAreOwn(q: Queue, c: int)
    requires c in q.clients && OwnIds(q, c)
    ensures forall i :: 0 <= i < |q.commands| && q.commands[i].token != 0 ==> q.commands[i].serial != q.issued
    ensures forall t | t in q.clients[c].outbound + q.clients[c].responses :: t.id != 0 ==> t.serial != q.issued
  {
    var s := q.clients[c].outbound + q.clients[c].responses;
    assert Below(s, q.issued);
  }

  // ----- order

  /** The commands of client c that were put at the end of the queue. */
  function Appended(s: seq<Command>, c: int): seq<Command> {
    if s == [] then []
    else
      var last := s[|s| - 1];
      Appended(s[..|s| - 1], c) + if last.client == c && !GoesFirst(last) then [last] else []
  }

  /** Those of them that are not publishes. */
  function Steady(s: seq<Command>): seq<Command> {
    if s == [] then []
    else Steady(s[..|s| - 1]) + if s[|s| - 1].kind.Publish? then [] else [s[|s| - 1]]
  }

  ghost predicate Subsequence(a: seq<Command>, b: seq<Command>)
    decreases |b|
  {
    || a == []
    || (b != []
        && (|| Subsequence(a, b[..|b| - 1])
            || (a[|a| - 1] == b[|b| - 1] && Subsequence(a[..|a| - 1], b[..|b| - 1]))))
  }

  lemma {:induction false} AppendedJoin(a: seq<Command>, b: seq<Command>, c: int)
    ensures Appended(a + b, c) == Appended(a, c) + Appended(b, c)
  {
    if b == [] {
      assert a + b == a;
    } else {
      assert (a + b)[..|a + b| - 1] == a + b[..|b| - 1];
      AppendedJoin(a, b[..|b| - 1], c);
    }
  }

  function One(cmd: Command, c: int): seq<Command> {
    if cmd.client == c && !GoesFirst(cmd) then [cmd] else []
  }

  lemma AppendedOne(cmd: Command, c: int)
    ensures Appended([cmd], c) == One(cmd, c)
  {
    assert [cmd][..0] == [];
  }

  lemma AppendedWithout(s: seq<Command>, i: nat, c: int)
    requires i < |s|
    ensures Appended(s, c) == Appended(s[..i], c) + One(s[i], c) + Appended(s[i + 1..], c)
    ensures Appended(Without(s, i), c) == Appended(s[..i], c) + Appended(s[i + 1..], c)
  {
    assert s == s[..i] + [s[i]] + s[i + 1..];
    AppendedJoin(s[..i] + [s[i]], s[i + 1..], c);
    AppendedJoin(s[..i], [s[i]], c);
    AppendedJoin(s[..i], s[i + 1..], c);
    AppendedOne(s[i], c);
  }

  lemma {:induction false} NoneAppended(s: seq<Command>, c: int)
    requires forall i :: 0 <= i < |s| ==> s[i].client != c
    ensures Appended(s, c) == []
  {
    if s != [] { NoneAppended(s[..|s| - 1], c); }
  }

  lemma {:induction false} SteadyJoin(a: seq<Command>, b: seq<Command>)
    ensures Steady(a + b) == Steady(a) + Steady(b)
  {
    if b == [] {
      assert a + b == a;
    } else {
      assert (a + b)[..|a + b| - 1] == a + b[..|b| - 1];
      SteadyJoin(a, b[..|b| - 1]);
    }
  }

  lemma SubsequenceGrows(a: seq<Command>, b: seq<Command>, x: seq<Command>)
    requires Subsequence(a, b) && |x| <= 1
    ensures Subsequence(a + x, b + x)
  {
    if x == [] {
      assert a + x == a && b + x == b;
    } else {
      assert (a + x)[..|a|] == a && (b + x)[..|b|] == b;
    }
  }

  lemma {:induction false} SubsequenceSize(a: seq<Command>, b: seq<Command>)
    requires Subsequence(a, b)
    ensures |a| <= |b| && (|a| == |b| ==> a == b)
    decreases |b|
  {
    if a != [] {
      var b1 := b[..|b| - 1];
      if Subsequence(a, b1) {
        SubsequenceSize(a, b1);
      } else {
        SubsequenceSize(a[..|a| - 1], b1);
        assert |a| == |b| ==> a == a[..|a| - 1] + [a[|a| - 1]] && b == b1 + [b[|b| - 1]];
      }
    }
  }

  /** What is left of a subsequence when part of it goes is one too. */
  lemma {:induction false} SubsequenceLess(u: seq<Command>, x: seq<Command>, v: seq<Command>, b: seq<Command>)
    requires Subsequence(u + x + v, b)
    ensures Subsequence(u + v, b)
    decreases |b|
  {
    var a := u + x + v;
    if a == [] {
      assert u + v == [];
    } else {
      var b1 := b[..|b| - 1];
      if Subsequence(a, b1) {
        SubsequenceLess(u, x, v, b1);
      } else if v != [] {
        var v1 := v[..|v| - 1];
        assert a[..|a| - 1] == u + x + v1;
        SubsequenceLess(u, x, v1, b1);
        assert (u + v)[..|u + v| - 1] == u + v1;
      } else if x != [] {
        var x1 := x[..|x| - 1];
        assert a[..|a| - 1] == u + x1 + [];
        SubsequenceLess(u, x1, [], b1);
        assert u + [] == u + v;
        assert Subsequence(u + v, b1);
      } else {
        assert u + v == a;
      }
    }
  }

  /** The publish that makes room for a new one, if the buffer is full. */
  function Evicted(q: Queue, cmd: Command): seq<Command>
    requires cmd.client in q.clients
  {
    var commands := q.commands + [cmd];
    var i := OldestPublish(commands, cmd.client);
    if cmd.kind.Publish? && Full(q.clients[cmd.client]) && i < |commands| then [commands[i]] else []
  }

  ghost function AddRun(r: Run, q: Queue, cmd: Command): Run
    requires cmd.client in q.clients
  {
    if cmd.Urgent() && Duplicate(q.commands, cmd) then r.(q := q)
    else Run(Add(q, cmd), r.accepted + [cmd], r.taken, r.dropped + Evicted(q, cmd))
  }

  ghost function NextRun(r: Run, e: Event): Run
    requires Enabled(r.q, e)
  {
    match e
    case Ask(c, kind, id) =>
      var (q, result) := Request(r.q, c, kind, id);
      if result != Success then r.(q := q) else AddRun(r, Issue(r.q, c, kind, id), Command(c, kind, id, r.q.issued))
    case Put(cmd) => AddRun(r, r.q, cmd)
    case Send(i, _) => r.(q := Next(r.q, e), taken := r.taken + [r.q.commands[i]])
    case _ => r.(q := Next(r.q, e))
  }

  /** A run goes through the states of the queue. */
  lemma RunFollows(r: Run, e: Event)
    requires Enabled(r.q, e)
    ensures NextRun(r, e).q == Next(r.q, e)
  {
  }

  /** Taken commands and then those still queued are the accepted ones in order, but for dropped publishes. */
  ghost predicate InOrder(commands: seq<Command>, accepted: seq<Command>, taken: seq<Command>, dropped: seq<Command>, c: int) {
    var here := Appended(taken, c) + Appended(commands, c);
    && Subsequence(here, Appended(accepted, c))
    && Steady(here) == Steady(Appended(accepted, c))
    && |here| + |Appended(dropped, c)| == |Appended(accepted, c)|
  }

  lemma InOrderAppend(commands: seq<Command>, accepted: seq<Command>, taken: seq<Command>, dropped: seq<Command>,
                      cmd: Command, c: int)
    requires InOrder(commands, accepted, taken, dropped, c)
    ensures InOrder(commands + [cmd], accepted + [cmd], taken, dropped, c)
  {
    AppendedJoin(commands, [cmd], c);
    AppendedJoin(accepted, [cmd], c);
    AppendedOne(cmd, c);
    var t, q, a, x := Appended(taken, c), Appended(commands, c), Appended(accepted, c), One(cmd, c);
    assert t + q + x == t + (q + x);
    SubsequenceGrows(t + q, a, x);
    SteadyJoin(t + q, x);
    SteadyJoin(a, x);
  }

  lemma InOrderPrepend(commands: seq<Command>, accepted: seq<Command>, taken: seq<Command>, dropped: seq<Command>,
                       cmd: Command, c: int)
    requires InOrder(commands, accepted, taken, dropped, c) && cmd.Urgent()
    ensures InOrder([cmd] + commands, accepted + [cmd], taken, dropped, c)
  {
    AppendedJoin([cmd], commands, c);
    AppendedJoin(accepted, [cmd], c);
    AppendedOne(cmd, c);
    assert Appended([cmd] + commands, c) == Appended(commands, c);
    assert Appended(accepted + [cmd], c) == Appended(accepted, c);
    hide Appended, Subsequence, Steady;
  }

  lemma InOrderEvict(commands: seq<Command>, accepted: seq<Command>, taken: seq<Command>, dropped: seq<Command>,
                     i: nat, c: int)
    requires InOrder(commands, accepted, taken, dropped, c) && i < |commands| && commands[i].kind.Publish?
    ensures InOrder(Without(commands, i), accepted, taken, dropped + [commands[i]], c)
  {
    AppendedWithout(commands, i, c);
    AppendedJoin(dropped, [commands[i]], c);
    AppendedOne(commands[i], c);
    var t, u, x, v := Appended(taken, c), Appended(commands[..i], c), One(commands[i], c), Appended(commands[i + 1..], c);
    hide Appended, Without;
    LeaveOut(t, u, x, v, Appended(accepted, c));
  }

  lemma LeaveOut(t: seq<Command>, u: seq<Command>, x: seq<Command>, v: seq<Command>, b: seq<Command>)
    requires Subsequence(t + (u + x + v), b) && Steady(t + (u + x + v)) == Steady(b)
    requires x == [] || (|x| == 1 && x[0].kind.Publish?)
    ensures Subsequence(t + (u + v), b) && Steady(t + (u + v)) == Steady(b)
  {
    Brackets(t, u, x, v);
    SubsequenceLess(t + u, x, v, b);
    SteadyJoin(t + u + x, v);
    SteadyJoin(t + u, x);
    SteadyJoin(t + u, v);
    assert Steady(x) == [];
    assert Steady(t + u) + [] == Steady(t + u);
    hide Steady, Subsequence;
  }

  lemma Brackets(t: seq<Command>, u: seq<Command>, x: seq<Command>, v: seq<Command>)
    ensures t + (u + x + v) == t + u + x + v
    ensures t + (u + v) == t + u + v
  {
  }

  lemma TakeFirst(t: seq<Command>, u: seq<Command>, x: seq<Command>, v: seq<Command>)
    requires x == [] || u == []
    ensures t + (u + x + v) == (t + x) + (u + v)
  {
  }

  lemma InOrderTake(q: Queue, accepted: seq<Command>, taken: seq<Command>, dropped: seq<Command>, i: nat, c: int)
    requires InOrder(q.commands, accepted, taken, dropped, c) && FirstOfClient(q, i)
    ensures InOrder(Without(q.commands, i), accepted, taken + [q.commands[i]], dropped, c)
  {
    AppendedWithout(q.commands, i, c);
    AppendedJoin(taken, [q.commands[i]], c);
    AppendedOne(q.commands[i], c);
    if q.commands[i].client == c { NoneAppended(q.commands[..i], c); }
    TakeFirst(Appended(taken, c), Appended(q.commands[..i], c), One(q.commands[i], c), Appended(q.commands[i + 1..], c));
    hide Appended, Subsequence, Steady, Without;
  }

  lemma InOrderNext(r: Run, e: Event, c: int)
    requires Enabled(r.q, e) && InOrder(r.q.commands, r.accepted, r.taken, r.dropped, c)
    ensures var n := NextRun(r, e); InOrder(n.q.commands, n.accepted, n.taken, n.dropped, c)
  {
    hide AddRun, InOrder, Without;
    match e {
      case Ask(k, kind, id) =>
        InOrderAddRun(r, Issue(r.q, k, kind, id), Command(k, kind, id, r.q.issued), c);
      case Put(cmd) =>
        InOrderAddRun(r, r.q, cmd, c);
      case Send(i, _) =>
        InOrderTake(r.q, r.accepted, r.taken, r.dropped, i, c);
      case _ =>
    }
  }

  lemma InOrderAddRun(r: Run, q: Queue, cmd: Command, c: int)
    requires InOrder(q.commands, r.accepted, r.taken, r.dropped, c) && cmd.client in q.clients
    ensures var n := AddRun(r, q, cmd); InOrder(n.q.commands, n.accepted, n.taken, n.dropped, c)
  {
    hide InOrder, Without, Appended;
    if cmd.Urgent() {
      InOrderPrepend(q.commands, r.accepted, r.taken, r.dropped, cmd, c);
    } else {
      InOrderAppend(q.commands, r.accepted, r.taken, r.dropped, cmd, c);
      InOrderMakeRoom(q.commands + [cmd], r.accepted + [cmd], r.taken, r.dropped, cmd.client, c);
    }
    AddRunIs(r, q, cmd);
  }

  lemma AddRunIs(r: Run, q: Queue, cmd: Command)
    requires cmd.client in q.clients
    ensures var n, commands := AddRun(r, q, cmd), q.commands + [cmd];
            var i := OldestPublish(commands, cmd.client);
            && n.taken == r.taken
            && if cmd.Urgent() then
                 if Duplicate(q.commands, cmd) then (n.q, n.accepted, n.dropped) == (q, r.accepted, r.dropped)
                 else (n.q.commands, n.accepted, n.dropped) == ([cmd] + q.commands, r.accepted + [cmd], r.dropped)
               else if cmd.kind.Publish? && Full(q.clients[cmd.client]) then
                 && i < |commands|
                 && (n.q.commands, n.accepted, n.dropped) ==
                    (Without(commands, i), r.accepted + [cmd], r.dropped + [commands[i]])
               else
                 (n.q.commands, n.accepted, n.dropped) == (commands, r.accepted + [cmd], r.dropped)
  {
    assert r.dropped + [] == r.dropped;
    assert cmd.kind.Publish? ==> Publishes((q.commands + [cmd])[|q.commands|], cmd.client);
    hide Without;
  }

  lemma InOrderMakeRoom(commands: seq<Command>, accepted: seq<Command>, taken: seq<Command>, dropped: seq<Command>,
                        k: int, c: int)
    requires InOrder(commands, accepted, taken, dropped, c)
    ensures var i := OldestPublish(commands, k);
            i < |commands| ==> InOrder(Without(commands, i), accepted, taken, dropped + [commands[i]], c)
  {
    var i := OldestPublish(commands, k);
    hide InOrder, Without;
    if i < |commands| { InOrderEvict(commands, accepted, taken, dropped, i, c); }
  }

  // ----- every run

  /** What holds throughout. */
  ghost predicate Inv(r: Run, restored: map<int, nat>) {
    && Known(r.q) && Counted(r.q) && UrgentFirst(r.q.commands) && Bounded(r.q, restored)
    && (forall c :: c in r.q.clients ==> OwnIds(r.q, c))
    && (forall c :: InOrder(r.q.commands, r.accepted, r.taken, r.dropped, c))
  }

  ghost predicate Possible(r: Run, events: seq<Event>)
    decreases |events|
  {
    events != [] ==> Enabled(r.q, events[0]) && Possible(NextRun(r, events[0]), events[1..])
  }

  ghost function After(r: Run, events: seq<Event>): Run
    requires Possible(r, events)
    decreases |events|
  {
    if events == [] then r else After(NextRun(r, events[0]), events[1..])
  }

  /** A run may start with any queue, restored from persistence or empty. */
  lemma StartInOrder(q: Queue, c: int)
    ensures InOrder(q.commands, q.commands, [], [], c)
  {
    assert [] + Appended(q.commands, c) == Appended(q.commands, c);
    SubsequenceOfSelf(Appended(q.commands, c));
  }

  lemma {:induction false} SubsequenceOfSelf(a: seq<Command>)
    ensures Subsequence(a, a)
  {
    if a != [] { SubsequenceOfSelf(a[..|a| - 1]); }
  }

  lemma KnownNext(q: Queue, e: Event)
    requires Enabled(q, e)
    ensures Known(Next(q, e)) && Next(q, e).clients.Keys == q.clients.Keys
  {
    match e {
      case Ask(c, kind, id) =>
        KnownAdd(Issue(q, c, kind, id), Command(c, kind, id, q.issued));
        hide Add;
      case Put(cmd) => KnownAdd(q, cmd);
      case Send(i, _) => WithoutIs(q.commands, i);
      case _ =>
    }
  }

  lemma KnownAdd(q: Queue, cmd: Command)
    requires Known(q) && cmd.client in q.clients
    ensures Known(Add(q, cmd)) && Add(q, cmd).clients.Keys == q.clients.Keys
  {
    var commands := q.commands + [cmd];
    var i := OldestPublish(commands, cmd.client);
    if i < |commands| { WithoutIs(commands, i); }
    hide Without;
  }

  lemma InvNext(r: Run, e: Event, restored: map<int, nat>)
    requires Enabled(r.q, e) && Inv(r, restored)
    ensures Inv(NextRun(r, e), restored)
  {
    RunFollows(r, e);
    KnownNext(r.q, e);
    CountedNext(r.q, e);
    UrgentNext(r.q, e);
    BoundedNext(r.q, e, restored);
    var n := NextRun(r, e);
    hide Next, NextRun, Enabled, Counted, Bounded, OwnIds, InOrder, UrgentFirst;
    forall c | c in n.q.clients ensures OwnIds(n.q, c) {
      OwnIdsNext(r.q, e, c);
    }
    forall c ensures InOrder(n.q.commands, n.accepted, n.taken, n.dropped, c) {
      InOrderNext(r, e, c);
    }
  }

  lemma {:induction false} EveryRun(r: Run, events: seq<Event>, restored: map<int, nat>)
    requires Inv(r, restored) && Possible(r, events)
    ensures Inv(After(r, events), restored)
    decreases |events|
  {
    if events != [] {
      InvNext(r, events[0], restored);
      EveryRun(NextRun(r, events[0]), events[1..], restored);
    }
  }

  /** Where nothing of a client was dropped, its commands leave in exactly the order they were accepted in. */
  lemma FirstInFirstOut(r: Run, events: seq<Event>, restored: map<int, nat>, c: int)
    requires Inv(r, restored) && Possible(r, events)
    ensures var n := After(r, events);
            Appended(n.dropped, c) == [] ==> Appended(n.taken, c) + Appended(n.q.commands, c) == Appended(n.accepted, c)
  {
    EveryRun(r, events, restored);
    var n := After(r, events);
    assert InOrder(n.q.commands, n.accepted, n.taken, n.dropped, c);
    SubsequenceSize(Appended(n.taken, c) + Appended(n.q.commands, c), Appended(n.accepted, c));
  }

  /** With a single client there is never more than one connect or internal disconnect, and it is at the head. */
  lemma {:induction false} OneConnectAtHead(r: Run, events: seq<Event>, c: int)
    requires Possible(r, events) && r.q.clients.Keys == {c} && OnlyHeadUrgent(r.q.commands)
    ensures OnlyHeadUrgent(After(r, events).q.commands)
    decreases |events|
  {
    if events != [] {
      RunFollows(r, events[0]);
      OnlyHeadNext(r.q, events[0], c);
      KnownNext(r.q, events[0]);
      OneConnectAtHead(NextRun(r, events[0]), events[1..], c);
    }
  }
}
