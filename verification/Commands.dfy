/**
 The queue of API calls waiting to be sent (MQTTAsyncUtils.c), as functions on its state.
 CommandQueue keeps the same state in fields and is proved to compute these functions.
 */
module Commands {
  import opened MessageIds

  datatype Option<+T> = None | Some(value: T)

  type QoS = x: int | 0 <= x <= 2

  datatype Kind = Connect | Disconnect(internal: bool) | Publish(qos: QoS) | Subscribe | Unsubscribe

  /** Does a request of this kind get a message id? */
  predicate NeedsId(kind: Kind) {
    kind.Subscribe? || kind.Unsubscribe? || (kind.Publish? && kind.qos > 0)
  }

  /** serial tells a request from every other one, as the address of its structure does in the source. */
  datatype Command = Command(client: int, kind: Kind, token: int, serial: nat) {
    /** Put at the head of the queue instead of its end. */
    predicate Urgent() { kind.Connect? || (kind.Disconnect? && kind.internal) }

    predicate UsesId() { NeedsId(kind) }
  }

  /** A request on its way: its message id, and which request it is. */
  datatype Ticket = Ticket(id: int, serial: nat)

  ghost function IdsOf(tickets: seq<Ticket>): set<int> {
    set t | t in tickets :: t.id
  }

  /** The create options that matter here. */
  datatype Options = Options(maxBuffered: int, deleteOldest: bool)

  datatype Client = Client(
    connected: bool,
    idle: bool,               // not in the middle of connecting
    clear: bool,              // no pending write on its socket
    maxInflight: int,
    createOptions: Option<Options>,
    buffered: int,            // noBufferedMessages
    msgID: int,               // the last message id issued
    outbound: seq<Ticket>,    // messages in flight
    responses: seq<Ticket>)   // requests waiting for a response

  /** issued counts the requests so far. */
  datatype Queue = Queue(commands: seq<Command>, clients: map<int, Client>, issued: nat)

  datatype Result = Success | Ignored | NoMoreIds | MaxBuffered

  // ----- adding

  predicate Publishes(cmd: Command, c: int) {
    cmd.client == c && cmd.kind.Publish?
  }

  function Buffered(commands: seq<Command>, c: int): nat {
    if commands == [] then 0
    else Buffered(commands[..|commands| - 1], c) + if Publishes(commands[|commands| - 1], c) then 1 else 0
  }

  /** The position of the oldest publish of client c, or the length. */
  function OldestPublish(commands: seq<Command>, c: int): (i: nat)
    ensures i <= |commands|
    ensures i < |commands| ==> Publishes(commands[i], c)
    ensures forall j :: 0 <= j < i ==> !Publishes(commands[j], c)
  {
    if commands == [] || Publishes(commands[0], c) then 0 else 1 + OldestPublish(commands[1..], c)
  }

  function Without<T>(s: seq<T>, i: nat): seq<T>
    requires i < |s|
  {
    s[..i] + s[i + 1..]
  }

  lemma WithoutIs<T>(s: seq<T>, i: nat)
    requires i < |s|
    ensures |Without(s, i)| == |s| - 1
    ensures forall j :: 0 <= j < |s| - 1 ==> Without(s, i)[j] == if j < i then s[j] else s[j + 1]
  {
  }

  /** The duplicate check sees only the head of the queue: it walks back from the first element. */
  predicate Duplicate(commands: seq<Command>, cmd: Command) {
    commands != [] && (commands[0].kind.Connect? || commands[0].kind.Disconnect?) && commands[0].client == cmd.client
  }

  predicate Full(cl: Client) {
    cl.createOptions.Some? && cl.buffered >= cl.createOptions.value.maxBuffered
  }

  function Add(q: Queue, cmd: Command): Queue
    requires cmd.client in q.clients
  {
    if cmd.Urgent() then
      if Duplicate(q.commands, cmd) then q else q.(commands := [cmd] + q.commands)
    else
      var commands := q.commands + [cmd];
      var cl := q.clients[cmd.client];
      if !cmd.kind.Publish? then q.(commands := commands)
      else if Full(cl) then
        var i := OldestPublish(commands, cmd.client);
        q.(commands := if i < |commands| then Without(commands, i) else commands)
      else
        q.(commands := commands, clients := q.clients[cmd.client := cl.(buffered := cl.buffered + 1)])
  }

  // ----- ids

  /** Tokens of queued commands of any client, of this client's messages in flight and of its open requests. */
  ghost function InUse(q: Queue, c: int): set<int>
    requires c in q.clients
  {
    (set i | 0 <= i < |q.commands| :: q.commands[i].token)
    + IdsOf(q.clients[c].outbound) + IdsOf(q.clients[c].responses)
  }

  /** A request of client c is given its serial number and, if it needs one, its id. */
  function Issue(q: Queue, c: int, kind: Kind, id: int): Queue
    requires c in q.clients
  {
    q.(clients := if NeedsId(kind) then q.clients[c := q.clients[c].(msgID := id)] else q.clients, issued := q.issued + 1)
  }

  /** MQTTAsync_send, MQTTAsync_subscribeMany and the like, given the result of the search for an id. */
  function Request(q: Queue, c: int, kind: Kind, id: int): (Queue, Result)
    requires c in q.clients
  {
    var cmd := Command(c, kind, id, q.issued);
    var cl := q.clients[c];
    if NeedsId(kind) && id == 0 then (q, NoMoreIds)
    else
      var issued := Issue(q, c, kind, id);
      if kind.Publish? && cl.createOptions.Some? && !cl.createOptions.value.deleteOldest && Full(cl) then
        (issued, MaxBuffered)
      else
        (Add(issued, cmd), Success)
  }

  // ----- taking

  /** May this command be sent now? */
  predicate Ready(cl: Client, cmd: Command) {
    && (cmd.kind.Connect? || cmd.kind.Disconnect? || (cl.connected && cl.idle && cl.clear))
    && !((cmd.kind.Publish? || cmd.kind.Subscribe? || cmd.kind.Unsubscribe?) && |cl.outbound| >= MAX_MSG_ID - 1)
    && !(cmd.UsesId() && |cl.outbound| >= cl.maxInflight)
  }

  ghost predicate Known(q: Queue) {
    forall i :: 0 <= i < |q.commands| ==> q.commands[i].client in q.clients
  }

  /** The command to send, if any: the first one of a client all of whose commands may be sent. */
  ghost predicate Selected(q: Queue, i: nat)
    requires Known(q)
  {
    && i <= |q.commands|
    && (i < |q.commands| ==> FirstOfClient(q, i) && Ready(q.clients[q.commands[i].client], q.commands[i]))
    && forall j :: 0 <= j < i ==> Passed(q, j)
  }

  ghost predicate FirstOfClient(q: Queue, i: nat) {
    i < |q.commands| && forall j :: 0 <= j < i ==> q.commands[j].client != q.commands[i].client
  }

  /** Passed over: not the first command of its client, or not ready. */
  ghost predicate Passed(q: Queue, j: nat)
    requires Known(q)
  {
    j < |q.commands| && (FirstOfClient(q, j) ==> !Ready(q.clients[q.commands[j].client], q.commands[j]))
  }

  lemma SelectedIsUnique(q: Queue, i: nat, j: nat)
    requires Known(q) && Selected(q, i) && Selected(q, j)
    ensures i == j
  {
    assert i < j ==> Passed(q, i);
    assert j < i ==> Passed(q, j);
  }

  /** What the socket did with a packet. */
  datatype Outcome = Complete | Interrupted | Failed

  /** Taking command i off the queue and sending it. */
  function Take(q: Queue, i: nat, o: Outcome): Queue
    requires i < |q.commands| && q.commands[i].client in q.clients
  {
    var cmd := q.commands[i];
    var cl := q.clients[cmd.client];
    var counted := if cmd.kind.Publish? then cl.(buffered := cl.buffered - 1) else cl;
    q.(commands := Without(q.commands, i), clients := q.clients[cmd.client := InFlight(counted, cmd, o)])
  }

  /** A QoS 1 or 2 message is in flight whatever the socket did; a request waits for its response unless that failed. */
  function InFlight(cl: Client, cmd: Command, o: Outcome): Client {
    var t := Ticket(cmd.token, cmd.serial);
    var sent := if cmd.kind.Publish? && cmd.kind.qos > 0 then cl.(outbound := cl.outbound + [t]) else cl;
    var waits := if cmd.UsesId() then o != Failed else cmd.kind.Publish? && o == Interrupted;
    if waits then sent.(responses := sent.responses + [t]) else sent
  }
}
