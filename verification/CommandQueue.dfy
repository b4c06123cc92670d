/**
 The command queue as the source keeps it: one list for all clients, changed step by step.
 */
module CommandQueue {
  import opened MessageIds
  import opened Commands
  import opened CommandSends

  class AsyncClients {
    var commands: seq<Command>
    var clients: map<int, Client>
    var issued: nat                // how many requests there have been

    function State(): Queue
      reads this
    {
      Queue(commands, clients, issued)
    }

    constructor (clients: map<int, Client>)
      ensures State() == Queue([], clients, 0)
    {
      commands, this.clients, issued := [], clients, 0;
    }

    /** MQTTAsync_addCommand. The search for a duplicate walks back from the first element. */
    method AddCommand(cmd: Command) returns (rc: Result)
      requires cmd.client in clients
      modifies this
      ensures State() == Add(old(State()), cmd)
      ensures rc == if cmd.Urgent() && Duplicate(old(commands), cmd) then Ignored else Success
    {
      rc := Success;
      if cmd.kind.Connect? || (cmd.kind.Disconnect? && cmd.kind.internal) {
        var head := false;
        var current := if commands != [] then 0 else -1;
        while current >= 0
          invariant current < |commands| && current <= 0
          invariant !head
          invariant current < 0 ==> !Duplicate(commands, cmd)
          decreases current
        {
          var cur := commands[current];
          if !cur.kind.Connect? && !cur.kind.Disconnect? {
            break;
          }
          if cur.client == cmd.client {
            head := true;
            break;
          }
          current := current - 1;
        }
        if head {
          rc := Ignored;
        } else {
          commands := [cmd] + commands;
        }
      } else {
        commands := commands + [cmd];
        if cmd.kind.Publish? {
          var cl := clients[cmd.client];
          if cl.createOptions.Some? && cl.buffered >= cl.createOptions.value.maxBuffered {
            var i := FirstPublish(cmd.client);
            if i < |commands| {
              commands := Without(commands, i);
            }
          } else {
            clients := clients[cmd.client := cl.(buffered := cl.buffered + 1)];
          }
        }
      }
    }

    /** The first publish of a client. */
    method FirstPublish(c: int) returns (i: nat)
      ensures i == OldestPublish(commands, c)
    {
      i := 0;
      while i < |commands| && !(commands[i].client == c && commands[i].kind.Publish?)
        invariant i <= |commands|
        invariant OldestPublish(commands, c) == i + OldestPublish(commands[i..], c)
      {
        i := i + 1;
      }
    }

    /** ListFindItem with cmdMessageIDCompare: commands of every client. */
    method TokenQueued(id: int) returns (found: bool)
      ensures found <==> exists i :: 0 <= i < |commands| && commands[i].token == id
    {
      found := false;
      var i := 0;
      while i < |commands| && !found
        invariant i <= |commands|
        invariant found <==> exists j :: 0 <= j < i && commands[j].token == id
      {
        found := commands[i].token == id;
        i := i + 1;
      }
    }

    method IdInUse(c: int, id: int) returns (found: bool)
      requires c in clients
      ensures found <==> id in InUse(State(), c)
    {
      found := TokenQueued(id);
      if !found {
        found := IdListed(clients[c].outbound, id);
        if !found {
          found := IdListed(clients[c].responses, id);
        }
      }
    }

    /** ListFindItem with messageIDCompare, and with cmdMessageIDCompare over the responses. */
    method IdListed(tickets: seq<Ticket>, id: int) returns (found: bool)
      ensures found <==> id in IdsOf(tickets)
    {
      found := false;
      var i := 0;
      while i < |tickets| && !found
        invariant i <= |tickets|
        invariant found <==> exists j :: 0 <= j < i && tickets[j].id == id
      {
        found := tickets[i].id == id;
        i := i + 1;
      }
    }

    /** MQTTAsync_assignMsgId. */
    method AssignMsgId(c: int) returns (msgid: int)
      requires c in clients && 0 <= clients[c].msgID <= MAX_MSG_ID
      requires Ends(InUse(State(), c), clients[c].msgID)
      modifies this`clients
      ensures Assigned(InUse(old(State()), c), old(clients[c].msgID), msgid)
      ensures clients == if msgid == 0 then old(clients) else old(clients)[c := old(clients[c]).(msgID := msgid)]
    {
      var start := clients[c].msgID;
      ghost var used, k := InUse(State(), c), 1;
      msgid := if start == MAX_MSG_ID then 1 else start + 1;
      assert Candidate(start, 0) == start;
      var taken := IdInUse(c, msgid);
      while taken
        invariant clients == old(clients)
        invariant k > 0 && AllUsed(used, start, k)
        invariant if msgid == 0 then !taken && Assigned(used, start, 0)
                  else msgid == Candidate(start, k) && msgid != start && 1 <= msgid <= MAX_MSG_ID
        invariant msgid != 0 ==> (taken <==> msgid in used)
        decreases if taken then 1 else 0, MAX_MSG_ID - k
      {
        StopsInTime(used, start, k);
        msgid := if msgid == MAX_MSG_ID then 1 else msgid + 1;
        k := k + 1;
        if msgid == start {
          CameRound(used, start, k);
          msgid := 0;
          taken := false;
          break;
        }
        taken := IdInUse(c, msgid);
      }
      if msgid != 0 {
        clients := clients[c := clients[c].(msgID := msgid)];
      }
    }

    /** An API call that queues a command other than a connect or disconnect. */
    method Send(c: int, kind: Kind) returns (rc: Result, ghost id: int)
      requires c in clients && 0 <= clients[c].msgID <= MAX_MSG_ID && !kind.Connect? && !kind.Disconnect?
      requires NeedsId(kind) ==> Ends(InUse(State(), c), clients[c].msgID)
      modifies this
      ensures if NeedsId(kind) then Assigned(InUse(old(State()), c), old(clients[c].msgID), id) else id == 0
      ensures (State(), rc) == Request(old(State()), c, kind, id)
    {
      hide Assigned, Ends, InUse, Add;
      var msgid := 0;
      if kind.Subscribe? || kind.Unsubscribe? || kind.qos > 0 {
        msgid := AssignMsgId(c);
        if msgid == 0 {
          return NoMoreIds, 0;
        }
      }
      id := msgid;
      var serial := issued;
      issued := issued + 1;
      var cl := clients[c];
      if kind.Publish? && cl.createOptions.Some? && !cl.createOptions.value.deleteOldest
         && cl.buffered >= cl.createOptions.value.maxBuffered {
        return MaxBuffered, id;
      }
      rc := AddCommand(Command(c, kind, msgid, serial));
    }

    /** The choice of the next command: once one command of a client is passed over, so are its others. */
    method Select() returns (i: nat)
      requires Known(State())
      ensures Selected(State(), i)
      ensures if i < |commands| then GoesNow(State(), i) else forall j :: 0 <= j < i ==> !GoesNow(State(), j)
    {
      var ignored := [];
      i := 0;
      while i < |commands|
        invariant i <= |commands|
        invariant forall c :: c in ignored <==> exists j :: 0 <= j < i && commands[j].client == c
        invariant forall j :: 0 <= j < i ==> Passed(State(), j)
      {
        var cmd := commands[i];
        if cmd.client !in ignored {
          var cl := clients[cmd.client];
          if cmd.kind.Connect? || cmd.kind.Disconnect? || (cl.connected && cl.idle && cl.clear) {
            if (cmd.kind.Publish? || cmd.kind.Subscribe? || cmd.kind.Unsubscribe?) && |cl.outbound| >= MAX_MSG_ID - 1 {
              // no more message ids available
            } else if ((cmd.kind.Publish? && cmd.kind.qos > 0) || cmd.kind.Subscribe? || cmd.kind.Unsubscribe?)
                      && |cl.outbound| >= cl.maxInflight {
              // flow control
            } else {
              ChosenGoesNow(State(), i);
              return;
            }
          }
          ignored := ignored + [cmd.client];
        }
        i := i + 1;
      }
      NoneGoesNow(State());
    }

    /** MQTTAsync_processCommand, with what the socket then does. */
    method ProcessCommand(o: Outcome) returns (ghost i: nat, busy: bool)
      requires Known(State())
      modifies this
      ensures Selected(old(State()), i) && busy == (i < |old(commands)|)
      ensures State() == if busy then Take(old(State()), i, o) else old(State())
    {
      var n := Select();
      i, busy := n, n < |commands|;
      if busy {
        var cmd := commands[n];
        var cl := clients[cmd.client];
        if cmd.kind.Publish? {
          cl := cl.(buffered := cl.buffered - 1);
        }
        commands := Without(commands, n);
        if cmd.kind.Publish? && cmd.kind.qos > 0 {
          cl := cl.(outbound := cl.outbound + [Ticket(cmd.token, cmd.serial)]);
        }
        if cmd.kind.Publish? && cmd.kind.qos == 0 {
          if o == Interrupted {
            cl := cl.(responses := cl.responses + [Ticket(cmd.token, cmd.serial)]);
          }
        } else if o != Failed && !cmd.kind.Connect? && !cmd.kind.Disconnect? {
          cl := cl.(responses := cl.responses + [Ticket(cmd.token, cmd.serial)]);
        }
        clients := clients[cmd.client := cl];
      }
    }
  }
}
