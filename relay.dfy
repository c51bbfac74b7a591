/** The relay server (server.js): the registry of connected users keyed by connection, the guest
    counter, the drop rules for inbound frames, server-side stamping and the fan-out to open
    clients. Sockets are abstract connection ids with a ready state and an outbox holding what
    the server wrote to them; `JSON.parse` is an input (`Frame.parsed`) and `JSON.stringify` is
    left abstract, so the outbox holds values. */
module Relay {
  import opened Common
  import opened JsValue

  /** The largest frame the message handler accepts. */
  const MaxFrameSize: nat := 10 * MiB
  const GuestPrefix: string := "Invité"

  type ConnId = nat

  /** `ws.readyState` of a server-side socket. */
  datatype ClientState = Connecting | Open | Closing | Closed

  /** What `connectedUsers` holds per connection: the guest id and `Date.now()` at connect. */
  datatype PeerSession = PeerSession(id: string, connected: int)

  /** An inbound frame: its length, and what `JSON.parse` made of it (None when it throws). */
  datatype Frame = Frame(length: nat, parsed: Option<Value>)

  /** The guest id of the n-th connection: `Invité<n>`. */
  function GuestName(n: nat): string
  {
    GuestPrefix + NatToString(n)
  }

  /** Different counter values give different guest ids. */
  lemma GuestNameInjective(m: nat, n: nat)
    requires GuestName(m) == GuestName(n)
    ensures m == n
  {
    assert GuestName(m)[|GuestPrefix|..] == NatToString(m);
    assert GuestName(n)[|GuestPrefix|..] == NatToString(n);
    NatToStringInjective(m, n);
  }

  /** A frame the server writes to a client: a `user_id` notice, a `user_count` notice, or a
      client message relayed as stamped. */
  datatype Outgoing = UserId(id: string) | UserCount(count: nat) | Relayed(message: Value)

  /** The JSON value each outgoing frame serialises. */
  function Wire(o: Outgoing): (v: Value)
    ensures o.UserId? ==> Get(v, "type") == Str("user_id") && Get(v, "userId") == Str(o.id)
    ensures o.UserCount? ==> Get(v, "type") == Str("user_count") && Get(v, "count") == Num(o.count as real)
  {
    match o
    case UserId(id) => Obj(map["type" := Str("user_id"), "userId" := Str(id)])
    case UserCount(count) => Obj(map["type" := Str("user_count"), "count" := Num(count as real)])
    case Relayed(message) => message
  }

  /** The message handler's drop rules: a frame is kept iff it is at most 10 MiB, parses, and
      parses to something truthy of type `object` (an object or an array; `null` is falsy). */
  predicate Accepted(frame: Frame)
  {
    frame.length <= MaxFrameSize && frame.parsed.Some? && (frame.parsed.value.Obj? || frame.parsed.value.Arr?)
  }

  /** `message.timestamp = now; message.userId = id`. Properties set on an array do not survive
      `JSON.stringify`, so an array goes out unchanged. */
  function Stamp(message: Value, now: int, id: string): (r: Value)
    requires message.Obj? || message.Arr?
  {
    if message.Obj? then Set(Set(message, "timestamp", Num(now as real)), "userId", Str(id)) else message
  }

  /** The stamp overwrites whatever `userId` and `timestamp` the client sent and keeps the rest. */
  lemma StampFields(message: Value, now: int, id: string)
    requires message.Obj?
    ensures var r := Stamp(message, now, id);
      r.Obj? && Get(r, "userId") == Str(id) && Get(r, "timestamp") == Num(now as real)
      && r.fields.Keys == message.fields.Keys + {"timestamp", "userId"}
      && forall k :: k in message.fields && k != "userId" && k != "timestamp" ==> r.fields[k] == message.fields[k]
  {
  }

  /** The clients a broadcast reaches: open, and not the sender. */
  function Targets(clients: seq<ConnId>, state: map<ConnId, ClientState>, sender: Option<ConnId>): set<ConnId>
  {
    set c | c in clients && c in state && state[c] == Open && sender != Some(c)
  }

  /** `after` is `before` with `m` appended to the outbox of every target and of no one else. */
  ghost predicate Delivered(before: map<ConnId, seq<Outgoing>>, after: map<ConnId, seq<Outgoing>>, targets: set<ConnId>, m: Outgoing)
  {
    (forall c :: c in after <==> c in before)
    && forall c :: c in after ==> after[c] == if c in targets then before[c] + [m] else before[c]
  }

  /** A broadcast reaches a client iff that client is open and is not the sender, and it only
      ever appends. */
  lemma DeliveredReaches(before: map<ConnId, seq<Outgoing>>, after: map<ConnId, seq<Outgoing>>,
                         clients: seq<ConnId>, state: map<ConnId, ClientState>, sender: Option<ConnId>, m: Outgoing, c: ConnId)
    requires Delivered(before, after, Targets(clients, state, sender), m) && c in before
    ensures c in after && after[c][..|before[c]|] == before[c]
    ensures |after[c]| == |before[c]| + 1 <==> (c in clients && c in state && state[c] == Open && sender != Some(c))
    ensures |after[c]| == |before[c]| + 1 ==> after[c][|before[c]|] == m
  {
  }

  class Relay {
    var connectedUsers: map<ConnId, PeerSession>
    var userCounter: nat
    /** `wss.clients`, in the order the connections arrived. */
    var clients: seq<ConnId>
    /** The ready state of every socket the server has seen. */
    var state: map<ConnId, ClientState>
    /** What the server wrote to each socket, oldest first. */
    var outbox: map<ConnId, seq<Outgoing>>
    /** The counter value each registered connection was named after. */
    ghost var serial: map<ConnId, nat>

    /** The registry holds exactly the connections in `wss.clients`, each named `Invité<k>`
        for a distinct k below the counter. */
    ghost predicate Registry()
      reads this`userCounter, this`clients, this`state, this`connectedUsers, this`serial
    {
      userCounter >= 1
      && Distinct(clients)
      && (forall c :: c in clients ==> c in state)
      && (forall c :: c in connectedUsers <==> c in clients)
      && serial.Keys == connectedUsers.Keys
      && (forall c :: c in serial ==> 1 <= serial[c] < userCounter && connectedUsers[c].id == GuestName(serial[c]))
      && (forall c, d :: c in serial && d in serial && c != d ==> serial[c] != serial[d])
    }

    ghost predicate Valid()
      reads this
    {
      Registry() && state.Keys == outbox.Keys
    }

    /** A fresh server: no clients, the counter at 1. */
    constructor ()
      ensures Valid()
      ensures connectedUsers == map[] && userCounter == 1 && clients == []
      ensures state == map[] && outbox == map[]
    {
      connectedUsers, userCounter, clients := map[], 1, [];
      state, outbox := map[], map[];
      serial := map[];
    }

    /** Two registered connections never share a guest id. */
    lemma DistinctIds(c: ConnId, d: ConnId)
      requires Valid() && c in connectedUsers && d in connectedUsers && c != d
      ensures connectedUsers[c].id != connectedUsers[d].id
    {
      if connectedUsers[c].id == connectedUsers[d].id {
        GuestNameInjective(serial[c], serial[d]);
      }
    }

    /** The `connection` handler for a new socket `c` at time `now`: `c` joins the clients and
        the registry as `Invité<userCounter>`, the counter moves on by one, `c` alone receives
        its `user_id`, and every open client (`c` included) then receives the new `user_count`. */
    method Connect(c: ConnId, now: int)
      requires Valid() && c !in state
      modifies this
      ensures Valid()
      ensures userCounter == old(userCounter) + 1
      ensures connectedUsers == old(connectedUsers)[c := PeerSession(GuestName(old(userCounter)), now)]
      ensures clients == old(clients) + [c] && state == old(state)[c := Open]
      ensures Delivered(old(outbox)[c := [UserId(GuestName(old(userCounter)))]], outbox,
                        Targets(clients, state, None), UserCount(|clients|))
    {
      var id := Register(c, now);
      BroadcastUserCount();
    }

    /** The `connection` handler up to the count broadcast: the `ws` library has added the
        socket to `wss.clients`; it is registered and sent its `user_id`. */
    method Register(c: ConnId, now: int) returns (id: string)
      requires Valid() && c !in state
      modifies this`clients, this`state, this`outbox, this`connectedUsers, this`serial, this`userCounter
      ensures Valid()
      ensures id == GuestName(old(userCounter)) && userCounter == old(userCounter) + 1
      ensures connectedUsers == old(connectedUsers)[c := PeerSession(id, now)]
      ensures clients == old(clients) + [c] && state == old(state)[c := Open]
      ensures outbox == old(outbox)[c := [UserId(id)]]
    {
      DistinctSnoc(clients, c);
      clients := clients + [c];
      state := state[c := Open];
      id := GuestName(userCounter);
      outbox := outbox[c := [UserId(id)]];
      connectedUsers := connectedUsers[c := PeerSession(id, now)];
      serial := serial[c := userCounter];
      userCounter := userCounter + 1;
    }

    /** The `message` handler of connection `c` at time `now`: an accepted frame from a
        registered connection is stamped with the sender's id and the time and broadcast to
        every other open client; every other frame changes nothing. */
    method Message(c: ConnId, frame: Frame, now: int)
      requires Valid()
      modifies this`outbox
      ensures Valid()
      ensures Accepted(frame) && c in connectedUsers ==>
        Delivered(old(outbox), outbox, Targets(clients, state, Some(c)),
                  Relayed(Stamp(frame.parsed.value, now, connectedUsers[c].id)))
      ensures !(Accepted(frame) && c in connectedUsers) ==> outbox == old(outbox)
    {
      if frame.length > MaxFrameSize {
        return;
      }
      if frame.parsed.None? {
        return;
      }
      var message := frame.parsed.value;
      if !(message.Obj? || message.Arr?) {
        return;
      }
      if c !in connectedUsers {
        return;
      }
      var stamped := Stamp(message, now, connectedUsers[c].id);
      Broadcast(Relayed(stamped), Some(c));
    }

    /** The `close` handler of connection `c` (the `ws` library has already removed it from
        `wss.clients`): if it was registered it leaves the registry and every open client
        receives the new `user_count`; otherwise nothing is sent and the registry is unchanged. */
    method Close(c: ConnId)
      requires Valid()
      modifies this
      ensures Valid()
      ensures clients == Remove(old(clients), c) && userCounter == old(userCounter)
      ensures state == (if c in old(state) then old(state)[c := Closed] else old(state))
      ensures c in old(connectedUsers) ==> connectedUsers == old(connectedUsers) - {c}
      ensures c in old(connectedUsers) ==>
        Delivered(old(outbox), outbox, Targets(clients, state, None), UserCount(|clients|))
      ensures c !in old(connectedUsers) ==> connectedUsers == old(connectedUsers) && outbox == old(outbox)
    {
      var registered := Unregister(c);
      if registered {
        BroadcastUserCount();
      }
    }

    /** The bookkeeping half of the `close` handler. */
    method Unregister(c: ConnId) returns (registered: bool)
      requires Valid()
      modifies this`clients, this`state, this`connectedUsers, this`serial
      ensures Valid()
      ensures registered == (c in old(connectedUsers))
      ensures clients == Remove(old(clients), c)
      ensures state == (if c in old(state) then old(state)[c := Closed] else old(state))
      ensures connectedUsers == old(connectedUsers) - {c}
    {
      RemoveSpec(clients, c);
      clients := Remove(clients, c);
      if c in state {
        state := state[c := Closed];
      }
      registered := c in connectedUsers;
      connectedUsers := connectedUsers - {c};
      serial := serial - {c};
    }

    /** Connection `c` begins its closing handshake: it stays among the clients but, no longer
        open, receives nothing more. */
    method ClientClosing(c: ConnId)
      requires Valid()
      modifies this`state
      ensures Valid()
      ensures c in old(state) && old(state)[c] == Open ==> state == old(state)[c := Closing]
      ensures !(c in old(state) && old(state)[c] == Open) ==> state == old(state)
    {
      if c in state && state[c] == Open {
        state := state[c := Closing];
      }
    }

    /** `broadcast(message, sender)`: one pass over the clients, writing to each open client
        other than the sender. */
    method Broadcast(m: Outgoing, sender: Option<ConnId>)
      requires Valid()
      modifies this`outbox
      ensures Valid()
      ensures Delivered(old(outbox), outbox, Targets(clients, state, sender), m)
    {
      var i := 0;
      while i < |clients|
        invariant 0 <= i <= |clients|
        invariant Delivered(old(outbox), outbox, Targets(clients[..i], state, sender), m)
      {
        var client := clients[i];
        TargetsSnoc(clients, i, state, sender);
        NotYetTargeted(clients, i, state, sender);
        if Some(client) != sender && state[client] == Open {
          DeliveredOneMore(old(outbox), outbox, Targets(clients[..i], state, sender), m, client);
          outbox := outbox[client := outbox[client] + [m]];
        }
        i := i + 1;
      }
      assert clients[..i] == clients;
    }

    /** `broadcastUserCount`: the registry size, which is the number of clients, to every open
        client. */
    method BroadcastUserCount()
      requires Valid()
      modifies this`outbox
      ensures Valid()
      ensures Delivered(old(outbox), outbox, Targets(clients, state, None), UserCount(|clients|))
    {
      RegistrySize();
      Broadcast(UserCount(|connectedUsers|), None);
    }

    /** The registry has one entry per client, so `connectedUsers.size` counts the clients. */
    lemma RegistrySize()
      requires Registry()
      ensures |connectedUsers| == |clients|
    {
      assert connectedUsers.Keys == Elements(clients);
      DistinctCard(clients);
    }
  }

  /** `clients` without `c`, the order of the rest kept (a `Set.delete`). */
  function Remove(clients: seq<ConnId>, c: ConnId): seq<ConnId>
  {
    if clients == [] then []
    else (if clients[0] == c then [] else [clients[0]]) + Remove(clients[1..], c)
  }

  lemma {:induction false} RemoveSpec(clients: seq<ConnId>, c: ConnId)
    requires Distinct(clients)
    ensures forall d :: d in Remove(clients, c) <==> d in clients && d != c
    ensures Distinct(Remove(clients, c))
    decreases |clients|
  {
    if clients != [] {
      var rest := clients[1..];
      assert Distinct(rest);
      RemoveSpec(rest, c);
      assert clients[0] !in rest;
      if clients[0] != c {
        DistinctCons(clients[0], Remove(rest, c));
      }
    }
  }

  /** No connection appears twice. */
  ghost predicate Distinct(s: seq<ConnId>)
  {
    forall i, j :: 0 <= i < j < |s| ==> s[i] != s[j]
  }

  lemma DistinctCons(x: ConnId, s: seq<ConnId>)
    requires Distinct(s) && x !in s
    ensures Distinct([x] + s)
  {
    var t := [x] + s;
    forall i, j | 0 <= i < j < |t|
      ensures t[i] != t[j]
    {
      if i > 0 {
        assert t[i] == s[i - 1] && t[j] == s[j - 1];
      } else {
        assert t[j] in s;
      }
    }
  }

  /** The connections a sequence holds. */
  function Elements(s: seq<ConnId>): (r: set<ConnId>)
    ensures forall c :: c in r <==> c in s
  {
    if s == [] then {} else Elements(s[..|s| - 1]) + {s[|s| - 1]}
  }

  /** A sequence without repeats has as many distinct elements as it is long. */
  lemma {:induction false} DistinctCard(s: seq<ConnId>)
    requires Distinct(s)
    ensures |Elements(s)| == |s|
    decreases |s|
  {
    if s != [] {
      var init := s[..|s| - 1];
      assert Distinct(init);
      DistinctCard(init);
      assert s[|s| - 1] !in Elements(init);
    }
  }

  lemma DistinctSnoc(s: seq<ConnId>, x: ConnId)
    requires Distinct(s) && x !in s
    ensures Distinct(s + [x])
  {
  }

  /** A distinct client list has not reached position `i` before it. */
  lemma NotYetTargeted(clients: seq<ConnId>, i: nat, state: map<ConnId, ClientState>, sender: Option<ConnId>)
    requires i < |clients| && Distinct(clients)
    ensures clients[i] !in Targets(clients[..i], state, sender)
  {
    forall j | 0 <= j < i
      ensures clients[..i][j] != clients[i]
    {
      assert clients[..i][j] == clients[j];
    }
  }

  /** Delivering to one more, not yet reached, client extends the delivery. */
  lemma DeliveredOneMore(before: map<ConnId, seq<Outgoing>>, mid: map<ConnId, seq<Outgoing>>,
                         targets: set<ConnId>, m: Outgoing, c: ConnId)
    requires Delivered(before, mid, targets, m) && c in mid && c !in targets
    ensures Delivered(before, mid[c := mid[c] + [m]], targets + {c}, m)
  {
  }

  /** One more client extends the targets by that client when it is eligible. */
  lemma TargetsSnoc(clients: seq<ConnId>, i: nat, state: map<ConnId, ClientState>, sender: Option<ConnId>)
    requires i < |clients|
    ensures Targets(clients[..i + 1], state, sender)
      == Targets(clients[..i], state, sender)
         + (if clients[i] in state && state[clients[i]] == Open && sender != Some(clients[i]) then {clients[i]} else {})
  {
    assert clients[..i + 1] == clients[..i] + [clients[i]];
  }
}
