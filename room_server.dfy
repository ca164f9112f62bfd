/**
 * The voice-chat room of voice_chat/room_server.py: who is in the room, who
 * hears a sender (by day everyone registered, by night only the mafia, never
 * the dead), the relaying of voice and presence frames, the reply to a list
 * request, and the four-member trigger that launches a game.
 */
module Router {
  import opened Wrappers
  import opened Converter
  import opened Common
  import opened Protocol
  import opened Registry

  /** A game is launched when the room reaches this many members. */
  const MIN_PLAYER_COUNT: nat := 4

  /** The game port of room r is BASE_PORT + r. */
  const BASE_PORT: nat := 10000

  // ---------------------------------------------------------------------------
  // Recipient selection
  // ---------------------------------------------------------------------------

  /**
   * get_clients_to_broadcast exactly as the source has it. At night it maps
   * the mafia roster through name_id, which keeps the id of a name after that
   * client disconnected.
   */
  function RecipientsAsWritten(clients: map<nat, Profile>, nameId: map<string, nat>, members: set<nat>,
                               phase: Phase, mafia: seq<string>, dead: set<string>, sender: nat): (r: set<nat>)
    requires sender in clients
    requires forall n :: n in mafia ==> n in nameId
    ensures clients[sender].name in dead ==> r == {}
    ensures clients[sender].name !in dead && phase == Day ==> r == members * clients.Keys
    ensures clients[sender].name !in dead && phase == Night && clients[sender].name in mafia ==>
              forall id :: id in r <==> exists n :: n in mafia && nameId[n] == id
    ensures phase == Night && clients[sender].name !in mafia ==> r == {}
  {
    var name := clients[sender].name;
    if name in dead then {}
    else if phase == Day then set id | id in members && id in clients
    else if name in mafia then set n | n in mafia :: nameId[n]
    else {}
  }

  /**
   * The corrected selection used by the rest of the model: the night branch
   * keeps only ids that are still registered, as the day branch does.
   */
  function Recipients(clients: map<nat, Profile>, nameId: map<string, nat>, members: set<nat>,
                      phase: Phase, mafia: seq<string>, dead: set<string>, sender: nat): (r: set<nat>)
    requires sender in clients
    ensures r <= clients.Keys
    ensures clients[sender].name in dead ==> r == {}
    ensures clients[sender].name !in dead && phase == Day ==> r == members * clients.Keys
    ensures phase == Night ==>
              forall id :: id in r <==>
                clients[sender].name !in dead && clients[sender].name in mafia && id in clients
                && exists n :: n in mafia && n in nameId && nameId[n] == id
  {
    var name := clients[sender].name;
    if name in dead then {}
    else if phase == Day then set id | id in members && id in clients
    else if name in mafia then set n | n in mafia && n in nameId && nameId[n] in clients :: nameId[n]
    else {}
  }

  /** The correction only drops the ids the source would fail to look up. */
  lemma CorrectionDropsOnlyStaleIds(clients: map<nat, Profile>, nameId: map<string, nat>, members: set<nat>,
                                    phase: Phase, mafia: seq<string>, dead: set<string>, sender: nat)
    requires sender in clients
    requires forall n :: n in mafia ==> n in nameId
    ensures Recipients(clients, nameId, members, phase, mafia, dead, sender)
            == RecipientsAsWritten(clients, nameId, members, phase, mafia, dead, sender) * clients.Keys
  {
  }

  /**
   * By night the source selects the old id of a mafia member who has
   * disconnected: "bob" left under id 2, and broadcast's
   * `client_manager[2]` raises KeyError.
   */
  lemma StaleMafiaIdSelected()
    ensures var clients := map[1 := Profile("ann", "", 0)];
            var r := RecipientsAsWritten(clients, map["ann" := 1, "bob" := 2], {1}, Night, ["ann", "bob"], {}, 1);
            2 in r && 2 !in clients
  {
    var clients := map[1 := Profile("ann", "", 0)];
    var nameId := map["ann" := 1, "bob" := 2];
    assert nameId["bob"] == 2;
  }

  // ---------------------------------------------------------------------------
  // The sorted member list
  // ---------------------------------------------------------------------------

  /** Python's string order: lexicographic by code point. */
  predicate StrLe(a: string, b: string)
    decreases |a|
  {
    a == [] || (b != [] && (a[0] < b[0] || (a[0] == b[0] && StrLe(a[1..], b[1..]))))
  }

  /** Any two strings are ordered one way or the other. */
  lemma {:induction false} StrLeTotal(a: string, b: string)
    ensures StrLe(a, b) || StrLe(b, a)
    decreases |a|
  {
    if a != [] && b != [] && a[0] == b[0] {
      StrLeTotal(a[1..], b[1..]);
    }
  }

  predicate SortedNames(s: seq<string>) {
    forall i :: 0 < i < |s| ==> StrLe(s[i - 1], s[i])
  }

  /** Inserts a name into a sorted list before the first name it does not follow. */
  function Insert(x: string, s: seq<string>): (r: seq<string>)
    requires SortedNames(s)
    ensures SortedNames(r)
    ensures multiset(r) == multiset(s) + multiset{x}
    ensures r[0] == x || (s != [] && r[0] == s[0])
  {
    if s == [] || StrLe(x, s[0]) then [x] + s
    else
      var rest := Insert(x, s[1..]);
      StrLeTotal(x, s[0]);
      assert StrLe(s[0], rest[0]) by {
        if rest[0] != x {
          assert rest[0] == s[1];
        }
      }
      assert s == [s[0]] + s[1..];
      [s[0]] + rest
  }

  /** `sorted` on a list of names: the same names, in string order. */
  function SortNames(s: seq<string>): (r: seq<string>)
    ensures SortedNames(r)
    ensures multiset(r) == multiset(s)
  {
    if s == [] then []
    else
      assert s == [s[0]] + s[1..];
      Insert(s[0], SortNames(s[1..]))
  }

  /** How many of the ids are registered under the name n. */
  function NameCount(clients: map<nat, Profile>, ids: set<nat>, n: string): nat {
    |NamedIds(clients, ids, n)|
  }

  /** The ids among `ids` registered under the name n. */
  function NamedIds(clients: map<nat, Profile>, ids: set<nat>, n: string): set<nat> {
    set id | id in ids && id in clients && clients[id].name == n
  }

  lemma NameCountAdd(clients: map<nat, Profile>, ids: set<nat>, x: nat, n: string)
    requires x in clients && x !in ids
    ensures NameCount(clients, ids + {x}, n) == NameCount(clients, ids, n) + (if clients[x].name == n then 1 else 0)
  {
    var before := NamedIds(clients, ids, n);
    var after := NamedIds(clients, ids + {x}, n);
    if clients[x].name == n {
      assert x !in before;
      assert after == before + {x};
    } else {
      assert after == before;
    }
  }

  // ---------------------------------------------------------------------------
  // Send logs
  // ---------------------------------------------------------------------------

  /** `after` extends `before` by one send of `bytes` to each target, each exactly once. */
  ghost predicate Broadcasted(before: seq<Delivery>, after: seq<Delivery>, targets: set<nat>, bytes: seq<byte>) {
    |after| == |before| + |targets| && after[..|before|] == before
    && Addressees(after, |before|) == targets
    && forall i :: |before| <= i < |after| ==> after[i].bytes == bytes
  }

  /** The ids addressed by the sends of the log from index `from` on. */
  ghost function Addressees(log: seq<Delivery>, from: nat): set<nat> {
    set i | from <= i < |log| :: log[i].to
  }

  lemma AddresseesAppend(log: seq<Delivery>, from: nat, d: Delivery)
    requires from <= |log|
    ensures Addressees(log + [d], from) == Addressees(log, from) + {d.to}
  {
    var after := log + [d];
    forall t | t in Addressees(after, from) ensures t in Addressees(log, from) + {d.to} {
      var i :| from <= i < |after| && after[i].to == t;
      if i < |log| {
        assert log[i].to == t;
      }
    }
    forall t | t in Addressees(log, from) + {d.to} ensures t in Addressees(after, from) {
      if t == d.to {
        assert after[|log|].to == t;
      } else {
        var i :| from <= i < |log| && log[i].to == t;
        assert after[i].to == t;
      }
    }
  }

  /** One more send of the same bytes to a new target keeps the log a broadcast. */
  lemma BroadcastedExtend(before: seq<Delivery>, mid: seq<Delivery>, targets: set<nat>, bytes: seq<byte>, id: nat)
    requires Broadcasted(before, mid, targets, bytes) && id !in targets
    ensures Broadcasted(before, mid + [Delivery(id, bytes)], targets + {id}, bytes)
  {
    var after := mid + [Delivery(id, bytes)];
    AddresseesAppend(mid, |before|, Delivery(id, bytes));
    assert after[..|before|] == mid[..|before|];
  }

  /** A frame handed to broadcast: sent to every target if it can be encoded, and nothing sent if encode raises. */
  ghost predicate Relayed(before: seq<Delivery>, after: seq<Delivery>, targets: set<nat>, msg: Message) {
    if WellFormed(msg) then Broadcasted(before, after, targets, Encode(msg)) else after == before
  }

  /** The name of a voice or presence frame replaced by the sender's registered name. */
  function Renamed(msg: Message, name: string): (r: Message)
    requires msg.Voice? || msg.Connected? || msg.Disconnected?
    ensures TypeCode(r) == TypeCode(msg) && r.name == name
    ensures msg.Voice? ==> r.data == msg.data
  {
    match msg
    case Voice(_, data) => Voice(name, data)
    case Connected(_) => Connected(name)
    case Disconnected(_) => Disconnected(name)
  }

  /**
   * What handle_message did with a frame. LookupFailed: a member id is no
   * longer registered, and `client_manager[client_id]` raised KeyError.
   */
  datatype Handling = Relay | Replied | Discarded | EncodeFailed | LookupFailed

  /**
   * The send loops of broadcast and launch_game: the bytes once to each of
   * the ids, in any order, looking each id up first. The lookup of an id that
   * is no longer registered raises KeyError (ok is false), after the bytes
   * went to the registered ids visited before it.
   */
  method SendEach(cm: ClientManager, ids: set<nat>, bytes: seq<byte>) returns (ok: bool)
    modifies cm`sent
    ensures ok == (ids <= cm.clients.Keys)
    ensures ok ==> Broadcasted(old(cm.sent), cm.sent, ids, bytes)
    ensures !ok ==> exists done :: done < ids && done <= cm.clients.Keys && Broadcasted(old(cm.sent), cm.sent, done, bytes)
  {
    var pending := ids;
    ghost var targets: set<nat> := {};
    ghost var before := cm.sent;
    while pending != {}
      invariant pending <= ids
      invariant targets !! pending && targets + pending == ids
      invariant targets <= cm.clients.Keys
      invariant Broadcasted(before, cm.sent, targets, bytes)
      decreases pending
    {
      var id :| id in pending;
      if id !in cm.clients {
        return false;
      }
      BroadcastedExtend(before, cm.sent, targets, bytes, id);
      cm.Send(id, bytes);
      targets := targets + {id};
      pending := pending - {id};
    }
    return true;
  }

  class RoomServer {
    const clientManager: ClientManager
    const port: nat
    var clientIds: set<nat>
    var gameRunning: bool     // mafia_game is not None
    var gameStarting: bool
    var phase: Phase
    var mafia: seq<string>
    var dead: set<string>

    /** RoomServer(client_manager, room_id): an empty room by day; room ids are one byte on the wire. */
    constructor (cm: ClientManager, roomId: nat)
      requires roomId < Pow256(ROOM_TYPE_SIZE)
      ensures clientManager == cm && port == BASE_PORT + roomId && port < Pow256(PORT_SIZE)
      ensures clientIds == {} && !gameRunning && !gameStarting
      ensures phase == Day && dead == {} && mafia == []
    {
      clientManager := cm;
      port := BASE_PORT + roomId;
      clientIds := {};
      gameRunning := false;
      gameStarting := false;
      phase := Day;
      dead := {};
      mafia := [];
    }

    /** The recipients of a frame from `sender` in the current state. */
    function RecipientsOf(sender: nat): (r: set<nat>)
      requires sender in clientManager.clients
      reads this, clientManager`clients, clientManager`nameId
      ensures r <= clientManager.clients.Keys
    {
      Recipients(clientManager.clients, clientManager.nameId, clientIds, phase, mafia, dead, sender)
    }

    /** broadcast: sends the bytes once to every recipient except the sender. */
    method Broadcast(sender: nat, bytes: seq<byte>)
      requires sender in clientManager.clients
      modifies clientManager`sent
      ensures Broadcasted(old(clientManager.sent), clientManager.sent, old(RecipientsOf(sender)) - {sender}, bytes)
    {
      var ids := RecipientsOf(sender) - {sender};
      var ok := SendEach(clientManager, ids, bytes);
    }

    /**
     * The names of the members, sorted: the body of the reply to LIST_REQUEST.
     * None where the lookup of a member that is no longer registered raises KeyError.
     */
    method ListMembers() returns (names: Option<seq<string>>)
      ensures names.None? <==> !(clientIds <= clientManager.clients.Keys)
      ensures names.Some? ==> SortedNames(names.value)
      ensures names.Some? ==> forall n :: multiset(names.value)[n] == NameCount(clientManager.clients, clientIds, n)
    {
      var listed: seq<string> := [];
      var pending := clientIds;
      ghost var done: set<nat> := {};
      while pending != {}
        invariant pending + done == clientIds && pending !! done
        invariant done <= clientManager.clients.Keys
        invariant forall n :: multiset(listed)[n] == NameCount(clientManager.clients, done, n)
        decreases pending
      {
        var id :| id in pending;
        if id !in clientManager.clients {
          return None;
        }
        forall n ensures NameCount(clientManager.clients, done + {id}, n)
                         == NameCount(clientManager.clients, done, n) + (if clientManager.clients[id].name == n then 1 else 0) {
          NameCountAdd(clientManager.clients, done, id, n);
        }
        listed := listed + [clientManager.clients[id].name];
        pending := pending - {id};
        done := done + {id};
      }
      names := Some(SortNames(listed));
    }

    /**
     * handle_message: a voice or presence frame is relayed under the sender's
     * registered name; a list request is answered to the sender alone with
     * the sorted member names; anything else is discarded. Encoding a frame
     * whose fields overflow their widths raises, and nothing is sent.
     */
    method HandleMessage(sender: nat, msg: Message) returns (handling: Handling)
      requires sender in clientManager.clients
      modifies clientManager`sent
      ensures (msg.Voice? || msg.Connected? || msg.Disconnected?) ==>
                var relayed := Renamed(msg, clientManager.clients[sender].name);
                Relayed(old(clientManager.sent), clientManager.sent, old(RecipientsOf(sender)) - {sender}, relayed)
                && handling == (if WellFormed(relayed) then Relay else EncodeFailed)
      ensures msg.ListRequest? && !(clientIds <= clientManager.clients.Keys) ==>
                handling == LookupFailed && clientManager.sent == old(clientManager.sent)
      ensures msg.ListRequest? && clientIds <= clientManager.clients.Keys ==>
                exists names :: SortedNames(names)
                  && (forall n :: multiset(names)[n] == NameCount(clientManager.clients, clientIds, n))
                  && if WellFormed(ListResponse(names))
                     then handling == Replied
                          && clientManager.sent == old(clientManager.sent) + [Delivery(sender, Encode(ListResponse(names)))]
                     else handling == EncodeFailed && clientManager.sent == old(clientManager.sent)
      ensures !(msg.Voice? || msg.Connected? || msg.Disconnected? || msg.ListRequest?) ==>
                handling == Discarded && clientManager.sent == old(clientManager.sent)
    {
      if msg.Voice? || msg.Connected? || msg.Disconnected? {
        var relayed := Renamed(msg, clientManager.clients[sender].name);
        if WellFormed(relayed) {
          Broadcast(sender, Encode(relayed));
          handling := Relay;
        } else {
          handling := EncodeFailed;
        }
      } else if msg.ListRequest? {
        var listed := ListMembers();
        if listed.None? {
          handling := LookupFailed;
        } else if WellFormed(ListResponse(listed.value)) {
          clientManager.Send(sender, Encode(ListResponse(listed.value)));
          handling := Replied;
        } else {
          handling := EncodeFailed;
        }
      } else {
        handling := Discarded;
      }
    }

    /**
     * add_client: the client joins, its arrival is relayed to the room, it is
     * told the game port if a game is starting, and a game is due to launch
     * (the result) when the room has just reached four members and no game runs.
     * A name too long for its 2-byte length makes encoding the arrival raise:
     * the client stays in the room, and nothing is sent or launched.
     */
    method AddClient(id: nat) returns (launch: bool)
      requires id in clientManager.clients
      requires port < Pow256(PORT_SIZE)
      modifies this`clientIds, clientManager`sent
      ensures clientIds == old(clientIds) + {id}
      ensures !NameFits(clientManager.clients[id].name) ==> !launch && clientManager.sent == old(clientManager.sent)
      ensures NameFits(clientManager.clients[id].name) ==> launch == (|clientIds| == MIN_PLAYER_COUNT && !gameRunning)
      ensures NameFits(clientManager.clients[id].name) ==> exists relayedLog ::
                Relayed(old(clientManager.sent), relayedLog, Recipients(clientManager.clients, clientManager.nameId, clientIds, phase, mafia, dead, id) - {id},
                        Connected(clientManager.clients[id].name))
                && clientManager.sent == relayedLog + (if gameStarting then [Delivery(id, Encode(GameStarting(port)))] else [])
    {
      clientIds := clientIds + {id};
      ghost var targets := Recipients(clientManager.clients, clientManager.nameId, clientIds, phase, mafia, dead, id) - {id};
      var name := clientManager.clients[id].name;
      var handling := HandleMessage(id, Connected(name));
      if handling == EncodeFailed {
        return false;
      }
      ghost var relayedLog := clientManager.sent;
      assert Renamed(Connected(name), name) == Connected(name);
      assert Relayed(old(clientManager.sent), relayedLog, targets, Connected(name));
      if gameStarting {
        clientManager.Send(id, Encode(GameStarting(port)));
      }
      launch := |clientIds| == MIN_PLAYER_COUNT && !gameRunning;
      assert targets == Recipients(clientManager.clients, clientManager.nameId, clientIds, phase, mafia, dead, id) - {id};
      assert clientManager.sent == relayedLog + (if gameStarting then [Delivery(id, Encode(GameStarting(port)))] else []);
    }

    /**
     * launch_game: every member is told the game port, then the game server
     * is running (launched). The lookup of a member that is no longer
     * registered raises KeyError: the members visited before it were told the
     * port, and the room stays "starting" with no game. The wait before the
     * start, during which a newcomer is also told the port, and the server
     * itself are outside this model.
     */
    method LaunchGame() returns (launched: bool)
      requires port < Pow256(PORT_SIZE)
      modifies this`gameStarting, this`gameRunning, clientManager`sent
      ensures launched == (clientIds <= clientManager.clients.Keys)
      ensures launched ==>
                Broadcasted(old(clientManager.sent), clientManager.sent, clientIds, Encode(GameStarting(port)))
                && gameRunning && !gameStarting
      ensures !launched ==>
                gameStarting && gameRunning == old(gameRunning)
                && exists done :: done < clientIds && done <= clientManager.clients.Keys
                     && Broadcasted(old(clientManager.sent), clientManager.sent, done, Encode(GameStarting(port)))
    {
      gameStarting := true;
      launched := SendEach(clientManager, clientIds, Encode(GameStarting(port)));
      if launched {
        gameStarting := false;
        gameRunning := true;
      }
    }

    /** finish: once the game server has terminated, the room holds no game. */
    method Finish()
      modifies this`gameRunning
      ensures !gameRunning
    {
      gameRunning := false;
    }

    /** remove_client: the client leaves and its departure is relayed to whoever still hears it. */
    method RemoveClient(id: nat)
      requires id in clientIds && id in clientManager.clients
      modifies this`clientIds, clientManager`sent
      ensures clientIds == old(clientIds) - {id}
      ensures Relayed(old(clientManager.sent), clientManager.sent, Recipients(clientManager.clients, clientManager.nameId, clientIds, phase, mafia, dead, id) - {id},
                      Disconnected(clientManager.clients[id].name))
    {
      clientIds := clientIds - {id};
      var _ := HandleMessage(id, Disconnected(clientManager.clients[id].name));
    }

    /** notify_phase */
    method NotifyPhase(p: Phase)
      modifies this`phase
      ensures phase == p
    {
      phase := p;
    }

    /** notify_mafia */
    method NotifyMafia(names: seq<string>)
      modifies this`mafia
      ensures mafia == names
    {
      mafia := names;
    }

    /** notify_dead */
    method NotifyDead(name: string)
      modifies this`dead
      ensures dead == old(dead) + {name}
    {
      dead := dead + {name};
    }
  }
}
