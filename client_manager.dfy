/**
 * The connection registry of voice_chat/client_manager.py: connected clients
 * under random 32-bit ids, and the id last given to each name. Sockets are
 * abstracted to "bytes sent to an id" and "socket of an id closed", recorded
 * in ghost logs.
 */
module Registry {
  import opened Converter

  /** The largest id `random.randint(0, 2 ** 32 - 1)` can return. */
  const MAX_CLIENT_ID: nat := 0xFFFF_FFFF

  /** A connected client: its login name, its address and the room it is in. */
  datatype Profile = Profile(name: string, addr: string, room: nat)

  /** One `sendall` of bytes to the socket of a client. */
  datatype Delivery = Delivery(to: nat, bytes: seq<byte>)

  /** Profile(name, sock, addr): a new client starts in room 0. */
  function NewProfile(name: string, addr: string): (p: Profile)
    ensures p.room == 0 && p.name == name && p.addr == addr
  {
    Profile(name, addr, 0)
  }

  /** gen_client_id: the random number is a parameter, reduced to the id range. */
  function GenClientId(draw: nat): (id: nat)
    ensures id <= MAX_CLIENT_ID
    ensures draw <= MAX_CLIENT_ID ==> id == draw
  {
    draw % (MAX_CLIENT_ID + 1)
  }

  /** Some draw gives an id that is not taken: what the retry loop of add_client needs to stop. */
  predicate SomeFreshDraw(clients: map<nat, Profile>, draws: seq<nat>) {
    exists k :: 0 <= k < |draws| && GenClientId(draws[k]) !in clients
  }

  class ClientManager {
    var clients: map<nat, Profile>
    var nameId: map<string, nat>
    ghost var sent: seq<Delivery>
    ghost var closed: seq<nat>

    constructor ()
      ensures clients == map[] && nameId == map[] && sent == [] && closed == []
    {
      clients := map[];
      nameId := map[];
      sent := [];
      closed := [];
    }

    /** __getitem__: the profile of a connected client; the source raises KeyError for any other id. */
    function Get(id: nat): (p: Profile)
      requires id in clients
      reads this
      ensures p == clients[id] && p in clients.Values
    {
      clients[id]
    }

    /**
     * add_client: draws ids until one is free, registers the profile under it
     * and points the profile's name at it, replacing any earlier id of that name.
     */
    method AddClient(profile: Profile, draws: seq<nat>) returns (id: nat)
      requires SomeFreshDraw(clients, draws)
      modifies this`clients, this`nameId
      ensures id !in old(clients) && id <= MAX_CLIENT_ID
      ensures exists k :: 0 <= k < |draws| && id == GenClientId(draws[k])
                && forall j :: 0 <= j < k ==> GenClientId(draws[j]) in old(clients)
      ensures clients == old(clients)[id := profile]
      ensures nameId == old(nameId)[profile.name := id]
    {
      var k := 0;
      id := GenClientId(draws[0]);
      while id in clients
        invariant 0 <= k < |draws| && id == GenClientId(draws[k])
        invariant forall j :: 0 <= j < k ==> GenClientId(draws[j]) in clients
        invariant exists m :: k <= m < |draws| && GenClientId(draws[m]) !in clients
        decreases |draws| - k
      {
        k := k + 1;
        id := GenClientId(draws[k]);
      }
      clients := clients[id := profile];
      nameId := nameId[profile.name := id];
    }

    /**
     * disconnect_client: closes the client's socket and forgets its profile;
     * its name keeps pointing at the id. For an id that is not registered the
     * lookup raises KeyError (removed is false) and nothing changes.
     */
    method DisconnectClient(id: nat) returns (removed: bool)
      modifies this`clients, this`closed
      ensures removed == (id in old(clients))
      ensures removed ==> clients == old(clients) - {id} && closed == old(closed) + [id]
      ensures !removed ==> clients == old(clients) && closed == old(closed)
    {
      if id !in clients {
        return false;
      }
      closed := closed + [id];
      clients := clients - {id};
      return true;
    }

    /** `sock.sendall(bytes)` on the socket of a connected client. */
    method Send(id: nat, bytes: seq<byte>)
      requires id in clients
      modifies this`sent
      ensures sent == old(sent) + [Delivery(id, bytes)]
    {
      sent := sent + [Delivery(id, bytes)];
    }
  }
}
