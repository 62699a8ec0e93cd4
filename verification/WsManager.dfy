/**
 The WebSocket handlers as the program runs them, cut at the points where other goroutines and actors can act: the two
 critical sections of a login, and the sending and the answer of each room request. Each piece is one step of `Session`.
 */
module WsManager {
  import opened Session
  import opened WsClient

  const OK := 0

  class WebSocketManager {
    var clients: map<int, WSClient>
    ghost var conns: map<nat, WSClient>        // every connection there ever was, by number
    ghost var live: set<nat>
    ghost var pcs: map<nat, Pc>
    ghost var rooms: map<string, Room>         // the rooms are other actors
    ghost var strays: multiset<Stray>

    ghost predicate Valid()
      reads this, conns.Values
    {
      && pcs.Keys == conns.Keys
      && (forall c | c in conns :: conns[c].id == c)
      && (forall u | u in clients :: Known(clients[u]))
    }

    ghost predicate Known(client: WSClient)
      reads this`conns
    {
      client.id in conns && conns[client.id] == client
    }

    ghost function ConnOf(c: nat): Conn
      reads this, conns.Values
      requires Valid() && c in conns
    {
      Conn(c in live, conns[c].userID, conns[c].currentRoom, pcs[c])
    }

    ghost function Abstract(): State
      reads this, conns.Values
      requires Valid()
    {
      State(Conns(), ClientIds(), rooms, strays)
    }

    ghost function ClientIds(): map<int, nat>
      reads this
    {
      map u | u in clients :: clients[u].id
    }

    ghost function Conns(): map<nat, Conn>
      reads this, conns.Values
      requires Valid()
    {
      map c | c in conns :: ConnOf(c)
    }

    constructor ()
      ensures Valid() && Abstract() == EMPTY
    {
      clients, conns, live, pcs, rooms, strays := map[], map[], {}, map[], map[], multiset{};
    }

    /** A new connection. */
    method HandleWebSocket(c: nat) returns (client: WSClient)
      requires Valid() && c !in conns
      modifies this`conns, this`live, this`pcs
      ensures Valid() && Known(client) && client.id == c
      ensures Abstract() == Next(old(Abstract()), Connect(c))
    {
      ghost var s := Abstract();
      client := new WSClient(c);
      conns, live, pcs := conns[c := client], live + {c}, pcs[c := Ready];
      assert Conns() == s.conns[c := Conn(true, 0, "", Ready)] && ClientIds() == s.clients;
    }

    /** The handler of `client` is now at `pc`. */
    ghost method GoTo(client: WSClient, pc: Pc)
      requires Valid() && Known(client)
      modifies this`pcs
      ensures Valid() && pcs == old(pcs)[client.id := pc]
      ensures var s := old(Abstract()); Abstract() == Put(s, client.id, s.conns[client.id].(pc := pc))
    {
      var s := Abstract();
      pcs := pcs[client.id := pc];
      assert Conns() == s.conns[client.id := s.conns[client.id].(pc := pc)] && ClientIds() == s.clients;
    }

    /** The first critical section of a login: is somebody online under this user? */
    method CheckLogin(client: WSClient, userID: int) returns (exists_: bool)
      requires Valid() && Known(client) && client.id in live && pcs[client.id] == Ready
      modifies this`pcs
      ensures Valid() && exists_ == (userID in clients)
      ensures Abstract() == if exists_ then old(Abstract()) else Next(old(Abstract()), LoginCheck(client.id, userID))
    {
      exists_ := userID in clients;
      if !exists_ {
        GoTo(client, Checked(userID));
      }
    }

    /** The client takes the user's name, outside the lock. */
    method SetFields(client: WSClient, userID: int)
      requires Valid() && Known(client) && client.id in live && pcs[client.id] == Checked(userID)
      modifies this`pcs, client`userID
      ensures Valid() && Abstract() == Next(old(Abstract()), LoginFields(client.id))
      ensures client.userID == userID
    {
      ghost var s := Abstract();
      client.userID := userID;
      pcs := pcs[client.id := Named(userID)];
      assert Conns() == s.conns[client.id := ConnOf(client.id)] && ClientIds() == s.clients;
    }

    /** `clients[userID] = client` */
    method Enter(client: WSClient, userID: int)
      requires Valid() && Known(client)
      modifies this`clients
      ensures Valid() && clients == old(clients)[userID := client]
      ensures Abstract() == old(Abstract()).(clients := old(Abstract()).clients[userID := client.id])
    {
      ghost var s := Abstract();
      clients := clients[userID := client];
      assert Conns() == s.conns && ClientIds() == s.clients[userID := client.id];
    }

    /** The second critical section: the client is stored, whoever else may have come in between. */
    method StoreLogin(client: WSClient, userID: int)
      requires Valid() && Known(client) && client.id in live && pcs[client.id] == Named(userID)
      modifies this`clients, this`pcs
      ensures Valid() && Abstract() == Next(old(Abstract()), LoginStore(client.id))
      ensures clients == old(clients)[userID := client]
    {
      Enter(client, userID);
      GoTo(client, Ready);
    }

    /** Up to the call of the room. Without a login nothing is sent, and a call without a room's name fails at once. */
    method BeginJoin(client: WSClient, roomID: string) returns (sent: bool)
      requires Valid() && Known(client) && client.id in live && pcs[client.id] == Ready
      modifies this`pcs
      ensures Valid() && sent == (client.userID != 0 && roomID != "")
      ensures Abstract() == if sent then Next(old(Abstract()), SendJoin(client.id, roomID)) else old(Abstract())
    {
      if client.userID == 0 {
        return false;
      }
      if roomID == "" {
        return false;
      }
      GoTo(client, Joining(roomID));
      sent := true;
    }

    /** The room has answered. Only an OK makes it the client's room. */
    method JoinAnswered(client: WSClient, roomID: string, code: int)
      requires Valid() && Known(client) && client.id in live && pcs[client.id] == JoinReplied(roomID, code == OK)
      modifies this`pcs, client`currentRoom
      ensures Valid() && Abstract() == Next(old(Abstract()), JoinAnswer(client.id))
      ensures client.currentRoom == if code == OK then roomID else old(client.currentRoom)
    {
      ghost var s := Abstract();
      if code == OK {
        client.currentRoom := roomID;
      }
      pcs := pcs[client.id := Ready];
      assert Conns() == s.conns[client.id := ConnOf(client.id)] && ClientIds() == s.clients;
    }

    /** The call has failed; the request may still be on its way. The client changes nothing. */
    ghost method JoinFailed(client: WSClient)
      requires Valid() && Known(client) && client.id in live && (pcs[client.id].Joining? || pcs[client.id].JoinReplied?)
      modifies this`pcs, this`strays
      ensures Valid() && Abstract() == Next(old(Abstract()), JoinTimeout(client.id))
    {
      var pc := pcs[client.id];
      GoTo(client, Ready);
      var s := Abstract();
      strays := if pc.Joining? then strays + multiset{StrayJoin(pc.room, client.userID)} else strays;
      assert Conns() == s.conns && ClientIds() == s.clients;
    }

    /** A client without a login or without a room sends nothing. */
    method BeginLeave(client: WSClient) returns (sent: bool)
      requires Valid() && Known(client) && client.id in live && pcs[client.id] == Ready
      modifies this`pcs
      ensures Valid() && sent == (client.userID != 0 && client.currentRoom != "")
      ensures Abstract() == if sent then Next(old(Abstract()), SendLeave(client.id)) else old(Abstract())
    {
      if client.userID == 0 || client.currentRoom == "" {
        return false;
      }
      GoTo(client, Leaving(client.currentRoom));
      sent := true;
    }

    /** A room always answers a leave with OK. */
    method LeaveAnswered(client: WSClient)
      requires Valid() && Known(client) && client.id in live && pcs[client.id].LeaveReplied?
      modifies this`pcs, client`currentRoom
      ensures Valid() && Abstract() == Next(old(Abstract()), LeaveAnswer(client.id))
      ensures client.currentRoom == ""
    {
      ghost var s := Abstract();
      client.currentRoom := "";
      pcs := pcs[client.id := Ready];
      assert Conns() == s.conns[client.id := ConnOf(client.id)] && ClientIds() == s.clients;
    }

    /** Without an answer the client keeps its room. */
    ghost method LeaveFailed(client: WSClient)
      requires Valid() && Known(client) && client.id in live &&
          (pcs[client.id].Leaving? || pcs[client.id].LeaveReplied?)
      modifies this`pcs, this`strays
      ensures Valid() && Abstract() == Next(old(Abstract()), LeaveTimeout(client.id))
    {
      var pc := pcs[client.id];
      GoTo(client, Ready);
      var s := Abstract();
      strays := if pc.Leaving? then strays + multiset{StrayLeave(pc.room, client.userID)} else strays;
      assert Conns() == s.conns && ClientIds() == s.clients;
    }

    /** The connection is gone. */
    ghost method Die(client: WSClient)
      requires Valid() && Known(client)
      modifies this`live
      ensures Valid() && live == old(live) - {client.id}
      ensures var s := old(Abstract()); Abstract() == Put(s, client.id, s.conns[client.id].(live := false))
    {
      var s := Abstract();
      live := live - {client.id};
      assert Conns() == s.conns[client.id := s.conns[client.id].(live := false)] && ClientIds() == s.clients;
    }

    /** `delete(clients, client.userID)` */
    method Drop(client: WSClient)
      requires Valid() && Known(client)
      modifies this`clients
      ensures Valid() && Abstract() == old(Abstract()).(clients := old(Abstract()).clients - {client.userID})
      ensures clients == old(clients) - {client.userID}
    {
      ghost var s := Abstract();
      clients := clients - {client.userID};
      assert Conns() == s.conns && ClientIds() == s.clients - {client.userID};
    }

    /** Whoever is stored under the user is dropped, be it another connection. The client keeps its user
        and its room. */
    method UnregisterClient(client: WSClient, ghost closing: bool)
      requires Valid() && Known(client) && client.id in live && pcs[client.id] == Ready
      requires closing || client.userID != 0
      modifies this`clients, this`live
      ensures Valid()
      ensures Abstract() == Next(old(Abstract()), if closing then Disconnect(client.id) else Logout(client.id))
      ensures clients == if client.userID != 0 then old(clients) - {client.userID} else old(clients)
      ensures closing ==> client.id !in live
    {
      if closing {
        Die(client);
      }
      if client.userID == 0 {
        return;
      }
      Drop(client);
    }
  }
}
