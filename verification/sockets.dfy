/** The socket.io room registry as the handlers see it: a map from room name to
    member sockets, and the two ways of addressing a room — `socket.to(room)`,
    which leaves the sender out, and `io.to(room)`, which does not. */
module Rooms {
  import opened Common
  import opened EmergencyModel

  type Room = string
  type Sock = string
  type Registry = map<Room, set<Sock>>

  /** The sockets in a room; a room nobody joined is empty. */
  function Members(reg: Registry, room: Room): set<Sock> {
    if room in reg then reg[room] else {}
  }

  /** `socket.join(room)`. */
  function Join(reg: Registry, room: Room, s: Sock): (r: Registry)
    ensures Members(r, room) == Members(reg, room) + {s}
    ensures forall other :: other != room ==> Members(r, other) == Members(reg, other)
  {
    reg[room := Members(reg, room) + {s}]
  }

  /** What socket.io does when a socket disconnects: it leaves every room it
      had joined, and a room left empty no longer exists. */
  function LeaveAll(reg: Registry, s: Sock): (r: Registry)
    ensures forall room :: Members(r, room) == Members(reg, room) - {s}
    ensures forall room :: room in r ==> s !in r[room] && r[room] != {}
  {
    map room | room in reg && reg[room] - {s} != {} :: reg[room] - {s}
  }

  /** What an outbound event carries. */
  datatype Payload =
    | UserJoined(socketId: Sock, timestamp: string)
    | ChatMessage(fields: map<string, string>)
    | UserTyping(userId: string, userName: string)
    | UserStoppedTyping(userId: string)
    | MessageRead(messageId: string, readBy: string, timestamp: string)
    | NewFile(fields: map<string, string>)
    | StatusChanged(status: string, updatedBy: string, timestamp: string)
    | LguAssigned(lguCode: string, lguName: string, timestamp: string)
    | IncidentAssigned(incidentId: string, timestamp: string)
    | OnlineUsers(incidentId: string, count: nat)
    | Record(emergency: Emergency)

  /** An `emit`: to a room (leaving out `except` when addressed through
      `socket.to`) or straight back to one socket. */
  datatype Emission =
    | ToRoom(room: Room, except: Option<Sock>, event: string, payload: Payload)
    | ToSocket(target: Sock, event: string, payload: Payload)

  datatype Delivery = Delivery(target: Sock, event: string, payload: Payload)

  function Targets(reg: Registry, em: Emission): set<Sock> {
    match em
    case ToRoom(room, except, _, _) => Members(reg, room) - (if except.Some? then {except.value} else {})
    case ToSocket(t, _, _) => {t}
  }

  /** Every delivery the emissions cause against the registry. */
  function Deliveries(reg: Registry, ems: seq<Emission>): set<Delivery> {
    set k, t | 0 <= k < |ems| && t in Targets(reg, ems[k]) :: Delivery(t, ems[k].event, ems[k].payload)
  }

  /** A room emit reaches each member of the room, bar the excluded sender,
      once, with the event and payload as emitted; an emit to one socket
      reaches that socket alone. */
  lemma SingleEmission(reg: Registry, em: Emission)
    ensures em.ToRoom? ==>
      Deliveries(reg, [em]) == set t | t in Members(reg, em.room) && Some(t) != em.except :: Delivery(t, em.event, em.payload)
    ensures em.ToSocket? ==> Deliveries(reg, [em]) == {Delivery(em.target, em.event, em.payload)}
  {
    if em.ToRoom? {
      forall t | t in Members(reg, em.room) && Some(t) != em.except
        ensures Delivery(t, em.event, em.payload) in Deliveries(reg, [em])
      {
        assert t in Targets(reg, [em][0]);
      }
    } else {
      assert em.target in Targets(reg, [em][0]);
    }
  }

  /** The deliveries of a run of emits are those of its parts together. */
  lemma DeliveriesAppend(reg: Registry, a: seq<Emission>, b: seq<Emission>)
    ensures Deliveries(reg, a + b) == Deliveries(reg, a) + Deliveries(reg, b)
  {
    var ab := a + b;
    forall d | d in Deliveries(reg, a) ensures d in Deliveries(reg, ab) {
      var k, t :| 0 <= k < |a| && t in Targets(reg, a[k]) && d == Delivery(t, a[k].event, a[k].payload);
      assert ab[k] == a[k];
    }
    forall d | d in Deliveries(reg, b) ensures d in Deliveries(reg, ab) {
      var k, t :| 0 <= k < |b| && t in Targets(reg, b[k]) && d == Delivery(t, b[k].event, b[k].payload);
      assert ab[|a| + k] == b[k];
    }
    forall d | d in Deliveries(reg, ab) ensures d in Deliveries(reg, a) + Deliveries(reg, b) {
      var k, t :| 0 <= k < |ab| && t in Targets(reg, ab[k]) && d == Delivery(t, ab[k].event, ab[k].payload);
      if k < |a| {
        assert ab[k] == a[k];
      } else {
        assert ab[k] == b[k - |a|];
      }
    }
  }

  /** `socket.to(room)` reaches every member but the sender; `io.to(room)` reaches every member. */
  lemma AddressingModes(reg: Registry, room: Room, sender: Sock, event: string, p: Payload)
    ensures Targets(reg, ToRoom(room, Some(sender), event, p)) == Members(reg, room) - {sender}
    ensures Targets(reg, ToRoom(room, None, event, p)) == Members(reg, room)
    ensures sender !in Targets(reg, ToRoom(room, Some(sender), event, p))
    ensures sender in Members(reg, room) ==> sender in Targets(reg, ToRoom(room, None, event, p))
  {
  }
}

/** The handlers registered by `initSocket` (lib/socket-server.ts). Incident
    rooms are named `incident_<id>`, LGU queues `lgu_<code>`. */
module SocketServer {
  import opened Common
  import opened Rooms

  function IncidentRoom(incidentId: string): Room {
    "incident_" + incidentId
  }

  function LguRoom(lguCode: string): Room {
    "lgu_" + lguCode
  }

  /** The events a client sends. */
  datatype Inbound =
    | JoinIncident(incidentId: string)
    | JoinLGU(lguCode: string)
    | SendMessage(incidentId: string, message: map<string, string>)
    | StartTyping(incidentId: string, userId: string, userName: string)
    | StopTyping(incidentId: string, userId: string)
    | MarkAsRead(incidentId: string, messageId: string, userId: string)
    | FileUploaded(incidentId: string, file: map<string, string>)
    | StatusUpdate(incidentId: string, status: string, updatedBy: string)
    | AssignLGU(incidentId: string, lguCode: string, lguName: string)
    | GetOnlineUsers(incidentId: string)
    | Disconnect

  /** One handler run: the registry afterwards and the emits, in order.
      `now` is the server's ISO timestamp. */
  function Step(reg: Registry, sender: Sock, ev: Inbound, now: string): (out: (Registry, seq<Emission>))
    ensures !ev.JoinIncident? && !ev.JoinLGU? && !ev.Disconnect? ==> out.0 == reg
    ensures ev.Disconnect? ==> out.1 == [] && forall room :: Members(out.0, room) == Members(reg, room) - {sender}
  {
    match ev
    case JoinIncident(id) =>
      var reg' := Join(reg, IncidentRoom(id), sender);
      (reg', [ToRoom(IncidentRoom(id), Some(sender), "userJoined", UserJoined(sender, now))])
    case JoinLGU(code) =>
      (Join(reg, LguRoom(code), sender), [])
    case SendMessage(id, message) =>
      (reg, [ToRoom(IncidentRoom(id), None, "newMessage", ChatMessage(message["timestamp" := now]))])
    case StartTyping(id, userId, userName) =>
      (reg, [ToRoom(IncidentRoom(id), Some(sender), "userTyping", UserTyping(userId, userName))])
    case StopTyping(id, userId) =>
      (reg, [ToRoom(IncidentRoom(id), Some(sender), "userStoppedTyping", UserStoppedTyping(userId))])
    case MarkAsRead(id, messageId, userId) =>
      (reg, [ToRoom(IncidentRoom(id), None, "messageRead", MessageRead(messageId, userId, now))])
    case FileUploaded(id, file) =>
      (reg, [ToRoom(IncidentRoom(id), None, "newFile", NewFile(file["timestamp" := now]))])
    case StatusUpdate(id, status, updatedBy) =>
      (reg, [ToRoom(IncidentRoom(id), None, "incidentStatusChanged", StatusChanged(status, updatedBy, now))])
    case AssignLGU(id, code, name) =>
      (reg, [ToRoom(IncidentRoom(id), None, "lguAssigned", LguAssigned(code, name, now)),
             ToRoom(LguRoom(code), None, "newIncidentAssigned", IncidentAssigned(id, now))])
    case GetOnlineUsers(id) =>
      (reg, [ToSocket(sender, "onlineUsers", OnlineUsers(id, |Members(reg, IncidentRoom(id))|))])
    case Disconnect =>
      (LeaveAll(reg, sender), [])
  }

  /** The deliveries of one handler run, resolved against the registry it leaves. */
  function Delivered(reg: Registry, sender: Sock, ev: Inbound, now: string): set<Delivery> {
    var out := Step(reg, sender, ev, now);
    Deliveries(out.0, out.1)
  }

  /** `joinIncident`: the sender joins `incident_<id>` and every other member,
      and only they, hears `userJoined`. */
  lemma JoinIncidentNotifiesOthers(reg: Registry, sender: Sock, id: string, now: string, t: Sock)
    ensures Members(Step(reg, sender, JoinIncident(id), now).0, IncidentRoom(id)) == Members(reg, IncidentRoom(id)) + {sender}
    ensures Delivery(t, "userJoined", UserJoined(sender, now)) in Delivered(reg, sender, JoinIncident(id), now)
        <==> t in Members(reg, IncidentRoom(id)) && t != sender
    ensures |Step(reg, sender, JoinIncident(id), now).1| == 1
  {
    var out := Step(reg, sender, JoinIncident(id), now);
    assert Targets(out.0, out.1[0]) == Members(reg, IncidentRoom(id)) + {sender} - {sender};
  }

  /** `joinLGU` admits any socket to any LGU queue and emits nothing. */
  lemma JoinLguUnchecked(reg: Registry, sender: Sock, code: string, now: string)
    ensures sender in Members(Step(reg, sender, JoinLGU(code), now).0, "lgu_" + code)
    ensures Delivered(reg, sender, JoinLGU(code), now) == {}
  {
  }

  /** `sendMessage` reaches every member of the incident room, the sender
      included, and the server's timestamp replaces the client's. */
  lemma SendMessageReachesAll(reg: Registry, sender: Sock, id: string, msg: map<string, string>, now: string, t: Sock)
    ensures var d := Delivered(reg, sender, SendMessage(id, msg), now);
      (exists p :: Delivery(t, "newMessage", p) in d) <==> t in Members(reg, IncidentRoom(id))
    ensures forall d :: d in Delivered(reg, sender, SendMessage(id, msg), now) ==>
      d.payload.ChatMessage? && d.payload.fields["timestamp"] == now
      && (forall k :: k in msg && k != "timestamp" ==> k in d.payload.fields && d.payload.fields[k] == msg[k])
  {
    var p := ChatMessage(msg["timestamp" := now]);
    var out := Step(reg, sender, SendMessage(id, msg), now);
    if t in Members(reg, IncidentRoom(id)) {
      assert t in Targets(out.0, out.1[0]);
      assert Delivery(t, "newMessage", p) in Deliveries(out.0, out.1);
    }
  }

  /** Typing indicators reach the other members only. */
  lemma TypingExcludesSender(reg: Registry, sender: Sock, id: string, userId: string, userName: string, now: string)
    ensures forall d :: d in Delivered(reg, sender, StartTyping(id, userId, userName), now) ==>
      d.target != sender && d.target in Members(reg, IncidentRoom(id))
    ensures forall d :: d in Delivered(reg, sender, StopTyping(id, userId), now) ==>
      d.target != sender && d.target in Members(reg, IncidentRoom(id))
  {
  }

  /** Read receipts and file notices reach the whole incident room, the sender
      included, stamped with the server's time. */
  lemma ReceiptsReachWholeRoom(reg: Registry, sender: Sock, id: string, messageId: string, userId: string,
                               file: map<string, string>, now: string)
    ensures Delivered(reg, sender, MarkAsRead(id, messageId, userId), now)
         == set t | t in Members(reg, IncidentRoom(id)) :: Delivery(t, "messageRead", MessageRead(messageId, userId, now))
    ensures Delivered(reg, sender, FileUploaded(id, file), now)
         == set t | t in Members(reg, IncidentRoom(id)) :: Delivery(t, "newFile", NewFile(file["timestamp" := now]))
  {
    var read := Step(reg, sender, MarkAsRead(id, messageId, userId), now).1;
    var sent := Step(reg, sender, FileUploaded(id, file), now).1;
    forall t | t in Members(reg, IncidentRoom(id))
      ensures Delivery(t, "messageRead", MessageRead(messageId, userId, now)) in Deliveries(reg, read)
      ensures Delivery(t, "newFile", NewFile(file["timestamp" := now])) in Deliveries(reg, sent)
    {
      assert t in Targets(reg, read[0]) && t in Targets(reg, sent[0]);
    }
  }

  /** `statusUpdate` relays whatever status it is given, to the whole room,
      and touches nothing else. */
  lemma StatusRelayedUnchecked(reg: Registry, sender: Sock, id: string, status: string, updater: string, now: string, t: Sock)
    requires t in Members(reg, IncidentRoom(id))
    ensures Delivery(t, "incidentStatusChanged", StatusChanged(status, updater, now)) in Delivered(reg, sender, StatusUpdate(id, status, updater), now)
    ensures Step(reg, sender, StatusUpdate(id, status, updater), now).0 == reg
  {
    var out := Step(reg, sender, StatusUpdate(id, status, updater), now);
    assert t in Targets(out.0, out.1[0]);
  }

  /** `assignLGU` emits exactly two events: one to the incident room, one to the LGU queue. */
  lemma AssignLguTwoEvents(reg: Registry, sender: Sock, id: string, code: string, name: string, now: string)
    ensures var ems := Step(reg, sender, AssignLGU(id, code, name), now).1;
      && |ems| == 2
      && ems[0].ToRoom? && ems[0].room == IncidentRoom(id) && ems[0].event == "lguAssigned"
      && ems[1].ToRoom? && ems[1].room == LguRoom(code) && ems[1].event == "newIncidentAssigned"
      && ems[0].except.None? && ems[1].except.None?
  {
  }

  /** `getOnlineUsers` answers the requester alone, with the room's size or 0. */
  lemma OnlineUsersToRequesterOnly(reg: Registry, sender: Sock, id: string, now: string)
    ensures Delivered(reg, sender, GetOnlineUsers(id), now)
         == {Delivery(sender, "onlineUsers", OnlineUsers(id, if IncidentRoom(id) in reg then |reg[IncidentRoom(id)]| else 0))}
  {
    var out := Step(reg, sender, GetOnlineUsers(id), now);
    assert Targets(out.0, out.1[0]) == {sender};
  }

  /** After a socket disconnects, `getOnlineUsers` no longer counts it. */
  lemma DisconnectedNotCounted(reg: Registry, gone: Sock, asker: Sock, id: string, now: string)
    ensures var after := Step(reg, gone, Disconnect, now).0;
      Delivered(after, asker, GetOnlineUsers(id), now)
        == {Delivery(asker, "onlineUsers", OnlineUsers(id, |Members(reg, IncidentRoom(id)) - {gone}|))}
  {
    var after := Step(reg, gone, Disconnect, now).0;
    SingleEmission(after, Step(after, asker, GetOnlineUsers(id), now).1[0]);
  }

  /** A socket that joins incident `1` and disconnects leaves the room empty:
      a later `getOnlineUsers("1")` reports 0. */
  lemma JoinThenDisconnectCountsZero(a: Sock, b: Sock, now: string)
    ensures var joined := Step(map[], a, JoinIncident("1"), now).0;
      var left := Step(joined, a, Disconnect, now).0;
      Delivered(left, b, GetOnlineUsers("1"), now) == {Delivery(b, "onlineUsers", OnlineUsers("1", 0))}
  {
    var joined := Step(map[], a, JoinIncident("1"), now).0;
    DisconnectedNotCounted(joined, a, b, "1", now);
    assert Members(joined, IncidentRoom("1")) - {a} == {};
  }

  /** The HTTP server object, which may carry the socket.io server once attached. */
  datatype HttpServer = HttpServer(io: Option<nat>)

  /** `initSocket`: attach a new server (numbered `newId`) only if none is attached;
      returns the server afterwards, the instance, and whether one was built. */
  function InitSocket(srv: HttpServer, newId: nat): (out: (HttpServer, nat, bool))
    ensures out.0.io == Some(out.1)
    ensures out.2 <==> srv.io.None?
    ensures srv.io.Some? ==> out.0 == srv && out.1 == srv.io.value
  {
    if srv.io.None? then (HttpServer(Some(newId)), newId, true) else (srv, srv.io.value, false)
  }

  /** A run of `initSocket` calls: the instances returned and how many were built. */
  function InitMany(srv: HttpServer, newIds: seq<nat>): (out: (HttpServer, seq<nat>, nat))
    ensures |out.1| == |newIds|
    decreases |newIds|
  {
    if |newIds| == 0 then (srv, [], 0)
    else
      var first := InitSocket(srv, newIds[0]);
      var rest := InitMany(first.0, newIds[1..]);
      (rest.0, [first.1] + rest.1, (if first.2 then 1 else 0) + rest.2)
  }

  /** However many times `initSocket` runs, at most one server is built and
      every call returns the same instance. */
  lemma {:induction false} InitSocketIdempotent(srv: HttpServer, newIds: seq<nat>)
    ensures var out := InitMany(srv, newIds);
      && out.2 <= 1
      && (srv.io.Some? ==> out.2 == 0)
      && (forall i, j :: 0 <= i < j < |out.1| ==> out.1[i] == out.1[j])
      && (|newIds| > 0 ==> out.0.io == Some(out.1[0]))
      && (srv.io.Some? ==> forall i :: 0 <= i < |out.1| ==> out.1[i] == srv.io.value)
    decreases |newIds|
  {
    if |newIds| > 0 {
      var first := InitSocket(srv, newIds[0]);
      InitSocketIdempotent(first.0, newIds[1..]);
      var rest := InitMany(first.0, newIds[1..]);
      var all := [first.1] + rest.1;
      assert forall i :: 0 <= i < |rest.1| ==> rest.1[i] == first.1;
      assert forall i :: 0 < i < |all| ==> all[i] == rest.1[i - 1];
      if |newIds| > 1 {
        assert rest.0.io == Some(rest.1[0]);
      }
    }
  }
}

/** The custom server's handlers (server.js): incident rooms are the bare id,
    messages pass through untouched, and status updates are written to the
    store before they are broadcast. */
module LegacySocketServer {
  import opened Common
  import opened Rooms
  import opened EmergencyModel
  import SocketServer

  function IncidentRoom(incidentId: string): Room {
    incidentId
  }

  function LguRoom(lguCode: string): Room {
    "lgu_" + lguCode
  }

  datatype Inbound =
    | JoinIncident(incidentId: string)
    | JoinLGU(lguCode: string)
    | SendMessage(incidentId: string, message: map<string, string>)
    | UpdateEmergencyStatus(emergencyId: string, status: string)
    | Disconnect

  /** One handler run over the registry and the incident store. `storeFails`
      is the store throwing (for instance on an id that is not an ObjectId);
      `now` is the update's timestamp. */
  function Step(reg: Registry, store: seq<Emergency>, sender: Sock, ev: Inbound, now: int, storeFails: bool)
    : (out: (Registry, seq<Emergency>, seq<Emission>))
    ensures !ev.UpdateEmergencyStatus? ==> out.1 == store
    ensures !ev.JoinIncident? && !ev.JoinLGU? && !ev.Disconnect? ==> out.0 == reg
    ensures ev.Disconnect? ==> out.2 == [] && forall room :: Members(out.0, room) == Members(reg, room) - {sender}
  {
    match ev
    case JoinIncident(id) => (Join(reg, IncidentRoom(id), sender), store, [])
    case JoinLGU(code) => (Join(reg, LguRoom(code), sender), store, [])
    case SendMessage(id, message) => (reg, store, [ToRoom(IncidentRoom(id), None, "newMessage", ChatMessage(message))])
    case UpdateEmergencyStatus(id, status) =>
      var upd := UpdateStatus(store, id, status, now, storeFails);
      (reg, upd.0, upd.1)
    case Disconnect => (LeaveAll(reg, sender), store, [])
  }

  /** `findByIdAndUpdate(id, {status}, {new: true})` with no validation,
      then the two broadcasts of the updated record. */
  function UpdateStatus(store: seq<Emergency>, id: string, status: string, now: int, storeFails: bool)
    : (out: (seq<Emergency>, seq<Emission>))
    ensures storeFails ==> out == (store, [])
    ensures !storeFails && FindById(store, id).None? ==> out == (store, [])
    ensures !storeFails && FindById(store, id).Some? ==>
      var i := FindById(store, id).value;
      var updated := store[i].(status := status, updatedAt := now);
      && out.0 == store[i := updated]
      && out.1 == [ToRoom(IncidentRoom(id), None, "statusUpdated", Record(updated)),
                   ToRoom(LguRoom(updated.lguCode), None, "emergencyQueueUpdated", Record(updated))]
  {
    if storeFails then (store, [])
    else
      match FindById(store, id)
      case None => (store, [])
      case Some(i) =>
        var updated := store[i].(status := status, updatedAt := now);
        (store[i := updated],
         [ToRoom(IncidentRoom(id), None, "statusUpdated", Record(updated)),
          ToRoom(LguRoom(updated.lguCode), None, "emergencyQueueUpdated", Record(updated))])
  }

  /** Any status text is stored, whatever the record held before: there is no
      transition check, and a status outside the enumeration is written too.
      What is broadcast is exactly what was stored. */
  lemma StoreThenBroadcast(store: seq<Emergency>, id: string, status: string, now: int)
    requires FindById(store, id).Some?
    ensures var i := FindById(store, id).value;
      var out := UpdateStatus(store, id, status, now, false);
      && out.0[i].status == status
      && (forall k :: 0 <= k < |out.1| ==> out.1[k].payload == Record(out.0[i]))
      && (ParseStatus(status).None? ==> !WellFormed(out.0[i]))
  {
  }

  /** Nothing is broadcast unless the update found a record. */
  lemma NoRecordNoBroadcast(reg: Registry, store: seq<Emergency>, sender: Sock, id: string, status: string, now: int, storeFails: bool)
    ensures var out := Step(reg, store, sender, UpdateEmergencyStatus(id, status), now, storeFails);
      (storeFails || FindById(store, id).None?) ==> out.2 == [] && out.1 == store
  {
  }

  /** `sendMessage` passes the client's message on unchanged, to every member, the sender included. */
  lemma MessagePassesThrough(reg: Registry, store: seq<Emergency>, sender: Sock, id: string, msg: map<string, string>, now: int)
    ensures Deliveries(reg, Step(reg, store, sender, SendMessage(id, msg), now, false).2)
         == set t | t in Members(reg, id) :: Delivery(t, "newMessage", ChatMessage(msg))
  {
    var ems := Step(reg, store, sender, SendMessage(id, msg), now, false).2;
    assert Targets(reg, ems[0]) == Members(reg, id);
    forall t | t in Members(reg, id)
      ensures Delivery(t, "newMessage", ChatMessage(msg)) in Deliveries(reg, ems)
    {
      assert t in Targets(reg, ems[0]);
    }
  }

  /** The two servers address an incident through different rooms: no id names
      the same room in both. */
  lemma RoomNamesDiffer(id: string)
    ensures SocketServer.IncidentRoom(id) != IncidentRoom(id)
  {
    assert |SocketServer.IncidentRoom(id)| == |id| + 9;
  }
}
