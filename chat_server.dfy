/** The three Socket.IO handlers of the backend: room membership kept as a map from room name
    to the session ids in it, and every emission recorded with the sessions it reaches. */
module ChatServer {
  import opened Js
  import opened ChatProtocol

  /** A Socket.IO session id. */
  type Sid = string

  /** What an emission carries: a system notice, or a client's chat payload forwarded as it came. */
  datatype ServerPayload = Notice(name: string, message: string) | Forward(data: ChatMessage)

  /** One `emit(event, payload, room=...)`: the sessions it reaches are the room's members at that moment. */
  datatype Emission = Emission(event: string, payload: ServerPayload, to: set<Sid>)

  /** `if not room`: a missing or empty room name. */
  predicate RoomGiven(room: Option<string>) {
    Truthy(room)
  }

  /** `data.get("name", "Guest")`. */
  function NameOrGuest(name: Option<string>): (n: string)
    ensures name.Some? ==> n == name.value
    ensures name.None? ==> n == "Guest"
  {
    name.GetOr("Guest")
  }

  /** Whether an emission follows the protocol: only forwarded chat payloads use the `message` event. */
  predicate WellTagged(e: Emission) {
    e.event == "message" <==> e.payload.Forward?
  }

  /** What a session's `message` handler receives from a run of emissions, in order. */
  function Inbox(sent: seq<Emission>, sid: Sid): seq<ServerPayload> {
    if sent == [] then []
    else (if sent[0].event == "message" && sid in sent[0].to then [sent[0].payload] else []) + Inbox(sent[1..], sid)
  }

  lemma {:induction false} InboxAppend(a: seq<Emission>, b: seq<Emission>, sid: Sid)
    ensures Inbox(a + b, sid) == Inbox(a, sid) + Inbox(b, sid)
  {
    if a != [] {
      assert (a + b)[1..] == a[1..] + b;
      InboxAppend(a[1..], b, sid);
    } else {
      assert a + b == b;
    }
  }

  /** When every emission is well tagged, a `message` handler only ever receives forwarded chat
      payloads: system notices never reach a transcript. */
  lemma {:induction false} InboxOnlyChat(sent: seq<Emission>, sid: Sid)
    requires forall i :: 0 <= i < |sent| ==> WellTagged(sent[i])
    ensures forall j :: 0 <= j < |Inbox(sent, sid)| ==> Inbox(sent, sid)[j].Forward?
  {
    if sent != [] {
      assert WellTagged(sent[0]);
      InboxOnlyChat(sent[1..], sid);
    }
  }

  class SocketServer {
    var rooms: map<string, set<Sid>>
    /** Every emission, oldest first. */
    var sent: seq<Emission>

    /** The members of room `r`. */
    function Members(r: string): set<Sid>
      reads this
    {
      if r in rooms then rooms[r] else {}
    }

    ghost predicate Valid()
      reads this
    {
      && (forall r :: r in rooms ==> r != "")
      && (forall i :: 0 <= i < |sent| ==> WellTagged(sent[i]))
    }

    constructor ()
      ensures Valid() && rooms == map[] && sent == []
    {
      rooms := map[];
      sent := [];
    }

    /** `handle_join_room`: with a room name, adds the session to it and sends
        "<name> joined." from "System" on `joinRoom` to the room, the joiner included. */
    method HandleJoinRoom(sid: Sid, data: RoomRequest)
      requires Valid()
      modifies this
      ensures Valid()
      ensures !RoomGiven(data.room) ==> rooms == old(rooms) && sent == old(sent)
      ensures RoomGiven(data.room) ==>
        var r := data.room.value;
        && rooms == old(rooms)[r := old(Members(r)) + {sid}]
        && sent == old(sent) + [Emission("joinRoom", Notice("System", NameOrGuest(data.name) + " joined."), Members(r))]
      ensures forall r :: (data.room != Some(r)) ==> Members(r) == old(Members(r))
      ensures forall s :: Inbox(sent, s) == Inbox(old(sent), s)
    {
      if RoomGiven(data.room) {
        var r := data.room.value;
        var joined := Members(r) + {sid};
        rooms := rooms[r := joined];
        var e := Emission("joinRoom", Notice("System", NameOrGuest(data.name) + " joined."), joined);
        Emit(e);
      }
    }

    /** `handle_leave_room`: with a room name, removes the session from it first and then sends
        "<name> left." on `leftRoom` to the members that remain. */
    method HandleLeaveRoom(sid: Sid, data: RoomRequest)
      requires Valid()
      modifies this
      ensures Valid()
      ensures !RoomGiven(data.room) ==> rooms == old(rooms) && sent == old(sent)
      ensures RoomGiven(data.room) ==>
        var r := data.room.value;
        && rooms == old(rooms)[r := old(Members(r)) - {sid}]
        && sent == old(sent) + [Emission("leftRoom", Notice("System", NameOrGuest(data.name) + " left."), Members(r))]
        && sid !in Members(r)
      ensures forall r :: (data.room != Some(r)) ==> Members(r) == old(Members(r))
      ensures forall s :: Inbox(sent, s) == Inbox(old(sent), s)
    {
      if RoomGiven(data.room) {
        var r := data.room.value;
        var remaining := Members(r) - {sid};
        rooms := rooms[r := remaining];
        var e := Emission("leftRoom", Notice("System", NameOrGuest(data.name) + " left."), remaining);
        Emit(e);
      }
    }

    /** `handle_send_message`: with a room name, forwards the payload unchanged on `message`
        to every current member of that room; membership is untouched. */
    method HandleSendMessage(data: ChatMessage)
      requires Valid()
      modifies this
      ensures Valid()
      ensures rooms == old(rooms)
      ensures !RoomGiven(data.room) ==> sent == old(sent)
      ensures RoomGiven(data.room) ==>
        sent == old(sent) + [Emission("message", Forward(data), Members(data.room.value))]
      ensures forall s :: (Inbox(sent, s) ==
        Inbox(old(sent), s) + (if RoomGiven(data.room) && s in Members(data.room.value) then [Forward(data)] else []))
    {
      if RoomGiven(data.room) {
        Emit(Emission("message", Forward(data), Members(data.room.value)));
      }
    }

    /** Records one emission. */
    method Emit(e: Emission)
      requires Valid() && WellTagged(e)
      modifies this`sent
      ensures Valid()
      ensures sent == old(sent) + [e]
      ensures forall s :: (Inbox(sent, s) ==
        Inbox(old(sent), s) + (if e.event == "message" && s in e.to then [e.payload] else []))
    {
      ghost var before := sent;
      sent := sent + [e];
      forall s ensures Inbox(sent, s) ==
        Inbox(before, s) + (if e.event == "message" && s in e.to then [e.payload] else [])
      {
        InboxAppend(before, [e], s);
      }
    }
  }

  /** A session that has joined a room and then sends to it gets its own message back on
      `message`, so the sending client, which already appended it, shows it twice. */
  method SenderIsEchoed(sid: Sid, name: Option<string>, m: ChatMessage)
    requires RoomGiven(m.room)
  {
    var server := new SocketServer();
    server.HandleJoinRoom(sid, RoomRequest(m.room, name));
    assert sid in server.Members(m.room.value);
    server.HandleSendMessage(m);
    assert Inbox(server.sent, sid) == [Forward(m)];
  }
}
