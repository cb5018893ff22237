/** The consultation chat view (`DoctorChat`): the selected counterpart, the transcript, the
    compose box and the video toggle, together with every event the view emits on the shared
    socket, in emission order. */
module ChatClient {
  import opened Js
  import opened ChatProtocol

  /** A selectable profile. Only `_id` drives the chat; the name is display data. */
  datatype Counterpart = Counterpart(id: Option<string>, name: Option<string>)

  /** The fields of the `medgenai` session cookie the view reads. */
  datatype Session = Session(firstName: Option<string>, name: Option<string>, email: Option<string>)

  /** An event emitted on the socket. */
  datatype ClientEmit =
    | JoinRoom(request: RoomRequest)
    | LeaveRoom(request: RoomRequest)
    | SendMessage(data: ChatMessage)

  /** How a transcript entry is rendered. */
  datatype MessageClass = Sent | Received

  /** `firstName || name`. */
  function CurrentUser(s: Session): (u: Option<string>)
    ensures Truthy(s.firstName) ==> u == s.firstName
    ensures !Truthy(s.firstName) ==> u == s.name
  {
    Or(s.firstName, s.name)
  }

  /** A transcript entry is rendered as 'sent' exactly when its sender string equals the current user. */
  function Classify(m: ChatMessage, me: Option<string>): (c: MessageClass)
    ensures c == Sent <==> m.sender == me
  {
    if m.sender == me then Sent else Received
  }

  /** The room the view is bound to: the counterpart's `_id` when it is truthy. */
  function RoomOf(p: Option<Counterpart>): (r: Option<string>)
    ensures r.Some? <==> p.Some? && Truthy(p.value.id)
    ensures r.Some? ==> r == p.value.id && r.value != ""
  {
    if p.Some? && Truthy(p.value.id) then p.value.id else None
  }

  /** `chatDoctor?._id`, taken as it is, for the `room` field of a chat record. */
  function RoomField(p: Option<Counterpart>): Option<string> {
    if p.Some? then p.value.id else None
  }

  /** What the room effect emits when it starts for `p`. */
  function JoinEmits(p: Option<Counterpart>, me: Option<string>): (e: seq<ClientEmit>)
    ensures forall r :: NetJoins(e, r) == if RoomOf(p) == Some(r) then 1 else 0
  {
    if RoomOf(p).Some? then [JoinRoom(RoomRequest(RoomOf(p), me))] else []
  }

  /** What the room effect's cleanup emits when it ends for `p`. */
  function LeaveEmits(p: Option<Counterpart>, me: Option<string>): (e: seq<ClientEmit>)
    ensures forall r :: NetJoins(e, r) == if RoomOf(p) == Some(r) then -1 else 0
  {
    if RoomOf(p).Some? then [LeaveRoom(RoomRequest(RoomOf(p), me))] else []
  }

  /** The chat record `sendMessage` builds from the compose text, untrimmed. */
  function Compose(p: Option<Counterpart>, s: Session, text: string, time: string): ChatMessage {
    ChatMessage(RoomField(p), CurrentUser(s), s.email, text, time)
  }

  /** How much an event changes the client's membership of room `r`. */
  function Delta(e: ClientEmit, r: string): int {
    match e
    case JoinRoom(q) => if q.room == Some(r) then 1 else 0
    case LeaveRoom(q) => if q.room == Some(r) then -1 else 0
    case SendMessage(_) => 0
  }

  /** Joins of `r` minus leaves of `r` over an event sequence. */
  function NetJoins(events: seq<ClientEmit>, r: string): int {
    if events == [] then 0 else Delta(events[0], r) + NetJoins(events[1..], r)
  }

  lemma {:induction false} NetJoinsAppend(a: seq<ClientEmit>, b: seq<ClientEmit>, r: string)
    ensures NetJoins(a + b, r) == NetJoins(a, r) + NetJoins(b, r)
  {
    if a != [] {
      assert (a + b)[1..] == a[1..] + b;
      NetJoinsAppend(a[1..], b, r);
    } else {
      assert a + b == b;
    }
  }

  /** Over one effect cleanup followed by the next effect start, membership moves from the old room to the new one. */
  lemma RoomSwitchBalance(before: Option<Counterpart>, after: Option<Counterpart>, me: Option<string>, r: string)
    ensures NetJoins(LeaveEmits(before, me) + JoinEmits(after, me), r)
         == (if RoomOf(after) == Some(r) then 1 else 0) - (if RoomOf(before) == Some(r) then 1 else 0)
  {
    NetJoinsAppend(LeaveEmits(before, me), JoinEmits(after, me), r);
  }

  /** Whose side a message is drawn on depends on the display names alone: a message composed in
      any session is shown as 'sent' in another exactly when the two sessions' names agree, so two
      users who share a name see each other's messages as their own. */
  lemma SideIsByName(mine: Session, theirs: Session, text: string, time: string, p: Option<Counterpart>)
    ensures Classify(Compose(p, theirs, text, time), CurrentUser(mine)) == Sent
        <==> CurrentUser(theirs) == CurrentUser(mine)
  {
  }

  class DoctorChat {
    const session: Session
    var chatDoctor: Option<Counterpart>
    var messages: seq<ChatMessage>
    var newMessage: string
    var showVideoCall: bool
    var mounted: bool
    /** Every event emitted on the socket by this view, oldest first. */
    var emitted: seq<ClientEmit>

    /** While mounted the view is a member of exactly the room of the selected counterpart,
        and of no room once unmounted. */
    ghost predicate Valid()
      reads this
    {
      forall r :: NetJoins(emitted, r) == (if mounted && RoomOf(chatDoctor) == Some(r) then 1 else 0)
    }

    /** Mounting: state is initialised and the room effect runs once for the routed profile. */
    constructor (session: Session, profile: Option<Counterpart>)
      ensures Valid() && mounted
      ensures this.session == session && chatDoctor == profile
      ensures messages == [] && newMessage == "" && !showVideoCall
      ensures emitted == JoinEmits(profile, CurrentUser(session))
    {
      this.session := session;
      chatDoctor := profile;
      messages := [];
      newMessage := "";
      showVideoCall := false;
      mounted := true;
      emitted := JoinEmits(profile, CurrentUser(session));
      new;
      forall r ensures NetJoins(emitted, r) == (if mounted && RoomOf(chatDoctor) == Some(r) then 1 else 0) {
        NetJoinsAppend([], emitted, r);
        RoomSwitchBalance(None, profile, CurrentUser(session), r);
        assert LeaveEmits(None, CurrentUser(session)) + emitted == emitted;
      }
    }

    /** Clicking a profile. When it differs from the selection, the old effect's cleanup emits
        `leave_room` for the old room and the new effect emits `join_room` for the new one. The
        transcript is kept as it is. */
    method Select(prof: Counterpart)
      requires Valid() && mounted
      modifies this
      ensures Valid() && mounted
      ensures chatDoctor == Some(prof)
      ensures emitted == old(emitted) +
        (if old(chatDoctor) == Some(prof) then []
         else LeaveEmits(old(chatDoctor), CurrentUser(session)) + JoinEmits(Some(prof), CurrentUser(session)))
      ensures messages == old(messages) && newMessage == old(newMessage) && showVideoCall == old(showVideoCall)
    {
      if chatDoctor != Some(prof) {
        var me := CurrentUser(session);
        var step := LeaveEmits(chatDoctor, me) + JoinEmits(Some(prof), me);
        ghost var before := emitted;
        ghost var was := chatDoctor;
        emitted := emitted + step;
        chatDoctor := Some(prof);
        forall r ensures NetJoins(emitted, r) == (if mounted && RoomOf(chatDoctor) == Some(r) then 1 else 0) {
          NetJoinsAppend(before, step, r);
          RoomSwitchBalance(was, Some(prof), me, r);
        }
      }
    }

    /** Typing in the compose box. */
    method Type(text: string)
      requires Valid()
      modifies this
      ensures Valid()
      ensures newMessage == text
      ensures chatDoctor == old(chatDoctor) && messages == old(messages) && emitted == old(emitted)
      ensures showVideoCall == old(showVideoCall) && mounted == old(mounted)
    {
      newMessage := text;
    }

    /** `sendMessage`: a blank compose text does nothing; otherwise the untrimmed text is emitted
        as one `send_message` record, the same record is appended to the transcript, and the
        compose box is cleared. `time` is the clock reading `toLocaleTimeString` would give. */
    method Send(time: string)
      requires Valid()
      modifies this
      ensures Valid()
      ensures IsBlank(old(newMessage)) ==>
        emitted == old(emitted) && messages == old(messages) && newMessage == old(newMessage)
      ensures !IsBlank(old(newMessage)) ==>
        var m := Compose(old(chatDoctor), session, old(newMessage), time);
        emitted == old(emitted) + [SendMessage(m)] && messages == old(messages) + [m] && newMessage == ""
      ensures chatDoctor == old(chatDoctor) && showVideoCall == old(showVideoCall) && mounted == old(mounted)
    {
      if !IsBlank(newMessage) {
        var m := Compose(chatDoctor, session, newMessage, time);
        ghost var before := emitted;
        emitted := emitted + [SendMessage(m)];
        messages := messages + [m];
        newMessage := "";
        forall r ensures NetJoins(emitted, r) == NetJoins(before, r) {
          NetJoinsAppend(before, [SendMessage(m)], r);
        }
      }
    }

    /** An inbound `message` payload: appended as it is, whatever its room, while the handler is registered. */
    method Receive(m: ChatMessage)
      requires Valid()
      modifies this
      ensures Valid()
      ensures messages == if old(mounted) then old(messages) + [m] else old(messages)
      ensures chatDoctor == old(chatDoctor) && newMessage == old(newMessage) && emitted == old(emitted)
      ensures showVideoCall == old(showVideoCall) && mounted == old(mounted)
    {
      if mounted {
        messages := messages + [m];
      }
    }

    /** The video icon flips `showVideoCall` and nothing else. */
    method ToggleVideo()
      requires Valid()
      modifies this
      ensures Valid()
      ensures showVideoCall == !old(showVideoCall)
      ensures chatDoctor == old(chatDoctor) && messages == old(messages) && newMessage == old(newMessage)
      ensures emitted == old(emitted) && mounted == old(mounted)
    {
      showVideoCall := !showVideoCall;
    }

    /** Unmounting: the last cleanup removes the handler and emits `leave_room` for the current room. */
    method Unmount()
      requires Valid() && mounted
      modifies this
      ensures Valid() && !mounted
      ensures emitted == old(emitted) + LeaveEmits(old(chatDoctor), CurrentUser(session))
      ensures chatDoctor == old(chatDoctor) && messages == old(messages) && newMessage == old(newMessage)
      ensures showVideoCall == old(showVideoCall)
    {
      var me := CurrentUser(session);
      ghost var before := emitted;
      emitted := emitted + LeaveEmits(chatDoctor, me);
      mounted := false;
      forall r ensures NetJoins(emitted, r) == (if mounted && RoomOf(chatDoctor) == Some(r) then 1 else 0) {
        NetJoinsAppend(before, LeaveEmits(chatDoctor, me), r);
        NetJoinsAppend(LeaveEmits(chatDoctor, me), [], r);
        RoomSwitchBalance(chatDoctor, None, me, r);
        assert LeaveEmits(chatDoctor, me) + JoinEmits(None, me) == LeaveEmits(chatDoctor, me);
      }
    }
  }

  /** Selecting A, then B, then A again: leave/join pairs in order, and the transcript is carried
      across the switches rather than cleared. */
  method SwitchBackScenario(me: Session, a: string, b: string, time: string)
    requires a != "" && b != "" && a != b
    requires Truthy(CurrentUser(me))
  {
    var docA := Counterpart(Some(a), None);
    var docB := Counterpart(Some(b), None);
    var chat := new DoctorChat(me, None);
    assert chat.emitted == [];
    chat.Select(docA);
    chat.Type("Hi ");
    chat.Send(time);
    var hi := Compose(Some(docA), me, "Hi ", time);
    assert chat.messages == [hi];
    chat.Select(docB);
    chat.Select(docA);
    var name := CurrentUser(me);
    assert chat.emitted == [
      JoinRoom(RoomRequest(Some(a), name)),
      SendMessage(hi),
      LeaveRoom(RoomRequest(Some(a), name)),
      JoinRoom(RoomRequest(Some(b), name)),
      LeaveRoom(RoomRequest(Some(b), name)),
      JoinRoom(RoomRequest(Some(a), name))];
    assert chat.messages == [hi];
    chat.ToggleVideo();
    chat.ToggleVideo();
    assert chat.messages == [hi] && !chat.showVideoCall;
  }
}
