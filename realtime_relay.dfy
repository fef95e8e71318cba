/** The socket handlers of server/server.js: a table from room name (a
    document id) to the sockets joined to it. `join-document` adds the socket
    to a room, `document-change` forwards the content to every socket of the
    named room except the sender, and `disconnect` only logs. No handler checks
    who the socket belongs to or whether it is in the room it writes to. */
module RealtimeRelay {

  type SocketId = string
  type Rooms = map<string, set<SocketId>>

  /** The payload of a `document-change` event. */
  datatype ChangeMessage = ChangeMessage(documentId: string, content: string)

  /** One `receive-change` emission: the socket it goes to and what it carries. */
  datatype Delivery = Delivery(to: SocketId, content: string)

  /** The events a socket sends, in the order the server handles them. */
  datatype Event =
    | JoinDocument(socket: SocketId, documentId: string)
    | DocumentChange(socket: SocketId, data: ChangeMessage)
    | Disconnect(socket: SocketId)

  function Members(rooms: Rooms, room: string): set<SocketId> {
    if room in rooms then rooms[room] else {}
  }

  /** socket.to(room).emit(...): every member of the room but the sender. */
  function Recipients(rooms: Rooms, sender: SocketId, room: string): (r: set<SocketId>)
    ensures forall s :: s in r <==> s in Members(rooms, room) && s != sender
  {
    Members(rooms, room) - {sender}
  }

  /** The room table after one event: only a join changes it. */
  function Step(rooms: Rooms, e: Event): (r: Rooms)
    ensures e.JoinDocument? ==> Members(r, e.documentId) == Members(rooms, e.documentId) + {e.socket}
    ensures forall room :: (e.JoinDocument? ==> room != e.documentId) ==> Members(r, room) == Members(rooms, room)
    ensures !e.JoinDocument? ==> r == rooms
  {
    match e
    case JoinDocument(s, d) => rooms[d := Members(rooms, d) + {s}]
    case DocumentChange(_, _) => rooms
    case Disconnect(_) => rooms
  }

  /** What one event emits: a change is delivered, content only, to the
      recipients; joins and disconnects emit nothing. */
  function Emitted(rooms: Rooms, e: Event): (r: set<Delivery>)
    ensures forall d :: d in r <==>
      e.DocumentChange? && d.content == e.data.content
      && d.to in Members(rooms, e.data.documentId) && d.to != e.socket
  {
    match e
    case DocumentChange(s, data) => set t | t in Recipients(rooms, s, data.documentId) :: Delivery(t, data.content)
    case JoinDocument(_, _) => {}
    case Disconnect(_) => {}
  }

  /** The room table after a whole trace of events. */
  function Replay(rooms: Rooms, trace: seq<Event>): Rooms
    decreases |trace|
  {
    if trace == [] then rooms else Replay(Step(rooms, trace[0]), trace[1..])
  }

  /** The sockets a trace joins to a room. */
  function JoinedTo(trace: seq<Event>, room: string): set<SocketId>
    decreases |trace|
  {
    if trace == [] then {}
    else (if trace[0].JoinDocument? && trace[0].documentId == room then {trace[0].socket} else {})
         + JoinedTo(trace[1..], room)
  }

  /** After any trace a room holds its earlier members and exactly the
      sockets the trace joined to it: membership only grows, and changes and
      disconnects remove no one. */
  lemma {:induction false} ReplayMembers(rooms: Rooms, trace: seq<Event>, room: string)
    ensures Members(Replay(rooms, trace), room) == Members(rooms, room) + JoinedTo(trace, room)
    decreases |trace|
  {
    if trace != [] {
      ReplayMembers(Step(rooms, trace[0]), trace[1..], room);
    }
  }

  /** Two sockets join D1 and the first sends op1: only the second receives
      it, and the sender gets no echo. */
  lemma ScenarioTwoSockets(op1: string)
    ensures var rooms := Replay(map[], [JoinDocument("s1", "D1"), JoinDocument("s2", "D1")]);
            Emitted(rooms, DocumentChange("s1", ChangeMessage("D1", op1))) == {Delivery("s2", op1)}
  {
    var rooms := Replay(map[], [JoinDocument("s1", "D1"), JoinDocument("s2", "D1")]);
    ReplayMembers(map[], [JoinDocument("s1", "D1"), JoinDocument("s2", "D1")], "D1");
    assert JoinedTo([JoinDocument("s2", "D1")], "D1") == {"s2"};
    assert Members(rooms, "D1") == {"s1", "s2"};
    var out := Emitted(rooms, DocumentChange("s1", ChangeMessage("D1", op1)));
    assert Delivery("s2", op1) in out;
  }

  class RoomTable {
    var rooms: Rooms

    constructor ()
      ensures rooms == map[]
    {
      rooms := map[];
    }

    /** socket.join(documentId). */
    method JoinDocument(socket: SocketId, documentId: string)
      modifies this
      ensures rooms == Step(old(rooms), Event.JoinDocument(socket, documentId))
    {
      rooms := rooms[documentId := Members(rooms, documentId) + {socket}];
    }

    /** socket.to(data.documentId).emit('receive-change', data.content): the
        sender need not be a member, and only the content is forwarded. */
    method DocumentChange(sender: SocketId, data: ChangeMessage) returns (out: set<Delivery>)
      ensures out == Emitted(rooms, Event.DocumentChange(sender, data))
      ensures forall d :: d in out ==> d.to != sender && d.content == data.content
    {
      out := set t | t in Recipients(rooms, sender, data.documentId) :: Delivery(t, data.content);
    }

    /** The disconnect handler logs and changes nothing. */
    method Disconnect(socket: SocketId) returns (out: set<Delivery>)
      ensures out == Emitted(rooms, Event.Disconnect(socket)) && out == {}
      ensures rooms == Step(rooms, Event.Disconnect(socket))
    {
      out := {};
    }
  }
}
