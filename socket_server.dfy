/**
 * The socket.io handlers of the server (server/server.js): `setup` and
 * `join_chat` change the rooms a socket is in, and `new_message` stores a
 * message, emits it to the receiver's room, then stores and emits a
 * notification. Rooms are a map from room name to the sockets in it; what the
 * handlers send is appended to an outbox, one entry per `emit`.
 */
module SocketServer {
  import opened Wrappers
  import opened Models
  import Store

  /** A connected socket. */
  type SocketId = nat

  /** The events the server emits. */
  datatype Event =
    | Connected                               // 'connected'
    | MessageReceived(message: Message)       // 'message_received'
    | NotificationReceived(note: Notification) // 'notification_received'

  /**
   * One `emit`: `socket.emit` reaches that socket only; `socket.in(room).emit`
   * reaches every socket in the room except the emitting one.
   */
  datatype Emit =
    | ToSocket(socket: SocketId, event: Event)
    | ToRoom(room: string, except: SocketId, event: Event)

  /** Whether `s` receives `e`, given the room membership at the time of the emit. */
  predicate Delivered(rooms: map<string, set<SocketId>>, e: Emit, s: SocketId) {
    match e
    case ToSocket(t, _) => s == t
    case ToRoom(room, except, _) => room in rooms && s in rooms[room] && s != except
  }

  /** The events socket `s` receives from `emits`, in emit order, with the rooms as they are. */
  function Inbox(rooms: map<string, set<SocketId>>, emits: seq<Emit>, s: SocketId): (r: seq<Event>)
    ensures |r| <= |emits|
  {
    if emits == [] then []
    else (if Delivered(rooms, emits[0], s) then [emits[0].event] else []) + Inbox(rooms, emits[1..], s)
  }

  /** Later emits reach a socket after earlier ones: the inbox distributes over concatenation. */
  lemma {:induction false} InboxAppend(rooms: map<string, set<SocketId>>, a: seq<Emit>, b: seq<Emit>, s: SocketId)
    ensures Inbox(rooms, a + b, s) == Inbox(rooms, a, s) + Inbox(rooms, b, s)
  {
    if a != [] {
      assert (a + b)[0] == a[0] && (a + b)[1..] == a[1..] + b;
      InboxAppend(rooms, a[1..], b, s);
    } else {
      assert a + b == b;
    }
  }

  /**
   * The two emits of 'new_message' reach a socket exactly when it is in the
   * receiver's room and is not the sender's socket; it then gets the message
   * and the notification, in that order. The sender's own socket gets
   * neither, even when it has joined the receiver's room.
   */
  lemma NewMessageReachesOthers(rooms: map<string, set<SocketId>>, to: string, sender: SocketId,
                                m: Message, n: Notification, s: SocketId)
    ensures Inbox(rooms, [ToRoom(to, sender, MessageReceived(m)), ToRoom(to, sender, NotificationReceived(n))], s)
            == if to in rooms && s in rooms[to] && s != sender then [MessageReceived(m), NotificationReceived(n)] else []
  {
    var e1, e2 := ToRoom(to, sender, MessageReceived(m)), ToRoom(to, sender, NotificationReceived(n));
    InboxAppend(rooms, [e1], [e2], s);
    assert [e1] + [e2] == [e1, e2];
  }

  /** A user as the client sends it inside a message payload (`_id` and `name`). */
  datatype UserRef = UserRef(id: Id, name: string)

  /**
   * The `new_message` payload. A missing `sender`, `receiver` or `pet` object
   * is None; missing `content` or `chatId` is "".
   */
  datatype NewMessagePayload = NewMessagePayload(
    sender: Option<UserRef>,
    receiver: Option<UserRef>,
    pet: Option<Id>,
    content: string,
    chatId: string)

  /** The first 30 characters of `content`, and "..." when there were more. */
  function Preview(content: string): (r: string)
    ensures |content| <= 30 ==> r == content
    ensures |content| > 30 ==> |r| == 33 && r[..30] == content[..30] && r[30..] == "..."
  {
    var head := if |content| <= 30 then content else content[..30];
    head + (if |content| > 30 then "..." else "")
  }

  /** The preview is never longer than 33 characters and starts with the content's beginning. */
  lemma PreviewBounded(content: string)
    ensures |Preview(content)| <= 33
    ensures var n := if |content| < 30 then |content| else 30;
            Preview(content)[..n] == content[..n]
  {
  }

  /** The preview ends in "..." exactly when the content was cut. */
  lemma PreviewEllipsisIffCut(content: string)
    requires forall i :: 0 <= i < |content| ==> content[i] != '.'
    ensures var p := Preview(content);
            (|p| >= 3 && p[|p| - 3..] == "...") <==> |content| > 30
  {
    var p := Preview(content);
    if |content| <= 30 && |p| >= 3 {
      assert p[|p| - 1] == content[|content| - 1] != '.';
    }
  }

  /**
   * The text of the notification for a new message: the sender's name, then
   * the content, cut to 30 characters and marked "..." when it is longer.
   */
  function NotificationText(senderName: string, content: string): (r: string)
    ensures |content| <= 30 ==> r == "New message from " + senderName + ": " + content
    ensures |content| > 30 ==> r == "New message from " + senderName + ": " + content[..30] + "..."
    ensures |r| >= |senderName| + 19 && r[..|senderName| + 19] == "New message from " + senderName + ": "
    ensures |r| <= |senderName| + 52
  {
    "New message from " + senderName + ": " + Preview(content)
  }

  class Router {
    var rooms: map<string, set<SocketId>>
    var outbox: seq<Emit>

    constructor ()
      ensures rooms == map[] && outbox == []
    {
      rooms := map[];
      outbox := [];
    }

    /** The sockets in `room`, none when nobody joined it. */
    function Members(room: string): set<SocketId>
      reads this
    {
      if room in rooms then rooms[room] else {}
    }

    /** `socket.join(room)`: adds the socket to that room and to no other. */
    method Join(socket: SocketId, room: string)
      modifies this
      ensures rooms == old(rooms)[room := old(Members(room)) + {socket}]
      ensures outbox == old(outbox)
    {
      rooms := rooms[room := Members(room) + {socket}];
    }

    /** 'setup': joins the room named by the user's id and answers 'connected' to this socket. */
    method Setup(socket: SocketId, userId: Id)
      modifies this
      ensures rooms == old(rooms)[userId := old(Members(userId)) + {socket}]
      ensures outbox == old(outbox) + [ToSocket(socket, Connected)]
    {
      Join(socket, userId);
      outbox := outbox + [ToSocket(socket, Connected)];
    }

    /** 'join_chat': joins exactly the given room and emits nothing. */
    method JoinChat(socket: SocketId, room: string)
      modifies this
      ensures rooms == old(rooms)[room := old(Members(room)) + {socket}]
      ensures forall r :: r in rooms && r != room ==> r in old(rooms) && rooms[r] == old(rooms)[r]
      ensures outbox == old(outbox)
    {
      Join(socket, room);
    }

    /**
     * 'new_message'. Without a receiver nothing happens. Without a sender the
     * access to `sender._id` throws inside the `try` and nothing happens. A
     * message failing validation is not stored and nothing is emitted.
     * Otherwise the message is stored and emitted to the receiver's room,
     * then the notification is stored and emitted to the same room.
     * `messageId`, `noteId` and `now` are the ids and time the database assigns.
     */
    method OnNewMessage(db: Store.Db, socket: SocketId, payload: NewMessagePayload,
                      messageId: Id, noteId: Id, now: int)
      requires db.Valid()
      requires forall m :: m in db.messages ==> m.id != messageId
      requires forall n :: n in db.notifications ==> n.id != noteId
      modifies this, db
      ensures db.Valid()
      ensures rooms == old(rooms)
      ensures db.users == old(db.users) && db.pets == old(db.pets) && db.applications == old(db.applications)
      ensures payload.receiver.None? || payload.sender.None?
              || CreateMessage(messageId, payload.sender.value.id, payload.receiver.value.id,
                            payload.pet, payload.content, payload.chatId, now).None?
              ==> db.messages == old(db.messages) && db.notifications == old(db.notifications)
                  && outbox == old(outbox)
      ensures payload.receiver.Some? && payload.sender.Some? ==>
        var to := payload.receiver.value.id;
        match CreateMessage(messageId, payload.sender.value.id, to, payload.pet, payload.content, payload.chatId, now)
        case None => true
        case Some(m) =>
          var n := Notification(noteId, to, NotificationType.NewMessage,
                                NotificationText(payload.sender.value.name, payload.content),
                                Some(payload.chatId), false, now);
          && db.messages == old(db.messages) + [m]
          && db.notifications == old(db.notifications) + [n]
          && outbox == old(outbox) + [ToRoom(to, socket, MessageReceived(m)), ToRoom(to, socket, NotificationReceived(n))]
          && forall s :: Inbox(rooms, outbox[|old(outbox)|..], s) ==
               if s in Members(to) && s != socket then [MessageReceived(m), NotificationReceived(n)] else []
    {
      if payload.receiver.None? {
        return;
      }
      if payload.sender.None? {
        return;
      }
      var to := payload.receiver.value.id;
      var stored := CreateMessage(messageId, payload.sender.value.id, to, payload.pet,
                               payload.content, payload.chatId, now);
      if stored.None? {
        return;
      }
      var m := stored.value;
      db.messages := db.messages + [m];
      outbox := outbox + [ToRoom(to, socket, MessageReceived(m))];
      var note := CreateNotification(noteId, to, NotificationType.NewMessage,
                                     NotificationText(payload.sender.value.name, payload.content),
                                     Some(payload.chatId), now);
      match note
      case Some(n) =>
        db.notifications := db.notifications + [n];
        outbox := outbox + [ToRoom(to, socket, NotificationReceived(n))];
        forall s {
          NewMessageReachesOthers(rooms, to, socket, m, n, s);
        }
    }
  }
}
