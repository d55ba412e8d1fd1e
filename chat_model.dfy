/** The documents, events and pure decisions of the Socket.IO chat relay
    (socket/socketHandler.js). The stateful handlers that use them live in
    module SocketHandler. */
module ChatModel {
  import opened Common
  import opened Tokens

  /** The part of a `users` document the relay reads and writes. */
  datatype User = User(isOnline: bool, lastSeen: Option<Time>)

  /** A `matches` document: the two participants and the conversation summary. */
  datatype Match = Match(
    userId1: UserId,
    userId2: UserId,
    lastMessage: Option<string>,
    lastMessageAt: Option<Time>,
    hasUnreadMessages: bool,
    unreadCount: nat)

  /** A `messages` document. `kind` is the document's `type` field. */
  datatype Message = Message(
    id: MessageId,
    matchId: MatchId,
    senderId: UserId,
    receiverId: UserId,
    content: string,
    kind: string,
    replyToMessageId: Option<MessageId>,
    timestamp: Time,
    isRead: bool)

  /** Socket.IO rooms: `user_<id>` and `chat_<id>`. */
  datatype Room = PersonalRoom(userId: UserId) | ChatRoom(matchId: MatchId)

  /** What the relay keeps on one socket: `socket.userId`, `socket.currentChat`
      and the rooms the socket has joined. */
  datatype Session = Session(userId: UserId, currentChat: Option<MatchId>, rooms: set<Room>)

  /** Why the handshake middleware refuses a connection. */
  datatype HandshakeError = NoToken | InvalidTokenType | UserNotFound | InvalidToken

  function HandshakeMessage(e: HandshakeError): string
  {
    match e
    case NoToken => "Authentication error: No token provided"
    case InvalidTokenType => "Authentication error: Invalid token type"
    case UserNotFound => "Authentication error: User not found"
    case InvalidToken => "Authentication error: Invalid token"
  }

  /** The `error` events the chat handlers emit to the requesting socket. */
  datatype ChatError = MatchNotFound | Unauthorized | NotInRoom

  function ChatErrorMessage(e: ChatError): string
  {
    match e
    case MatchNotFound => "Match not found"
    case Unauthorized => "Unauthorized access to chat"
    case NotInRoom => "Not in this chat room"
  }

  /** Server-to-client events. The wall-clock `timestamp` that `new_message`
      carries in place of the stored one is omitted. */
  datatype Event =
    | ErrorEvent(text: string)
    | JoinedChat(matchId: MatchId)
    | NewMessage(message: Message)
    | UserTyping(userId: UserId, isTyping: bool)

  /** An emitted event: `socket.emit` (to one connection), `io.to(room).emit`
      (to the room) and `socket.to(room).emit` (to the room except the sender). */
  datatype Outbound =
    | ToConnection(conn: ConnId, event: Event)
    | ToRoom(room: Room, event: Event, except: Option<ConnId>)

  /** The connections an emitted event reaches: only live ones, at most the
      addressed one for `socket.emit`, and never the excluded sender for
      `socket.to(room).emit`. */
  function Delivery(sessions: map<ConnId, Session>, ob: Outbound): (r: set<ConnId>)
    ensures r <= sessions.Keys
    ensures ob.ToConnection? ==> r <= {ob.conn}
    ensures ob.ToRoom? ==> forall c :: c in r ==> ob.room in sessions[c].rooms
    ensures ob.ToRoom? && ob.except.Some? ==> ob.except.value !in r
  {
    match ob
    case ToConnection(c, _) => if c in sessions then {c} else {}
    case ToRoom(room, _, except) =>
      set c | c in sessions && room in sessions[c].rooms && except != Some(c)
  }

  predicate IsParticipant(m: Match, u: UserId)
  {
    m.userId1 == u || m.userId2 == u
  }

  /** The receiver of a message: `userId1 === sender ? userId2 : userId1`. */
  function OtherParticipant(m: Match, sender: UserId): (r: UserId)
    ensures IsParticipant(m, r)
    ensures IsParticipant(m, sender) ==> {sender, r} == {m.userId1, m.userId2}
    ensures IsParticipant(m, sender) && m.userId1 != m.userId2 ==> r != sender
  {
    if m.userId1 == sender then m.userId2 else m.userId1
  }

  /** The handshake middleware: admits a connection exactly when a token is
      present, verifies under JWT_SECRET, has type 'access' and names an
      existing user; the admitted user is the token's. */
  function Admit(users: map<UserId, User>, token: Option<Jwt>, secret: string)
    : (r: Result<UserId, HandshakeError>)
    ensures r.Success? <==>
              && token.Some?
              && Verify(token.value, secret).Some?
              && Verify(token.value, secret).value.kind == AccessKind
              && Verify(token.value, secret).value.userId in users
    ensures r.Success? ==> Verify(token.value, secret) == Some(Claims(r.value, AccessKind)) && r.value in users
    ensures token.None? ==> r == Failure(NoToken)
    ensures token.Some? && Verify(token.value, secret).None? ==> r == Failure(InvalidToken)
  {
    if token.None? then Failure(NoToken)
    else
      match Verify(token.value, secret)
      case None => Failure(InvalidToken)
      case Some(claims) =>
        if claims.kind != AccessKind then Failure(InvalidTokenType)
        else if claims.userId !in users then Failure(UserNotFound)
        else Success(claims.userId)
  }

  /** A refresh token never opens a socket: under distinct secrets it does
      not verify, and under equal ones the type check refuses it. */
  lemma RefreshTokenCannotConnect(users: map<UserId, User>, userId: UserId, secrets: Secrets, now: Time)
    ensures var r := Admit(users, Some(GenerateTokens(userId, secrets, now).refreshToken), secrets.access);
            && (secrets.access != secrets.refresh ==> r == Failure(InvalidToken))
            && (secrets.access == secrets.refresh ==> r == Failure(InvalidTokenType))
  {
  }

  /** `updateUserOnlineStatus`: sets `isOnline` and `lastSeen`; updating a
      missing document fails and the failure is swallowed. */
  function SetPresence(users: map<UserId, User>, u: UserId, online: bool, now: Time)
    : (r: map<UserId, User>)
    ensures r.Keys == users.Keys
    ensures u in users ==> r[u].isOnline == online && r[u].lastSeen == Some(now)
    ensures forall v :: v in users && v != u ==> r[v] == users[v]
  {
    if u in users then users[u := User(online, Some(now))] else users
  }

  /** The `send_message` payload `{ matchId, content, type, replyToMessageId }`. */
  datatype SendRequest = SendRequest(matchId: MatchId, content: string, kind: Option<string>,
                                     replyToMessageId: Option<MessageId>)

  /** The message document `send_message` adds. */
  function ComposeMessage(req: SendRequest, sender: UserId, m: Match, id: MessageId, now: Time)
    : (msg: Message)
    ensures msg.matchId == req.matchId && msg.senderId == sender && msg.content == req.content
    ensures !msg.isRead
    ensures IsParticipant(m, sender) ==> {msg.senderId, msg.receiverId} == {m.userId1, m.userId2}
    ensures req.kind.None? ==> msg.kind == "text"
    ensures req.kind.Some? ==> msg.kind == req.kind.value
    ensures msg.replyToMessageId.None? <==> req.replyToMessageId in {None, Some("")}
    ensures msg.replyToMessageId.Some? ==> msg.replyToMessageId == req.replyToMessageId
  {
    Message(id, req.matchId, sender, OtherParticipant(m, sender), req.content,
            if req.kind.Some? then req.kind.value else "text",
            if req.replyToMessageId == Some("") then None else req.replyToMessageId,
            now, false)
  }

  /** The summary invariant of a match: the flag is set exactly when the
      counter is positive. */
  predicate SummaryConsistent(m: Match)
  {
    m.hasUnreadMessages <==> m.unreadCount > 0
  }

  /** The match update after a sent message. */
  function Summarize(m: Match, content: string, now: Time): (r: Match)
    ensures r.userId1 == m.userId1 && r.userId2 == m.userId2
    ensures r.lastMessage == Some(content) && r.lastMessageAt == Some(now)
    ensures r.hasUnreadMessages && r.unreadCount == m.unreadCount + 1
    ensures SummaryConsistent(r)
  {
    m.(lastMessage := Some(content), lastMessageAt := Some(now),
       hasUnreadMessages := true, unreadCount := m.unreadCount + 1)
  }

  /** The match update at the end of `markMessagesAsRead`. */
  function ClearUnread(m: Match): (r: Match)
    ensures r.userId1 == m.userId1 && r.userId2 == m.userId2
    ensures r.lastMessage == m.lastMessage && r.lastMessageAt == m.lastMessageAt
    ensures !r.hasUnreadMessages && r.unreadCount == 0
    ensures SummaryConsistent(r)
  {
    m.(hasUnreadMessages := false, unreadCount := 0)
  }

  /** The query `matchId == m && receiverId == u && isRead == false`. */
  predicate Selected(msg: Message, matchId: MatchId, u: UserId)
  {
    msg.matchId == matchId && msg.receiverId == u && !msg.isRead
  }

  /** The effect of the batch on one message: it ends up read exactly when it
      was read or selected, nothing but the read flag changes, and it is no
      longer selected. */
  function MarkOne(msg: Message, matchId: MatchId, u: UserId): (r: Message)
    ensures r.isRead <==> msg.isRead || Selected(msg, matchId, u)
    ensures r.(isRead := msg.isRead) == msg
    ensures !Selected(r, matchId, u)
  {
    if Selected(msg, matchId, u) then msg.(isRead := true) else msg
  }

  /** The messages collection after `markMessagesAsRead(matchId, u)`. */
  function MarkRead(msgs: seq<Message>, matchId: MatchId, u: UserId): (r: seq<Message>)
    ensures |r| == |msgs|
  {
    if msgs == [] then []
    else MarkRead(msgs[..|msgs| - 1], matchId, u) + [MarkOne(msgs[|msgs| - 1], matchId, u)]
  }

  lemma {:induction false} MarkReadAt(msgs: seq<Message>, matchId: MatchId, u: UserId, k: nat)
    requires k < |msgs|
    ensures MarkRead(msgs, matchId, u)[k] == MarkOne(msgs[k], matchId, u)
  {
    if k < |msgs| - 1 {
      MarkReadAt(msgs[..|msgs| - 1], matchId, u, k);
    }
  }

  /** What the batch does: every selected message becomes read and changes in
      nothing else; every other message is left exactly as it was; no read
      flag goes from true to false; afterwards nothing in the conversation
      addressed to `u` is unread. */
  lemma MarkReadEffect(msgs: seq<Message>, matchId: MatchId, u: UserId)
    ensures |MarkRead(msgs, matchId, u)| == |msgs|
    ensures forall k :: 0 <= k < |msgs| && Selected(msgs[k], matchId, u) ==>
              MarkRead(msgs, matchId, u)[k] == msgs[k].(isRead := true)
    ensures forall k :: 0 <= k < |msgs| && !Selected(msgs[k], matchId, u) ==>
              MarkRead(msgs, matchId, u)[k] == msgs[k]
    ensures forall k :: 0 <= k < |msgs| && msgs[k].isRead ==> MarkRead(msgs, matchId, u)[k].isRead
    ensures forall k :: 0 <= k < |msgs| ==> !Selected(MarkRead(msgs, matchId, u)[k], matchId, u)
  {
    forall k | 0 <= k < |msgs| ensures MarkRead(msgs, matchId, u)[k] == MarkOne(msgs[k], matchId, u) {
      MarkReadAt(msgs, matchId, u, k);
    }
  }

  /** Marking twice is marking once. */
  lemma MarkReadIdempotent(msgs: seq<Message>, matchId: MatchId, u: UserId)
    ensures MarkRead(MarkRead(msgs, matchId, u), matchId, u) == MarkRead(msgs, matchId, u)
  {
    var once := MarkRead(msgs, matchId, u);
    forall k | 0 <= k < |msgs| ensures MarkRead(once, matchId, u)[k] == once[k] {
      MarkReadAt(msgs, matchId, u, k);
      MarkReadAt(once, matchId, u, k);
    }
  }

  /** The unread counter is one per match, shared by both directions: after
      A writes to B and B writes back, A's read zeroes the counter although
      A's message to B is still unread. */
  lemma ReadByOneParticipantZeroesSharedCounter(m: Match, matchId: MatchId)
    requires m.userId1 != m.userId2
    ensures var a, b := m.userId1, m.userId2;
            var toB := ComposeMessage(SendRequest(matchId, "hi", None, None), a, m, "m1", 0);
            var m1 := Summarize(m, "hi", 0);
            var toA := ComposeMessage(SendRequest(matchId, "hey", None, None), b, m1, "m2", 1);
            var m2 := Summarize(m1, "hey", 1);
            var after := MarkRead([toB, toA], matchId, a);
            && m2.unreadCount == m.unreadCount + 2
            && ClearUnread(m2).unreadCount == 0
            && after[1].isRead
            && after[0].receiverId == b && !after[0].isRead
  {
    var a, b := m.userId1, m.userId2;
    var toB := ComposeMessage(SendRequest(matchId, "hi", None, None), a, m, "m1", 0);
    var m1 := Summarize(m, "hi", 0);
    var toA := ComposeMessage(SendRequest(matchId, "hey", None, None), b, m1, "m2", 1);
    MarkReadAt([toB, toA], matchId, a, 0);
    MarkReadAt([toB, toA], matchId, a, 1);
  }
}
