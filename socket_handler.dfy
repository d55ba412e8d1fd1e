/** The Socket.IO handlers of socket/socketHandler.js as one object over the
    shared state they touch: the `users`, `matches` and `messages`
    collections, the per-socket fields (`socket.userId`,
    `socket.currentChat`, joined rooms) and the events emitted so far. */
module SocketHandler {
  import opened Common
  import opened Tokens
  import opened ChatModel

  /** A socket's record is coherent with the matches: it is in its personal
      room, and its `currentChat`, when set, is a room it joined and, while
      the match exists, a match its user takes part in. */
  ghost predicate SessionConsistent(s: Session, matches: map<MatchId, Match>)
  {
    && PersonalRoom(s.userId) in s.rooms
    && (s.currentChat.Some? ==>
          && ChatRoom(s.currentChat.value) in s.rooms
          && (s.currentChat.value in matches ==> IsParticipant(matches[s.currentChat.value], s.userId)))
  }

  class ChatServer {
    /** `process.env.JWT_SECRET`. */
    const secret: string
    var users: map<UserId, User>
    var matches: map<MatchId, Match>
    var messages: seq<Message>
    var sessions: map<ConnId, Session>
    var outbox: seq<Outbound>

    ghost predicate Valid()
      reads this
    {
      && (forall c :: c in sessions ==> SessionConsistent(sessions[c], matches))
      && (forall id :: id in matches ==> SummaryConsistent(matches[id]))
    }

    /** The server at start-up, over the stored users and matches. */
    constructor (secret: string, users: map<UserId, User>, matches: map<MatchId, Match>)
      requires forall id :: id in matches ==> SummaryConsistent(matches[id])
      ensures Valid()
      ensures this.secret == secret && this.users == users && this.matches == matches
      ensures messages == [] && sessions == map[] && outbox == []
    {
      this.secret := secret;
      this.users := users;
      this.matches := matches;
      messages := [];
      sessions := map[];
      outbox := [];
    }

    /** The handshake middleware followed by the 'connection' handler: on
        success the socket gets its user, joins `user_<id>` and the user is
        marked online; on every failure no socket record is created. */
    method Connect(conn: ConnId, token: Option<Jwt>, now: Time) returns (r: Result<UserId, HandshakeError>)
      requires Valid()
      requires conn !in sessions
      modifies this
      ensures Valid()
      ensures r == Admit(old(users), token, secret)
      ensures matches == old(matches) && messages == old(messages) && outbox == old(outbox)
      ensures r.Failure? ==> sessions == old(sessions) && users == old(users)
      ensures r.Success? ==>
                && sessions == old(sessions)[conn := Session(r.value, None, {PersonalRoom(r.value)})]
                && users == old(users)[r.value := User(true, Some(now))]
    {
      r := Admit(users, token, secret);
      if r.Failure? {
        return;
      }
      sessions := sessions[conn := Session(r.value, None, {PersonalRoom(r.value)})];
      UpdateUserOnlineStatus(r.value, true, now);
    }

    /** `join_chat`: only a participant of an existing match gets the match
        as its `currentChat` (overwriting the previous one; the old chat
        room is not left) and has the match's messages to it marked read. */
    method JoinChat(conn: ConnId, matchId: MatchId) returns (r: Result<MatchId, ChatError>)
      requires Valid()
      requires conn in sessions
      modifies this
      ensures Valid()
      ensures users == old(users)
      ensures matchId !in old(matches) ==> r == Failure(MatchNotFound)
      ensures matchId in old(matches) && !IsParticipant(old(matches)[matchId], old(sessions)[conn].userId) ==>
                r == Failure(Unauthorized)
      ensures matchId in old(matches) && IsParticipant(old(matches)[matchId], old(sessions)[conn].userId) ==>
                r.Success?
      ensures r.Failure? ==>
                && sessions == old(sessions) && matches == old(matches) && messages == old(messages)
                && outbox == old(outbox) + [ToConnection(conn, ErrorEvent(ChatErrorMessage(r.error)))]
                && Delivery(sessions, outbox[|outbox| - 1]) == {conn}
      ensures r.Success? ==>
                var s := old(sessions)[conn];
                && r.value == matchId
                && matchId in old(matches) && IsParticipant(old(matches)[matchId], s.userId)
                && sessions == old(sessions)[conn := s.(currentChat := Some(matchId),
                                                         rooms := s.rooms + {ChatRoom(matchId)})]
                && messages == MarkRead(old(messages), matchId, s.userId)
                && matches == old(matches)[matchId := ClearUnread(old(matches)[matchId])]
                && outbox == old(outbox) + [ToConnection(conn, JoinedChat(matchId))]
    {
      var s := sessions[conn];
      if matchId !in matches {
        r := Failure(MatchNotFound);
      } else if !IsParticipant(matches[matchId], s.userId) {
        r := Failure(Unauthorized);
      } else {
        sessions := sessions[conn := s.(currentChat := Some(matchId), rooms := s.rooms + {ChatRoom(matchId)})];
        MarkMessagesAsRead(matchId, s.userId);
        outbox := outbox + [ToConnection(conn, JoinedChat(matchId))];
        return Success(matchId);
      }
      outbox := outbox + [ToConnection(conn, ErrorEvent(ChatErrorMessage(r.error)))];
    }

    /** `send_message`: refused unless the socket's `currentChat` is the
        target match; otherwise exactly one unread message from the sender
        to the other participant is stored, the match summary records it and
        its unread counter goes up by one, and the message is broadcast to
        the chat room. */
    method SendMessage(conn: ConnId, req: SendRequest, newId: MessageId, now: Time)
      returns (r: Result<Message, ChatError>)
      requires Valid()
      requires conn in sessions
      modifies this
      ensures Valid()
      ensures users == old(users) && sessions == old(sessions)
      ensures old(sessions)[conn].currentChat != Some(req.matchId) ==> r == Failure(NotInRoom)
      ensures old(sessions)[conn].currentChat == Some(req.matchId) && req.matchId !in old(matches) ==>
                r == Failure(MatchNotFound)
      ensures old(sessions)[conn].currentChat == Some(req.matchId) && req.matchId in old(matches) ==>
                r.Success?
      ensures r.Failure? ==>
                && matches == old(matches) && messages == old(messages)
                && outbox == old(outbox) + [ToConnection(conn, ErrorEvent(ChatErrorMessage(r.error)))]
                && Delivery(sessions, outbox[|outbox| - 1]) == {conn}
      ensures r.Success? ==>
                var sender := old(sessions)[conn].userId;
                var m := old(matches)[req.matchId];
                && old(sessions)[conn].currentChat == Some(req.matchId) && req.matchId in old(matches)
                && r.value == ComposeMessage(req, sender, m, newId, now)
                && r.value.senderId == sender && !r.value.isRead
                && {r.value.senderId, r.value.receiverId} == {m.userId1, m.userId2}
                && messages == old(messages) + [r.value]
                && matches == old(matches)[req.matchId := Summarize(m, req.content, now)]
                && matches[req.matchId].unreadCount == m.unreadCount + 1
                && outbox == old(outbox) + [ToRoom(ChatRoom(req.matchId), NewMessage(r.value), None)]
                && Delivery(sessions, outbox[|outbox| - 1]) == set c | c in sessions && ChatRoom(req.matchId) in sessions[c].rooms
                && conn in Delivery(sessions, outbox[|outbox| - 1])
    {
      var s := sessions[conn];
      if s.currentChat != Some(req.matchId) {
        r := Failure(NotInRoom);
      } else if req.matchId !in matches {
        r := Failure(MatchNotFound);
      } else {
        var m := matches[req.matchId];
        var msg := ComposeMessage(req, s.userId, m, newId, now);
        messages := messages + [msg];
        matches := matches[req.matchId := Summarize(m, req.content, now)];
        outbox := outbox + [ToRoom(ChatRoom(req.matchId), NewMessage(msg), None)];
        // The push notification for an offline receiver is a TODO that only logs.
        var receiverSocket := FindUserSocket(msg.receiverId);
        return Success(msg);
      }
      outbox := outbox + [ToConnection(conn, ErrorEvent(ChatErrorMessage(r.error)))];
    }

    /** `typing_start` / `typing_stop`: relayed to the rest of the chat room
        only when the socket's `currentChat` is the match named; nothing
        else changes. */
    method RelayTyping(conn: ConnId, matchId: MatchId, isTyping: bool)
      requires Valid()
      requires conn in sessions
      modifies this
      ensures Valid()
      ensures users == old(users) && sessions == old(sessions)
      ensures matches == old(matches) && messages == old(messages)
      ensures sessions[conn].currentChat == Some(matchId) ==>
                && outbox == old(outbox) + [ToRoom(ChatRoom(matchId), UserTyping(sessions[conn].userId, isTyping), Some(conn))]
                && Delivery(sessions, outbox[|outbox| - 1])
                     == (set c | c in sessions && ChatRoom(matchId) in sessions[c].rooms) - {conn}
                && conn !in Delivery(sessions, outbox[|outbox| - 1])
      ensures sessions[conn].currentChat != Some(matchId) ==> outbox == old(outbox)
    {
      var s := sessions[conn];
      if s.currentChat == Some(matchId) {
        outbox := outbox + [ToRoom(ChatRoom(matchId), UserTyping(s.userId, isTyping), Some(conn))];
      }
    }

    method TypingStart(conn: ConnId, matchId: MatchId)
      requires Valid()
      requires conn in sessions
      modifies this
      ensures Valid()
      ensures users == old(users) && sessions == old(sessions)
      ensures matches == old(matches) && messages == old(messages)
      ensures sessions[conn].currentChat == Some(matchId) ==>
                outbox == old(outbox) + [ToRoom(ChatRoom(matchId), UserTyping(sessions[conn].userId, true), Some(conn))]
      ensures sessions[conn].currentChat != Some(matchId) ==> outbox == old(outbox)
    {
      RelayTyping(conn, matchId, true);
    }

    method TypingStop(conn: ConnId, matchId: MatchId)
      requires Valid()
      requires conn in sessions
      modifies this
      ensures Valid()
      ensures users == old(users) && sessions == old(sessions)
      ensures matches == old(matches) && messages == old(messages)
      ensures sessions[conn].currentChat == Some(matchId) ==>
                outbox == old(outbox) + [ToRoom(ChatRoom(matchId), UserTyping(sessions[conn].userId, false), Some(conn))]
      ensures sessions[conn].currentChat != Some(matchId) ==> outbox == old(outbox)
    {
      RelayTyping(conn, matchId, false);
    }

    /** `mark_messages_read`: no room or participant check at all. */
    method OnMarkMessagesRead(conn: ConnId, matchId: MatchId)
      requires Valid()
      requires conn in sessions
      modifies this
      ensures Valid()
      ensures users == old(users) && sessions == old(sessions) && outbox == old(outbox)
      ensures messages == MarkRead(old(messages), matchId, sessions[conn].userId)
      ensures matchId in old(matches) ==> matches == old(matches)[matchId := ClearUnread(old(matches)[matchId])]
      ensures matchId !in old(matches) ==> matches == old(matches)
    {
      MarkMessagesAsRead(matchId, sessions[conn].userId);
    }

    /** `disconnect`: the socket goes away and its user is marked offline,
        whether or not other sockets of the same user are still connected. */
    method Disconnect(conn: ConnId, now: Time)
      requires Valid()
      requires conn in sessions
      modifies this
      ensures Valid()
      ensures sessions == old(sessions) - {conn}
      ensures users == SetPresence(old(users), old(sessions)[conn].userId, false, now)
      ensures old(sessions)[conn].userId in users ==> !users[old(sessions)[conn].userId].isOnline
      ensures matches == old(matches) && messages == old(messages) && outbox == old(outbox)
    {
      var u := sessions[conn].userId;
      sessions := sessions - {conn};
      UpdateUserOnlineStatus(u, false, now);
    }

    /** `updateUserOnlineStatus`. */
    method UpdateUserOnlineStatus(userId: UserId, online: bool, now: Time)
      modifies this`users
      ensures users == SetPresence(old(users), userId, online, now)
    {
      users := SetPresence(users, userId, online, now);
    }

    /** `markMessagesAsRead`: the query selects the unread messages of the
        match addressed to the user, the batch marks each of them read and is
        committed, then the match's unread state is reset (an update that
        fails, and is swallowed, when the match does not exist). */
    method MarkMessagesAsRead(matchId: MatchId, userId: UserId)
      requires Valid()
      modifies this`messages, this`matches
      ensures Valid()
      ensures messages == MarkRead(old(messages), matchId, userId)
      ensures matchId in old(matches) ==> matches == old(matches)[matchId := ClearUnread(old(matches)[matchId])]
      ensures matchId !in old(matches) ==> matches == old(matches)
    {
      var batch := messages;
      var i := 0;
      while i < |batch|
        invariant 0 <= i <= |batch| == |messages|
        invariant forall k :: 0 <= k < i ==> batch[k] == MarkOne(messages[k], matchId, userId)
        invariant forall k :: i <= k < |batch| ==> batch[k] == messages[k]
      {
        if Selected(batch[i], matchId, userId) {
          batch := batch[i := batch[i].(isRead := true)];
        }
        i := i + 1;
      }
      forall k | 0 <= k < |batch| ensures batch[k] == MarkRead(messages, matchId, userId)[k] {
        MarkReadAt(messages, matchId, userId, k);
      }
      messages := batch;
      if matchId in matches {
        matches := matches[matchId := ClearUnread(matches[matchId])];
      }
    }

    /** `findUserSocket`: some connected socket of the user, if any. */
    method FindUserSocket(userId: UserId) returns (r: Option<ConnId>)
      ensures r.Some? ==> r.value in sessions && sessions[r.value].userId == userId
      ensures r.None? ==> forall c :: c in sessions ==> sessions[c].userId != userId
    {
      if c :| c in sessions && sessions[c].userId == userId {
        r := Some(c);
      } else {
        r := None;
      }
    }
  }

  /** A `mark_messages_read` followed by a `send_message` into the same
      chat: the reset counter counts just the new message, which is stored
      unread and delivered to the sender's own socket as well. */
  method ReadThenSend(server: ChatServer, conn: ConnId, req: SendRequest, newId: MessageId, now: Time)
    returns (r: Result<Message, ChatError>)
    requires server.Valid()
    requires conn in server.sessions && server.sessions[conn].currentChat == Some(req.matchId)
    requires req.matchId in server.matches
    modifies server
    ensures server.Valid()
    ensures r.Success? && !r.value.isRead
    ensures req.matchId in server.matches
    ensures server.matches[req.matchId].unreadCount == 1 && server.matches[req.matchId].hasUnreadMessages
    ensures |server.messages| > 0 && server.messages[|server.messages| - 1] == r.value
    ensures |server.outbox| > 0 && conn in Delivery(server.sessions, server.outbox[|server.outbox| - 1])
  {
    server.OnMarkMessagesRead(conn, req.matchId);
    r := server.SendMessage(conn, req, newId, now);
  }

  /** Scenario: A joins and sends while B is offline; the message is
      stored for B and counted unread; when B connects and joins, the counter
      is reset and the message is read. */
  method OfflineReceiverScenario(secret: string, a: UserId, b: UserId, chat: MatchId)
    returns (unreadAfterSend: nat, unreadAfterJoin: nat, readByReceiver: bool)
    requires a != b
    ensures unreadAfterSend == 1 && unreadAfterJoin == 0 && readByReceiver
  {
    var users := map[a := User(false, None), b := User(false, None)];
    var m := Match(a, b, None, None, false, 0);
    var server := new ChatServer(secret, users, map[chat := m]);
    var ra := server.Connect(1, Some(Sign(Claims(a, AccessKind), secret, 0)), 0);
    assert ra == Success(a);
    var j := server.JoinChat(1, chat);
    assert j.Success?;
    var sent := server.SendMessage(1, SendRequest(chat, "hello", None, None), "m1", 1);
    assert sent.Success? && sent.value.receiverId == b && !sent.value.isRead;
    unreadAfterSend := server.matches[chat].unreadCount;
    assert unreadAfterSend == 1;
    assert server.messages == [sent.value];
    var rb := server.Connect(2, Some(Sign(Claims(b, AccessKind), secret, 2)), 2);
    assert rb == Success(b);
    var jb := server.JoinChat(2, chat);
    assert jb.Success?;
    unreadAfterJoin := server.matches[chat].unreadCount;
    MarkReadAt([sent.value], chat, b, 0);
    readByReceiver := server.messages[0].isRead;
  }
}
