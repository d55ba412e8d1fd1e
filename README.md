# Dating app backend: chat relay, accounts and request validation

This project is a Dafny model of three parts of the dating app's Node.js backend (`dating_app/backend`).

- **The Socket.IO chat relay** (`socket/socketHandler.js`). A handshake middleware admits a
  connection only for an access token naming an existing user. Handlers then let a
  participant join a match's chat room (`join_chat`), send messages into it
  (`send_message`), relay typing signals (`typing_start` / `typing_stop`), mark the messages
  addressed to them as read (`mark_messages_read`) and go offline (`disconnect`).
  `SocketHandler.ChatServer` is one object over the state those handlers change:
  - the `users`, `matches` and `messages` collections;
  - each socket's `userId`, `currentChat` and joined rooms;
  - the events emitted so far, as a sequence of outbound records.

  The documents, events and pure decisions (admission, receiver derivation, the match
  summary update, the batch read flip) are in `ChatModel`.
- **The account controller** (`controllers/authController.js`). It covers registration, login,
  the `verifyToken` endpoint, refresh-token rotation and logout. `Auth.AuthService` holds the
  `users` collection and the `refreshTokens` map and is updated in place. JWT signing and
  bcrypt hashing are symbolic:
  - a token is its claims, its signing key and the second it was issued;
  - a hash remembers its preimage, salt and cost, and `bcrypt.compare` accepts exactly the
    passwords whose key bytes agree with the preimage's. Those are the UTF-8 encoding with a
    NUL appended, read cyclically and cut at 72 bytes, which is what bcryptjs feeds its key
    schedule.

  Both live in `Tokens`.
- **The Joi request validators** (`middleware/validation.js`).
  - `Joi` is a small interpreter of the Joi features the four schemas use. It collects every
    failing rule, as `abortEarly: false` does.
  - `Validation` holds the four schemas with their custom messages and a plain predicate per
    schema. Each schema is proved to accept exactly the bodies its predicate describes.
  - `Validation.ValidateRequest` is the middleware that answers 400 or replaces `req.body`
    and calls `next()`.

Findings about the code worth knowing:

- The unread counter is one per match and shared by both directions.
  `ChatModel.ReadByOneParticipantZeroesSharedCounter` shows a read by one participant
  zeroing it while a message to the other participant is still unread.
- JWT issue times are whole seconds, so a refresh within the same second reissues the very
  token presented. `Auth.SameSecondReplayAccepted` shows that the old token then stays valid.
- `registerSchema` admits passwords of up to 128 characters, but bcrypt reads only their
  first 72 UTF-8 bytes. `Validation.TruncatedPasswordsCollide` exhibits two different
  73-character passwords, both accepted at registration, each of which logs in to an account
  registered with the other.

Three behaviours of the handlers worth knowing:

- `disconnect` marks the user offline unconditionally, even if another connection of theirs
  is still live.
- `join_chat` overwrites the single `currentChat` slot without leaving the previous chat room.
- `send_message` does not re-check that the sender is a participant. It only checks that
  `currentChat` equals the match and that the match exists. The participant invariant
  `SocketHandler.SessionConsistent` is what makes that check sufficient.

## Model

| member | source | states |
|---|---|---|
| Tokens.Sign | dating_app/backend/controllers/authController.js:17-27 | a signed token verifies to its claims under its own key and under no other key |
| Tokens.Verify | dating_app/backend/controllers/authController.js:254 | `jwt.verify` accepts only a token signed under the given key, and it accepts every token signed under that key, answering with the claims it was signed over |
| Tokens.GenerateTokens | dating_app/backend/controllers/authController.js:16-30 | the access token verifies to `{userId, type:'access'}` under JWT_SECRET, the refresh token to `{userId, type:'refresh'}` under JWT_REFRESH_SECRET, and the two differ |
| Tokens.RefreshTokensDifferBySecond | dating_app/backend/controllers/authController.js:23-27 | two refresh tokens for one user are equal exactly when they were issued in the same second |
| Tokens.Hash | dating_app/backend/controllers/authController.js:55-142 | the hash made at line 56 is matched by `bcrypt.compare` at line 142 for the hashed password, and for exactly the passwords with the same 72 key bytes; its cost is 12 |
| Tokens.ShortPasswordsMatchExactly | dating_app/backend/controllers/authController.js:142 | for passwords of at most 71 UTF-8 bytes without NUL characters, `bcrypt.compare` against a password's hash succeeds for that password and no other |
| Tokens.LongPasswordsTruncated | dating_app/backend/controllers/authController.js:142 | two passwords whose UTF-8 encodings reach 72 bytes and agree on the first 72 match each other's hashes |
| Auth.WithoutPassword | dating_app/backend/controllers/authController.js:166-212 | the destructuring in `login` (166) and `verifyToken` (212): the view carries the document id and drops the password and nothing else, so putting the stored hash back gives the stored account |
| Auth.StoredPhone | dating_app/backend/controllers/authController.js:63 | the stored phone is the given one when it is present and non-empty, and null otherwise |
| Auth.NewAccount | dating_app/backend/controllers/authController.js:59-75 | a new account is offline and unverified, stores the given name, email and phone, and its hash is matched by exactly the passwords whose bcrypt key bytes equal the registered password's |
| Auth.EmailTaken | dating_app/backend/controllers/authController.js:46-47 | an empty `where('email', '==', email)` query means no account has the email; with unique emails a non-empty query holds exactly one account, so `docs[0]` at line 137 is that account |
| Auth.CheckRefresh | dating_app/backend/controllers/authController.js:246-272 | a missing token gives "Refresh token required", a token that does not verify gives "Invalid refresh token", a non-refresh token gives "Invalid token type"; success happens exactly when the presented token is the one stored for its user; every failure is a 401 |
| Auth.AccessTokenCannotRefresh | dating_app/backend/controllers/authController.js:254-261 | an access token is never accepted as a refresh token: with distinct secrets it fails verification ("Invalid refresh token"), with equal secrets the type check refuses it ("Invalid token type") |
| Auth.RotationRejectsReplay | dating_app/backend/controllers/authController.js:266-281 | after a rotation in a later second, the old refresh token is rejected and the new one is accepted |
| Auth.SameSecondReplayAccepted | dating_app/backend/controllers/authController.js:275-281 | a rotation in the second the presented token was issued stores that same token, so it is still accepted |
| Auth.LogoutRevokes | dating_app/backend/controllers/authController.js:314 | once a user's stored token is deleted, every refresh for that user fails |
| Auth.AuthService.Register | dating_app/backend/controllers/authController.js:33-103 | a taken email gives "User already exists with this email" and changes nothing; otherwise exactly one account is added, the tokens are generated for it and its stored refresh token is the one returned; emails stay unique |
| Auth.AuthService.Login | dating_app/backend/controllers/authController.js:115-179 | success happens exactly when some account has the email and the password matches; an unknown email and a wrong password give the same 401 and change nothing; on success the account goes online, the stored refresh token is the one returned and the returned user has no password |
| Auth.AuthService.VerifyToken | dating_app/backend/controllers/authController.js:191-222 | a missing user gives 404 "User not found"; otherwise the user without the password field |
| Auth.AuthService.Refresh | dating_app/backend/controllers/authController.js:234-289 | a refused token leaves the map alone and returns the refusal; an accepted one gets a fresh pair and the stored token is replaced by the new refresh token |
| Auth.AuthService.Logout | dating_app/backend/controllers/authController.js:301-334 | the stored refresh token is always deleted; an existing user goes offline with a last-seen time; a missing user document gives a 500 |
| ChatModel.OtherParticipant | dating_app/backend/socket/socketHandler.js:103 | the receiver is a participant; together with a participating sender it makes up the match's pair, and it differs from the sender when the pair is two users |
| ChatModel.Admit | dating_app/backend/socket/socketHandler.js:16-42 | a connection is admitted exactly when a token is present, verifies under JWT_SECRET, has type 'access' and names an existing user; a missing token and a bad signature give their own errors |
| ChatModel.RefreshTokenCannotConnect | dating_app/backend/socket/socketHandler.js:24-28 | a refresh token never opens a socket: with distinct secrets it fails verification, with equal secrets the type check refuses it |
| ChatModel.Delivery | dating_app/backend/socket/socketHandler.js:129-133 | an emit reaches only live connections: `socket.emit` at most the addressed one, a room emit only sockets that joined the room, and `socket.to` never the sender |
| ChatModel.SetPresence | dating_app/backend/socket/socketHandler.js:190-199 | the user's `isOnline` and `lastSeen` are set, a missing user changes nothing, and no other user changes |
| ChatModel.ComposeMessage | dating_app/backend/socket/socketHandler.js:103-115 | the stored message is unread, from the sender to the other participant, with `type` defaulting to 'text' and `replyToMessageId` null when absent or empty |
| ChatModel.Summarize | dating_app/backend/socket/socketHandler.js:121-126 | the match gets the last message and time, the unread flag, and its counter goes up by exactly one; participants are unchanged and flag and counter agree |
| ChatModel.ClearUnread | dating_app/backend/socket/socketHandler.js:218-221 | the unread flag is false and the counter zero, with everything else unchanged |
| ChatModel.MarkOne | dating_app/backend/socket/socketHandler.js:211-213 | a message ends up read exactly when it was read or matched the query; only the read flag changes; it no longer matches the query |
| ChatModel.MarkRead | dating_app/backend/socket/socketHandler.js:203-213 | the batch update keeps the number of messages |
| ChatModel.MarkReadAt | dating_app/backend/socket/socketHandler.js:211-213 | each message of the batch result is the old one with the read flag set exactly when it is an unread message of the match to the user |
| ChatModel.MarkReadEffect | dating_app/backend/socket/socketHandler.js:203-213 | every unread message of the match to the user becomes read, every other message is unchanged, no read message becomes unread, and none stays selected |
| ChatModel.MarkReadIdempotent | dating_app/backend/socket/socketHandler.js:201-221 | marking read twice is the same as marking read once |
| ChatModel.ReadByOneParticipantZeroesSharedCounter | dating_app/backend/socket/socketHandler.js:121-126 | after a message each way, a read by one participant zeroes the shared counter although the other participant's message is still unread |
| SocketHandler.ChatServer.Connect | dating_app/backend/socket/socketHandler.js:16-51 | the outcome is `Admit`; a refused connection creates no socket record and changes no user; an admitted one joins its personal room with no current chat and its user goes online |
| SocketHandler.ChatServer.JoinChat | dating_app/backend/socket/socketHandler.js:54-83 | a missing match gives "Match not found" and a non-participant "Unauthorized access to chat", each changing nothing but an error emit that reaches the requesting socket only; a participant gets the match as current chat and joins its room, their messages are marked read, the counter is reset and `joined_chat` is emitted; the participant invariant is kept |
| SocketHandler.ChatServer.SendMessage | dating_app/backend/socket/socketHandler.js:86-146 | a socket whose current chat is not the match gets "Not in this chat room" and a missing match "Match not found", with no message and no summary change; otherwise exactly one unread message from the sender to the other participant is appended, the counter goes up by one and the message is broadcast to exactly the sockets that joined the chat room, the sender's included, so a participant who never joined gets nothing; refusals reach the requesting socket only |
| SocketHandler.ChatServer.RelayTyping | dating_app/backend/socket/socketHandler.js:149-167 | a typing event is emitted exactly when the socket's current chat is the match named, and it reaches the other sockets of the chat room and never the sender; nothing else changes |
| SocketHandler.ChatServer.TypingStart | dating_app/backend/socket/socketHandler.js:149-157 | as `RelayTyping`, with `isTyping` true |
| SocketHandler.ChatServer.TypingStop | dating_app/backend/socket/socketHandler.js:159-167 | as `RelayTyping`, with `isTyping` false |
| SocketHandler.ChatServer.OnMarkMessagesRead | dating_app/backend/socket/socketHandler.js:170-177 | with no room or participant check, the messages of the match to the socket's user are marked read and the match's unread state is reset |
| SocketHandler.ChatServer.Disconnect | dating_app/backend/socket/socketHandler.js:180-183 | the socket record is removed and its user is marked offline unconditionally; matches, messages and emits are unchanged |
| SocketHandler.ChatServer.UpdateUserOnlineStatus | dating_app/backend/socket/socketHandler.js:190-199 | the users become `SetPresence` of the old users |
| SocketHandler.ChatServer.MarkMessagesAsRead | dating_app/backend/socket/socketHandler.js:201-226 | the loop leaves the messages equal to `MarkRead` of the old ones; an existing match gets `ClearUnread`, a missing one is unchanged |
| SocketHandler.ChatServer.FindUserSocket | dating_app/backend/socket/socketHandler.js:228-231 | a connection of the user when one exists, and none only when no connection belongs to the user |
| SocketHandler.ReadThenSend | dating_app/backend/socket/socketHandler.js:86-177 | after `mark_messages_read` and then `send_message` into the current chat, the send succeeds, the new message is the last stored one and unread, the counter is exactly 1, and the sender's socket receives the broadcast |
| SocketHandler.OfflineReceiverScenario | dating_app/backend/socket/socketHandler.js:16-146 | when a participant sends while the other is offline, the counter is 1; once the other connects and joins, the counter is 0 and the message is read |
| Joi.Utf16Length | dating_app/backend/middleware/validation.js:6-7 | a string's length as Joi counts it lies between its number of code points and twice that |
| Joi.RuleDetails | dating_app/backend/middleware/validation.js:5-7 | at most one detail per rule, each naming the key |
| Joi.ItemDetails | dating_app/backend/middleware/validation.js:86-87 | at most one detail per item, each naming the key |
| Joi.ValueDetails | dating_app/backend/middleware/validation.js:59-117 | every detail names its key; a `valid()` key passes exactly for a listed string, otherwise reports `any.only` first and, for a non-string or an unlisted empty string, a second detail from the string type check; an integer key passes exactly for a safe integer within its bounds, and a number beyond the safe range reports `number.unsafe` alone |
| Joi.KeyDetails | dating_app/backend/middleware/validation.js:4-117 | every detail for a key names that key |
| Joi.Details | dating_app/backend/middleware/validation.js:121 | every detail `validate(body, { abortEarly: false })` reports names a key of the schema |
| Joi.DetailsFollowSchemaOrder | dating_app/backend/middleware/validation.js:121 | details come in schema order: the details of the first n keys precede those of the remaining keys |
| Joi.DetailsCollectEveryKey | dating_app/backend/middleware/validation.js:121 | with `abortEarly: false` a body passes exactly when every key passes |
| Validation.SevenKeysPass | dating_app/backend/middleware/validation.js:161 | a seven-key schema such as `updateProfileSchema` passes exactly when each of its seven keys passes |
| Joi.FailingKeyReported | dating_app/backend/middleware/validation.js:121 | the first detail of any failing key appears in the report |
| Joi.RegexTest | dating_app/backend/middleware/validation.js:26-36 | the password expression (26) matches exactly when a lowercase letter, an uppercase letter and a digit each occur before the first line break; the phone expression (36) matches exactly a non-empty string of digits, `+`, `-`, white space and parentheses |
| Joi.LookaheadFindsIff | dating_app/backend/middleware/validation.js:26 | a `(?=.*[x])` lookahead succeeds exactly when a character of the class comes before the first line terminator |
| Joi.RuleDetailsEmptyIff | dating_app/backend/middleware/validation.js:5-7 | a string yields no rule detail exactly when every rule holds |
| Joi.ItemDetailsEmptyIff | dating_app/backend/middleware/validation.js:86-87 | an array yields no item detail exactly when every item is a non-empty string |
| Joi.TextKeyPasses | dating_app/backend/middleware/validation.js:5-13 | a string key passes exactly when it is present if required and, when present, is a non-empty string meeting every rule |
| Joi.TextListKeyPasses | dating_app/backend/middleware/validation.js:86-94 | an array key passes exactly when, if present, it is an array of non-empty strings with a size within bounds |
| Joi.Check | dating_app/backend/middleware/validation.js:121-136 | a body is accepted exactly when no detail is reported, the value is the body, and a refusal is a 400 whose errors map each detail to its key and message in order |
| Validation.RegisterSchema | dating_app/backend/middleware/validation.js:4-41 | the keys of `registerSchema` with their rules and custom messages, as stated by `Validation.RegisterSchemaIff` |
| Validation.LoginSchema | dating_app/backend/middleware/validation.js:43-57 | the keys of `loginSchema`, as stated by `Validation.LoginSchemaIff` |
| Validation.UpdateProfileSchema | dating_app/backend/middleware/validation.js:59-103 | the keys of `updateProfileSchema`, as stated by `Validation.UpdateProfileSchemaIff` |
| Validation.SwipeSchema | dating_app/backend/middleware/validation.js:105-117 | the keys of `swipeSchema`, as stated by `Validation.SwipeSchemaIff` |
| Validation.RegisterNameIff | dating_app/backend/middleware/validation.js:5-13 | the register name passes exactly when present with 2 to 50 characters |
| Validation.RegisterPasswordIff | dating_app/backend/middleware/validation.js:23-33 | the register password passes exactly when present with 6 to 128 characters and a lowercase letter, an uppercase letter and a digit |
| Validation.TruncatedPasswordsCollide | dating_app/backend/middleware/validation.js:23-33 | two different 73-character passwords both pass the register password rules and each matches the other's bcrypt hash |
| Validation.RegisterPhoneIff | dating_app/backend/middleware/validation.js:35-40 | the phone passes exactly when absent, or non-empty and made only of digits, `+`, `-`, white space and parentheses |
| Validation.ValidatedPhoneStored | dating_app/backend/controllers/authController.js:63 | after registerSchema accepts a body, `phoneNumber || null` stores an accepted phone number unchanged, and null only when it is absent |
| Validation.RegisterSchemaIff | dating_app/backend/middleware/validation.js:4-41 | `registerSchema` accepts exactly the bodies with a valid name, an email, a strong password and an optional well-formed phone |
| Validation.LoginSchemaIff | dating_app/backend/middleware/validation.js:43-57 | `loginSchema` accepts exactly the bodies with a non-empty email and password |
| Validation.ProfileTextsIff | dating_app/backend/middleware/validation.js:60-84 | the profile name passes exactly when absent or 2 to 50 characters, the location when absent or at most 100, the bio when absent or at most 500 |
| Validation.ProfileAgeIff | dating_app/backend/middleware/validation.js:65-73 | the age passes exactly when absent or an integer from 18 to 100 |
| Validation.ProfileInterestsIff | dating_app/backend/middleware/validation.js:86-94 | the interests pass exactly when absent or 1 to 20 non-empty strings |
| Validation.ProfileChoicesIff | dating_app/backend/middleware/validation.js:96-102 | gender passes exactly when absent or one of Nam, Nữ, Khác; lookingFor exactly when absent or one of Nam, Nữ, Tất cả |
| Validation.UpdateProfileSchemaIff | dating_app/backend/middleware/validation.js:59-103 | `updateProfileSchema` accepts exactly the bodies whose present keys meet their length, range, size and choice limits |
| Validation.SwipeSchemaIff | dating_app/backend/middleware/validation.js:105-117 | `swipeSchema` accepts exactly the bodies with a non-empty string `swipedUserId` and a boolean `isLike` |
| Validation.ValidateRequest | dating_app/backend/middleware/validation.js:120-198 | a refused body gets 400 "Validation failed" with the collected errors and is not forwarded; an accepted one replaces `req.body` with the validated value and calls `next()` |

## Left out

- Socket.IO transport, CORS and real delivery. Emits are recorded as outbound events, and who receives a room emit is a function of the socket records (`ChatModel.Delivery`).
- The wall-clock timestamp that `new_message` carries is left out. Firestore server timestamps and auto-generated ids are parameters (`now`, `newId`).
- `Auth.AuthService.Register` requires a fresh `newId`, as a Firestore auto id is.
- Concurrency: the model is sequential. Handlers do not interleave, and `FieldValue.increment` and batch commits are plain updates.
- Storage failures and the catch-and-log paths are not modelled. These are "Failed to join chat", "Failed to send message", the 500 "Internal server error" of register, login and verifyToken, and the swallowed errors of `markMessagesAsRead`.
  - Two such failures are modelled because they follow from state: an update of a missing user or match document leaves it unchanged, and logout of a missing user gives 500.
- The 503 "Database service unavailable" branch for an uninitialised Firebase is not modelled.
- JWT cryptography and expiry ('15m', '7d') are symbolic. A token verifies exactly under the key it was signed with, and expiry is not modelled.
- bcrypt's cipher is symbolic. Two passwords with the same 72 key bytes match each other's hashes, and the model assumes no other collisions. `Tokens.ShortPasswordsMatchExactly` is stated for passwords without NUL characters, because bcryptjs's cyclic key reading can make a password containing a NUL match a different one.
- The push notification for an offline receiver is a TODO in the code that only logs. The lookup is modelled; the notification is not.
- `sendNotificationToUser` and `initializeSocket`'s server set-up are transport only. So are the route files and the `authenticateToken` middleware; the latter is not part of this model, and `VerifyToken` and `Logout` take the user id it decodes.
- `socket.userData` is not used by any handler and is not kept.
- Malformed socket payloads are not modelled. For example, a `data` object without `matchId` would make `undefined === undefined` relay a typing event.
- Joi's `email()` format check, type coercion, unknown-key rejection and its default message texts are not modelled. Defaults are kept as Joi's error codes, and custom messages are exact.
- The four validation middlewares are one method, `Validation.ValidateRequest`, taking the schema as a parameter.
- Auth.RotationRejectsReplay: requires the new token to be issued in a different second from the one presented, because with whole-second issue times a same-second rotation reissues the same token (`Auth.SameSecondReplayAccepted`).
- ChatModel.MarkRead: its own contract only keeps the length; what it does to each message is stated by `ChatModel.MarkReadAt` and `ChatModel.MarkReadEffect`.
- Strings are sequences of Unicode scalar values. A JSON string holding a lone UTF-16 surrogate, such as `"\uD800x"` (JavaScript length 2), cannot be represented, so `Joi.Utf16Length` covers only well-formed strings.
