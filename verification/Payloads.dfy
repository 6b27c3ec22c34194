/** Payload contents. JSON itself is a parameter: what a payload parses to, and
    which bytes an object is dumped to. */
module Payloads {
  import opened Protocol
  import opened Rooms

  // `what` is the parser's own error text.
  datatype CreateRequest =
    | CreateMalformed(what: Bytes) | NoRoomName | NoMaxUsers | Create(roomName: string, maxUsers: int32)
  datatype JoinRequest = JoinMalformed(what: Bytes) | NoRoomCode | Join(roomCode: string)
  datatype NicknameRequest = NicknameMalformed(what: Bytes) | NoNickname | Nickname(nickname: string)

  datatype Chat = Chat(senderFd: int, senderIp: string, senderNickname: string, message: string, timestamp: string)

  // Why a request is refused, as text sent to the client.
  datatype Reason =
    | NO_ROOM_NAME | NO_MAX_USERS | NO_ROOM_LEFT
    | NO_ROOM_CODE | NO_CLIENT | ALREADY_IN_A_ROOM | CANNOT_JOIN
    | NOT_IN_A_ROOM
    | NO_NICKNAME | DUPLICATED_NICKNAME
    | PARSE_ERROR

  function Text(reason: Reason): (text: string) {
    match reason
    case NO_ROOM_NAME => "Invalid JSON format: missing 'roomName' field."
    case NO_MAX_USERS => "Invalid JSON format: missing 'maxUsers' field."
    case NO_ROOM_LEFT => "Failed to create room. Maximum room count reached."
    case NO_ROOM_CODE => "Invalid JSON format: missing 'roomCode' field."
    case NO_CLIENT => "Client not found."
    case ALREADY_IN_A_ROOM => "Already in another room. Please exit first."
    case CANNOT_JOIN => "Failed to join room. Room not found or full."
    case NOT_IN_A_ROOM => "Not in any room."
    case NO_NICKNAME => "Invalid JSON format: missing 'nickname' field."
    case DUPLICATED_NICKNAME => "Duplicated nickname."
    case PARSE_ERROR => "JSON parse error: "
  }

  datatype Codec = Codec(
    // the bytes of the server's own texts
    reasonText: Reason -> Bytes,
    // the server's readers; a chat payload that throws has no message
    create: Bytes -> CreateRequest,
    join: Bytes -> JoinRequest,
    nickname: Bytes -> NicknameRequest,
    message: Bytes -> Option<string>,
    // the server's writers
    roomCodeText: string -> Bytes,
    presenceText: (int, string) -> Bytes,
    chatText: Chat -> Bytes,
    // the client's readers: the "roomCode" field, or "" without one, and "sender_fd"
    roomCode: Bytes -> string,
    senderFd: Bytes -> int,
    // the client's writers
    createText: (string, int32) -> Bytes,
    joinText: string -> Bytes
  )

  /** The texts are the ones above. */
  ghost predicate Worded(codec: Codec) {
    forall reason :: codec.reasonText(reason) == Ascii(Text(reason))
  }

  lemma TextsAreShort(codec: Codec, reason: Reason)
    requires Worded(codec)
    ensures |codec.reasonText(reason)| <= 50
  {
    assert |Ascii(Text(reason))| == |Text(reason)|;
  }

  /** The objects built here are read back as they were written, and the reply
      with a room code fits a payload. */
  ghost predicate Faithful(codec: Codec) {
    && (forall code :: IsCode(code) ==>
          && 0 < |codec.roomCodeText(code)| <= MAX_PAYLOAD_SIZE
          && codec.roomCode(codec.roomCodeText(code)) == code)
    && (forall chat :: codec.senderFd(codec.chatText(chat)) == chat.senderFd)
  }
}
