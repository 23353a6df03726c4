/**
 * Value types of the Repeater plugin: the per-message record kept in a chat's
 * window, the identifiers needed to revoke an echo, the plugin settings, the
 * inbound event and the outbound requests the plugin makes of the transport.
 */
module Records {

  datatype Option<T> = None | Some(value: T)

  /** One entry of a chat's window: the record built for every processed message. */
  datatype Message = Message(
    content: string,      // the content key: stripped text, or "emoji:" + md5 for a sticker
    senderWxid: string,
    timestamp: int,       // receipt time, whole seconds
    newMsgId: int,        // the transport's id of the inbound message (0 when absent)
    isEmoji: bool)

  /** The three identifiers the transport needs to revoke the bot's echo. */
  datatype RevokeInfo = RevokeInfo(msgId: int, createTime: int, newMsgId: int)

  /** The value of one chat session. */
  datatype SessionState = SessionState(
    messages: seq<Message>,                  // the window, oldest first
    maxHistory: int,
    repeatedContents: set<string>,           // contents already echoed
    repeatedMsgs: map<string, RevokeInfo>)   // content -> how to revoke its echo

  /** The parsed settings of the plugin. */
  datatype Config = Config(
    enable: bool,
    cacheTimeout: int,
    enableInGroup: bool,
    enableInPrivate: bool,
    maxHistory: int,
    minRepeatCount: int,
    minDifferentUsers: int)

  /** An inbound text, quote, mention or sticker event, already decoded. */
  datatype Inbound = Inbound(
    isGroup: bool,
    fromWxid: string,     // the chat: a group id or the peer of a private chat
    senderWxid: string,
    newMsgId: int,
    content: string,      // the content key
    isEmoji: bool,
    emojiMd5: string,
    emojiLength: int)

  /** A send the plugin asks the transport to perform. */
  datatype Outbound =
    | SendText(toWxid: string, text: string)
    | SendEmoji(toWxid: string, md5: string, length: int)

  /** A revoke the plugin asks the transport to perform. */
  datatype RevokeRequest = RevokeRequest(toWxid: string, info: RevokeInfo)
}
