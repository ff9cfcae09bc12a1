/**
 * The session record kept by the registry, and the identifier types it is
 * built from.  Twilight's `Id<T>` is a non-zero u64; the marker type is kept
 * only in the names of the synonyms below.
 */
module Models {
  import opened Wrappers
  import opened Primitives

  type Id = x: int | 0 < x < 0x1_0000_0000_0000_0000 witness 1

  type GuildId = Id
  type ChannelId = Id
  type MessageId = Id
  type UserId = Id
  type RoleId = Id

  /** A UUID is sixteen bytes; `Text`'s hexadecimal writer gives its hyphenated form. */
  type Uuid = b: seq<u8> | |b| == 16 witness [0, 0, 0, 0, 0, 0, 0, 0, 0, 0, 0, 0, 0, 0, 0, 0]

  /**
   * An instant.  Calendar arithmetic is not modelled: the renderer only ever
   * writes an instant out, so it is carried as the text its `Display` yields.
   */
  datatype Timestamp = Timestamp(display: DisplayText)

  /** Text on one line, as chrono's `Display` of an instant is. */
  type DisplayText = t: string | '\n' !in t witness ""

  /**
   * One LFG session.  `uuid` and `facadeTag` are not declared by the record
   * in models.rs but are read by the renderer, so the record carries them.
   */
  datatype LFGSession = LFGSession(
    guild: GuildId,
    channel: ChannelId,
    originalMessage: MessageId,
    replyMessage: Option<MessageId>,
    author: UserId,
    initialTag: RoleId,
    participants: seq<UserId>,
    addedParticipants: seq<UserId>,
    excludedParticipants: seq<UserId>,
    interestedParticipants: seq<UserId>,
    initialNumber: u8,
    requiredNumber: u8,
    expiry: Timestamp,
    uuid: Uuid,
    facadeTag: RoleId)
}
