/**
 * The message-level records shared by the chat client and its API
 * (src/lib/interface.ts). Optional TypeScript properties become Option fields.
 * Only MediaItem, MediaType and User are used by the components modelled here.
 */
module Interface {
  import opened Wrappers

  /** `'audio' | 'image' | 'video' | 'file'` */
  datatype MediaType = Audio | Image | Video | File

  datatype MediaItem = MediaItem(
    mediaType: MediaType,
    url: string,
    fileName: Option<string>,
    fileSize: Option<nat>,
    duration: Option<int>,
    width: Option<int>,
    height: Option<int>)

  datatype ReadByUser = ReadByUser(userId: int, readAt: string)

  /** The legacy `sender` field. */
  datatype Side = Me | Other

  datatype Message = Message(
    id: string,
    roomId: int,
    senderId: int,
    senderName: string,
    senderImageUrl: Option<string>,
    text: Option<string>,
    media: seq<MediaItem>,
    readBy: seq<ReadByUser>,
    createdAt: string,
    updatedAt: Option<string>,
    isDeleted: Option<bool>,
    deletedAt: Option<string>,
    sender: Option<Side>,
    time: Option<string>,
    username: Option<string>)

  datatype FriendshipStatus = NoFriendship | Pending | Accepted | Blocked

  datatype UserSetting = UserSetting(
    nickname: Option<string>,
    imageUrl: Option<string>,
    isSpecial: bool,
    isTest: bool,
    enableNotifications: bool,
    enableSummary: bool,
    isOnline: Option<bool>,
    lastSeenAt: Option<string>)

  datatype User = User(
    id: int,
    name: string,
    email: string,
    phone: Option<string>,
    setting: Option<UserSetting>,
    createdAt: Option<string>,
    friendshipStatus: Option<FriendshipStatus>)
}
