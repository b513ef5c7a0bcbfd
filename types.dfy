/** The entity shapes of the chat: users, channels, messages and the
    application configuration. Instants (`joinedAt`, `timestamp`,
    `muteUntil`) are milliseconds since the epoch, as `Date.now()` gives them.
    Optional record fields are `Option`s: `None` is the field being absent. */
module Types {

  datatype Option<+T> = None | Some(value: T) {
    /** The value, or `default` when absent (the source's `x || default`
        for fields whose only falsy value is absence or the default itself). */
    function GetOr(default: T): T {
      match this
      case Some(v) => v
      case None => default
    }
  }

  datatype Role = Admin | Mod | Vip | Member | Bot

  datatype UserStatus = Online | Away | Busy | Offline

  datatype User = User(
    id: string,
    name: string,
    avatar: string,
    role: Role,
    status: UserStatus,
    xp: int,
    level: int,
    joinedAt: int,
    isMuted: Option<bool>,
    muteUntil: Option<int>)

  datatype ChannelType = Public | Private | BotOnly

  datatype Channel = Channel(
    id: string,
    name: string,
    kind: ChannelType,
    description: Option<string>)

  datatype MessageType = Text | Image | System | CommandResponse

  datatype Message = Message(
    id: string,
    channelId: string,
    userId: string,
    content: string,
    timestamp: int,
    kind: MessageType,
    isDeleted: Option<bool>)

  datatype AppConfig = AppConfig(
    allowGifs: bool,
    slowMode: bool,
    slowModeDuration: int,
    maintenanceMode: bool)

  /** A `Partial<User>`: each present field overrides the user's. */
  datatype UserUpdate = UserUpdate(
    id: Option<string>,
    name: Option<string>,
    avatar: Option<string>,
    role: Option<Role>,
    status: Option<UserStatus>,
    xp: Option<int>,
    level: Option<int>,
    joinedAt: Option<int>,
    isMuted: Option<bool>,
    muteUntil: Option<int>)

  /** A `Partial<AppConfig>`. */
  datatype ConfigUpdate = ConfigUpdate(
    allowGifs: Option<bool>,
    slowMode: Option<bool>,
    slowModeDuration: Option<int>,
    maintenanceMode: Option<bool>)
}
