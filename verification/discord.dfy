/** The parts of the chat platform's records that the checks read, and the
    JuiceboxDAO server's role ids. */
module Discord {

  const ContributorRoleId: string := "865459358434590740"
  const AdminRoleId: string := "864238986456989697"
  const AlumniRoleId: string := "1091786430046552097"

  datatype User = User(id: string, username: string, globalName: string, bot: bool)

  /** A guild member. `avatarUrl` is the member's `AvatarURL("256")`; `mute`
      is the platform's mute flag. */
  datatype Member = Member(user: User, nick: string, roles: seq<string>, mute: bool, avatarUrl: string)

  /** A created message with its author and the author's guild membership.
      `recentlyJoined` stands for "the author joined at most seven days ago",
      which the handlers compute from the clock. */
  datatype MessageCreate = MessageCreate(author: User, member: Member, recentlyJoined: bool, channelId: string, content: string)

  /** The role loop of the handlers: some role of the member is one of `wanted`. */
  predicate HoldsAnyRole(roles: seq<string>, wanted: set<string>) {
    exists r :: r in roles && r in wanted
  }
}
