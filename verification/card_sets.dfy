/** The persisted records the pages and the API share: users, games and card sets. */
module CardSets {
  import opened Wrappers

  datatype Game = Game(id: int, name: string)

  /** A `User` row, password hash included; timestamps are abstract instants. */
  datatype User = User(
    id: int,
    username: string,
    email: string,
    password: string,
    displayName: Option<string>,
    bio: Option<string>,
    avatarUrl: Option<string>,
    createdAt: int,
    updatedAt: int)

  /** A `CardSet` row with its optional `game` relation. */
  datatype CardSet = CardSet(
    id: int,
    title: string,
    description: string,
    imageUrl: string,
    category: string,
    userId: int,
    game: Option<Game>,
    createdAt: int)

  /** A user as the API returns it: every column but the password hash. */
  datatype PublicUser = PublicUser(
    id: int,
    username: string,
    email: string,
    displayName: Option<string>,
    bio: Option<string>,
    avatarUrl: Option<string>,
    createdAt: int,
    updatedAt: int)

  /** The user as returned to the client: the row with its password hash removed. */
  function WithoutPassword(u: User): (r: PublicUser)
    ensures r.id == u.id && r.username == u.username && r.email == u.email
    ensures r.displayName == u.displayName && r.bio == u.bio && r.avatarUrl == u.avatarUrl
    ensures r.createdAt == u.createdAt && r.updatedAt == u.updatedAt
  {
    PublicUser(u.id, u.username, u.email, u.displayName, u.bio, u.avatarUrl, u.createdAt, u.updatedAt)
  }

  /** The column names of a `User` row. */
  const UserColumns: set<string> :=
    {"id", "username", "email", "password", "displayName", "bio", "avatarUrl", "createdAt", "updatedAt"}
}
