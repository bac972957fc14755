/** The current-user hook: the simulated load and the partial update merge. */
module CurrentUser {
  import opened Wrappers

  /** The signed-in user; `joinedAt` in milliseconds. */
  datatype User = User(id: string, name: string, email: string, avatar: Option<string>, joinedAt: int)

  /** A `Partial<User>`: a field is either not supplied (None) or supplied with its new value. */
  datatype UserPatch = UserPatch(
    id: Option<string>, name: Option<string>, email: Option<string>, avatar: Option<Option<string>>, joinedAt: Option<int>)

  const NoChange: UserPatch := UserPatch(None, None, None, None, None)

  const MockUser: User := User("1", "John Doe", "john.doe@example.com", Some("JD"), 1704067200000)

  /** The hook's state slots. */
  datatype UserState = UserState(user: Option<User>, loading: bool)

  /** Before the load: no user, and loading. */
  const Initial: UserState := UserState(None, true)

  /** The load timer's completion: the mock user, and loading done. */
  function Loaded(s: UserState): (r: UserState)
    ensures r == UserState(Some(MockUser), false)
  {
    UserState(Some(MockUser), false)
  }

  /** `{ ...user, ...patch }`: every supplied field replaced, every other kept. */
  function Merge(u: User, p: UserPatch): (r: User)
    ensures r.id == (if p.id.Some? then p.id.value else u.id)
    ensures r.name == (if p.name.Some? then p.name.value else u.name)
    ensures r.email == (if p.email.Some? then p.email.value else u.email)
    ensures r.avatar == (if p.avatar.Some? then p.avatar.value else u.avatar)
    ensures r.joinedAt == (if p.joinedAt.Some? then p.joinedAt.value else u.joinedAt)
  {
    User(p.id.GetOr(u.id), p.name.GetOr(u.name), p.email.GetOr(u.email), p.avatar.GetOr(u.avatar),
         p.joinedAt.GetOr(u.joinedAt))
  }

  /** `updateUser`: nothing while there is no user, otherwise the merge. */
  function UpdateUser(s: UserState, p: UserPatch): (r: UserState)
    ensures s.user.None? ==> r == s
    ensures s.user.Some? ==> r == s.(user := Some(Merge(s.user.value, p)))
  {
    match s.user
    case None => s
    case Some(u) => s.(user := Some(Merge(u, p)))
  }

  /** The patch applying `q` over `p`: `q`'s supplied fields win. */
  function Then(p: UserPatch, q: UserPatch): UserPatch {
    UserPatch(if q.id.Some? then q.id else p.id, if q.name.Some? then q.name else p.name,
              if q.email.Some? then q.email else p.email, if q.avatar.Some? then q.avatar else p.avatar,
              if q.joinedAt.Some? then q.joinedAt else p.joinedAt)
  }

  /** An empty patch changes nothing; updating twice is one update with the
      later values winning; the same update twice is the update once. */
  lemma MergeLaws(u: User, p: UserPatch, q: UserPatch)
    ensures Merge(u, NoChange) == u
    ensures Merge(Merge(u, p), q) == Merge(u, Then(p, q))
    ensures Merge(Merge(u, p), p) == Merge(u, p)
  {
  }

  /** Before the load finishes, updates are lost; after it, they apply to the mock user. */
  lemma UpdateBeforeAndAfterLoad(p: UserPatch)
    ensures UpdateUser(Initial, p) == Initial
    ensures UpdateUser(Loaded(Initial), p) == UserState(Some(Merge(MockUser, p)), false)
  {
  }
}
