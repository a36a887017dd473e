/** The tables, with the constraints the schema puts on them, and every repository call as one atomic step.
    `issued` remembers, for every profile and identity row id (and every generated user id) ever used, the user it
    belongs to: generated ids are never reused. */
module Store {
  import opened Text
  import opened Domain

  datatype Store = Store(users: map<Id, UserRow>, profiles: map<Id, ProfileRow>, identities: map<Id, IdentityRow>,
                         roles: map<Id, string>, issued: map<Id, Id>)

  /** What the outside world contributes to one call: whether it fails, and the id a generator would return. */
  datatype Answer = Answer(fails: bool, newId: Id)

  /* ---- reads ---- */

  function Pick<T>(table: map<Id, T>, ids: set<Id>): (r: Reply<T>)
    requires ids <= table.Keys
    ensures r.Ok? <==> ids != {}
    ensures r.Ok? ==> exists id :: id in ids && r.value == table[id]
    ensures r.Err? ==> r.error == NotFound
  {
    if ids == {} then Err(NotFound) else Ok(table[Least(ids)])
  }

  function ProfileIdsOf(s: Store, userId: Id): set<Id> {
    set k | k in s.profiles && s.profiles[k].userId == userId
  }

  function EmailIds(s: Store, email: string): set<Id> {
    set k | k in s.users && s.users[k].email == email
  }

  function LinkIds(s: Store, provider: Provider, providerUserId: string): set<Id> {
    set k | k in s.identities && s.identities[k].provider == provider && s.identities[k].providerUserId == providerUserId
  }

  function ProfileByUser(s: Store, userId: Id): Reply<ProfileRow> {
    Pick(s.profiles, ProfileIdsOf(s, userId))
  }

  function Preloaded(s: Store, row: UserRow): UserView {
    UserView(row, var p := ProfileByUser(s, row.id); if p.Ok? then Some(p.value) else None)
  }

  function UserById(s: Store, id: Id): Reply<UserView> {
    if id in s.users then Ok(Preloaded(s, s.users[id])) else Err(NotFound)
  }

  function UserByEmail(s: Store, email: string): Reply<UserView> {
    var r := Pick(s.users, EmailIds(s, email));
    if r.Ok? then Ok(Preloaded(s, r.value)) else Err(r.error)
  }

  function IdentityByLink(s: Store, provider: Provider, providerUserId: string): Reply<IdentityRow> {
    Pick(s.identities, LinkIds(s, provider, providerUserId))
  }

  /** A call that may fail before it does anything. */
  function Guarded<T>(a: Answer, r: Reply<T>): Reply<T> {
    if a.fails then Err(Unavailable) else r
  }

  /** The reads answer what they are asked: the row is there, has what was asked for, and comes first among those. */
  lemma ReadsAnswer(s: Store, id: Id, email: string, provider: Provider, pid: string)
    requires Consistent(s)
    ensures var r := UserById(s, id);
            if id in s.users then r.Ok? && r.value.row == s.users[id] && Shows(s, r.value) else r == Err(NotFound)
    ensures var r := UserByEmail(s, email);
            match r
            case Ok(user) => user.row.email == email && Shows(s, user) &&
                             forall k :: k in s.users && s.users[k].email == email ==> Leq(user.row.id, k)
            case Err(error) => error == NotFound && forall k :: k in s.users ==> s.users[k].email != email
    ensures var r := ProfileByUser(s, id);
            match r
            case Ok(p) => p.userId == id && p.id in s.profiles && s.profiles[p.id] == p
            case Err(error) => error == NotFound && forall k :: k in s.profiles ==> s.profiles[k].userId != id
    ensures var r := IdentityByLink(s, provider, pid);
            match r
            case Ok(i) => i.provider == provider && i.providerUserId == pid && i.id in s.identities && s.identities[i.id] == i
            case Err(error) => error == NotFound && forall k :: k in s.identities ==>
                                 s.identities[k].provider != provider || s.identities[k].providerUserId != pid
  {
    forall k | k in s.users && s.users[k].email == email ensures k in EmailIds(s, email) {}
    forall k | k in s.identities && s.identities[k].provider == provider && s.identities[k].providerUserId == pid
      ensures k in LinkIds(s, provider, pid) {}
    ProfileIsShown(s, id);
    if EmailIds(s, email) != {} { ProfileIsShown(s, Least(EmailIds(s, email))); }
  }

  /** A view shows a stored user with its stored profile, if it has one. */
  ghost predicate Shows(s: Store, view: UserView) {
    && view.row.id in s.users && s.users[view.row.id] == view.row
    && ShowsProfile(s, view.row.id, view.profile)
  }

  ghost predicate ShowsProfile(s: Store, userId: Id, profile: Option<ProfileRow>) {
    match profile
    case Some(p) => p.userId == userId && p.id in s.profiles && s.profiles[p.id] == p
    case None => forall k :: k in s.profiles ==> s.profiles[k].userId != userId
  }

  lemma ProfileIsShown(s: Store, userId: Id)
    requires Consistent(s)
    ensures var p := ProfileByUser(s, userId);
            ShowsProfile(s, userId, if p.Ok? then Some(p.value) else None) && (p.Err? ==> p.error == NotFound)
  {
    forall k | k in s.profiles && s.profiles[k].userId == userId ensures k in ProfileIdsOf(s, userId) {}
  }

  /* ---- writes ---- */

  function InsertUser(s: Store, row: UserRow, a: Answer): (Store, Reply<UserRow>) {
    var id := if row.id == "" then a.newId else row.id;
    if a.fails then (s, Err(Unavailable))
    else if id in s.users || (row.id == "" && id in s.issued) then (s, Err(Conflict))
    else
      var stored := row.(id := id);
      (s.(users := s.users[id := stored], issued := if row.id == "" then s.issued[id := id] else s.issued), Ok(stored))
  }

  /** Whole-row save of the given user. */
  function SaveUser(s: Store, row: UserRow, a: Answer): (Store, Reply<()>) {
    if a.fails then (s, Err(Unavailable)) else (s.(users := s.users[row.id := row]), Ok(()))
  }

  /** Profiles and identities go with their user (ON DELETE CASCADE). */
  function DeleteUser(s: Store, id: Id, a: Answer): (Store, Reply<()>) {
    if a.fails then (s, Err(Unavailable))
    else (s.(users := s.users - {id},
             profiles := map k | k in s.profiles && s.profiles[k].userId != id :: s.profiles[k],
             identities := map k | k in s.identities && s.identities[k].userId != id :: s.identities[k]),
          Ok(()))
  }

  function InsertProfile(s: Store, row: ProfileRow, a: Answer): (Store, Reply<ProfileRow>) {
    if a.fails then (s, Err(Unavailable))
    else if a.newId in s.issued || row.userId !in s.users || ProfileIdsOf(s, row.userId) != {} then (s, Err(Conflict))
    else
      var stored := row.(id := a.newId);
      (s.(profiles := s.profiles[a.newId := stored], issued := s.issued[a.newId := row.userId]), Ok(stored))
  }

  /** Whole-row save of the given profile. */
  function SaveProfile(s: Store, row: ProfileRow, a: Answer): (Store, Reply<()>) {
    if a.fails then (s, Err(Unavailable))
    else if row.userId !in s.users || !(ProfileIdsOf(s, row.userId) <= {row.id}) then (s, Err(Conflict))
    else (s.(profiles := s.profiles[row.id := row]), Ok(()))
  }

  predicate LinkTaken(s: Store, row: IdentityRow) {
    exists k :: k in s.identities && Clash(s.identities[k], row)
  }

  function InsertIdentity(s: Store, row: IdentityRow, a: Answer): (Store, Reply<IdentityRow>) {
    if a.fails then (s, Err(Unavailable))
    else if a.newId in s.issued || row.userId !in s.users || LinkTaken(s, row) then (s, Err(Conflict))
    else
      var stored := row.(id := a.newId);
      (s.(identities := s.identities[a.newId := stored], issued := s.issued[a.newId := row.userId]), Ok(stored))
  }

  /** Deletion by row id. */
  function DeleteIdentity(s: Store, id: Id, a: Answer): (Store, Reply<()>) {
    if a.fails then (s, Err(Unavailable)) else (s.(identities := s.identities - {id}), Ok(()))
  }

  function AssignRole(s: Store, userId: Id, role: string, a: Answer): (Store, Reply<()>) {
    if a.fails then (s, Err(Unavailable)) else (s.(roles := s.roles[userId := role]), Ok(()))
  }

  /* ---- consistency ---- */

  ghost predicate UniqueProfiles(s: Store) {
    forall j, k :: j in s.profiles && k in s.profiles && s.profiles[j].userId == s.profiles[k].userId ==> j == k
  }

  predicate Clash(i: IdentityRow, j: IdentityRow) {
    i.provider == j.provider && (i.providerUserId == j.providerUserId || i.userId == j.userId)
  }

  /** UNIQUE(provider, provider_user_id) and UNIQUE(user_id, provider). */
  ghost predicate UniqueLinks(s: Store) {
    forall j, k ::
      j in s.identities && k in s.identities && Clash(s.identities[j], s.identities[k]) ==> j == k
  }

  ghost predicate Consistent(s: Store) {
    && (forall k :: k in s.users ==> s.users[k].id == k)
    && (forall k :: k in s.profiles ==>
                      s.profiles[k].id == k && s.profiles[k].userId in s.users &&
                      k in s.issued && s.issued[k] == s.profiles[k].userId)
    && (forall k :: k in s.identities ==>
                      s.identities[k].id == k && s.identities[k].userId in s.users &&
                      k in s.issued && s.issued[k] == s.identities[k].userId)
    && UniqueProfiles(s)
    && UniqueLinks(s)
  }

  /** Ids keep their owner for ever, and an identity row, once gone, does not come back or change. */
  ghost predicate Evolves(s: Store, s': Store) {
    && (forall k :: k in s.issued ==> k in s'.issued && s'.issued[k] == s.issued[k])
    && (forall k :: k in s.issued && k in s'.identities ==> k in s.identities && s'.identities[k] == s.identities[k])
  }

  lemma InsertUserKeeps(s: Store, row: UserRow, a: Answer)
    requires Consistent(s)
    ensures Consistent(InsertUser(s, row, a).0) && Evolves(s, InsertUser(s, row, a).0)
  {
  }

  lemma SaveUserKeeps(s: Store, row: UserRow, a: Answer)
    requires Consistent(s)
    ensures Consistent(SaveUser(s, row, a).0) && Evolves(s, SaveUser(s, row, a).0)
  {
  }

  lemma DeleteUserKeeps(s: Store, id: Id, a: Answer)
    requires Consistent(s)
    ensures Consistent(DeleteUser(s, id, a).0) && Evolves(s, DeleteUser(s, id, a).0)
  {
  }

  lemma InsertProfileKeeps(s: Store, row: ProfileRow, a: Answer)
    requires Consistent(s)
    ensures Consistent(InsertProfile(s, row, a).0) && Evolves(s, InsertProfile(s, row, a).0)
  {
    var (s', r) := InsertProfile(s, row, a);
    if r.Ok? {
      assert forall k :: k in s.profiles && s.profiles[k].userId == row.userId ==> k in ProfileIdsOf(s, row.userId);
    }
  }

  lemma SaveProfileKeeps(s: Store, row: ProfileRow, a: Answer)
    requires Consistent(s)
    requires row.id in s.issued && s.issued[row.id] == row.userId
    ensures Consistent(SaveProfile(s, row, a).0) && Evolves(s, SaveProfile(s, row, a).0)
  {
    var (s', r) := SaveProfile(s, row, a);
    if r.Ok? {
      forall k | k in s.profiles && s.profiles[k].userId == row.userId ensures k == row.id {
        assert k in ProfileIdsOf(s, row.userId);
      }
    }
  }

  lemma InsertIdentityKeeps(s: Store, row: IdentityRow, a: Answer)
    requires Consistent(s)
    ensures Consistent(InsertIdentity(s, row, a).0) && Evolves(s, InsertIdentity(s, row, a).0)
  {
  }

  lemma DeleteIdentityKeeps(s: Store, id: Id, a: Answer)
    requires Consistent(s)
    ensures Consistent(DeleteIdentity(s, id, a).0) && Evolves(s, DeleteIdentity(s, id, a).0)
  {
  }
}
