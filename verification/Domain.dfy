/** Entities of the user service: the rows the database keeps, and the objects the code updates in place. */
module Domain {
  import opened Text

  type Id = string

  /** The status text: one of the four defined ones, or any other text. */
  datatype Status = NewUser | Active | Inactive | Blocked | OtherStatus(text: string)

  datatype Provider = Google | GitHub | OtherProvider(name: string)

  datatype Error =
    | InvalidPayload | IdRequired | InvalidEmail | PasswordTooShort | InvalidStatus | RoleRequired
    | UserExists | EmailInUse | RbacMissing | UnsupportedProvider | EmailMismatch | LinkedToOther | NotOwner
    | NotFound      // gorm.ErrRecordNotFound
    | Conflict      // a key or foreign-key constraint refused the write
    | Unavailable   // the call itself failed

  datatype Reply<+T> = Ok(value: T) | Err(error: Error)

  datatype UserRow = UserRow(id: Id, email: string, status: Status, isActive: bool)
  datatype ProfileRow = ProfileRow(id: Id, userId: Id, displayName: Option<string>, avatarFileId: Option<string>)
  datatype IdentityRow = IdentityRow(id: Id, userId: Id, provider: Provider, providerUserId: string,
                                     email: string, displayName: Option<string>, avatarUrl: Option<string>)

  /** A user together with its preloaded profile. */
  datatype UserView = UserView(row: UserRow, profile: Option<ProfileRow>)

  predicate IsValid(s: Status) {
    s == Active || s == Inactive || s == Blocked || s == NewUser
  }

  /** Exactly the four defined statuses and the two known providers pass. */
  lemma ValidOnes(s: Status, p: Provider)
    ensures IsValid(s) <==> !s.OtherStatus?
    ensures IsValidProvider(p) <==> !p.OtherProvider?
  {
  }

  predicate IsValidProvider(p: Provider) {
    p == Google || p == GitHub
  }

  function WithStatus(row: UserRow, status: Status): UserRow
    requires IsValid(status)
  {
    row.(status := status, isActive := status == Active || status == NewUser)
  }

  /** Status and activity flag agree. */
  predicate Sound(row: UserRow) {
    IsValid(row.status) && (row.isActive <==> row.status in {Active, NewUser})
  }

  function StatusOrDefault(row: UserRow): (s: Status)
    ensures IsValid(s)
    ensures Sound(row) ==> s == row.status
    ensures !IsValid(row.status) ==> (s == NewUser <==> row.isActive)
  {
    if IsValid(row.status) then row.status else if row.isActive then NewUser else Inactive
  }

  /** What a requested text field becomes: trimmed, and absent when blank. */
  function Cleaned(text: string): Option<string> {
    var t := TrimSpace(text);
    if t == "" then None else Some(t)
  }

  function Updated(p: ProfileRow, displayName: Option<string>, avatarFileId: Option<string>): ProfileRow {
    p.(displayName := if displayName.Some? then Cleaned(displayName.value) else p.displayName,
       avatarFileId := if avatarFileId.Some? then Cleaned(avatarFileId.value) else p.avatarFileId)
  }

  /** A text field after a request: one not given stays; a given text is stored trimmed, or not at all when blank. */
  predicate FieldAfter(given: Option<string>, before: Option<string>, after: Option<string>) {
    match given
    case None => after == before
    case Some(text) =>
      (after == None <==> TrimSpace(text) == "") && (after.Some? ==> after.value == TrimSpace(text))
  }

  /** The row after a request for these fields. */
  predicate Edited(before: ProfileRow, after: ProfileRow, displayName: Option<string>, avatarFileId: Option<string>) {
    && after.id == before.id && after.userId == before.userId
    && FieldAfter(displayName, before.displayName, after.displayName)
    && FieldAfter(avatarFileId, before.avatarFileId, after.avatarFileId)
  }

  /** `Updated` computes the one row that such a request may leave. */
  lemma UpdatedIsTheEdit(before: ProfileRow, after: ProfileRow, displayName: Option<string>, avatarFileId: Option<string>)
    ensures Edited(before, after, displayName, avatarFileId) <==> after == Updated(before, displayName, avatarFileId)
  {
  }

  class UserProfile {
    var id: Id
    var userId: Id
    var displayName: Option<string>
    var avatarFileId: Option<string>
    var avatarUrl: Option<string>  // never stored

    constructor (row: ProfileRow)
      ensures Row() == row && avatarUrl == None
    {
      id, userId, displayName, avatarFileId, avatarUrl :=
        row.id, row.userId, row.displayName, row.avatarFileId, None;
    }

    function Row(): ProfileRow
      reads this
    {
      ProfileRow(id, userId, displayName, avatarFileId)
    }

    method Update(displayName: Option<string>, avatarFileId: Option<string>)
      modifies this
      ensures Row() == Updated(old(Row()), displayName, avatarFileId)
      ensures Edited(old(Row()), Row(), displayName, avatarFileId)
      ensures avatarUrl == if avatarFileId.Some? then None else old(avatarUrl)
    {
      if displayName.Some? {
        var name := TrimSpace(displayName.value);
        this.displayName := if name == "" then None else Some(name);
      }
      if avatarFileId.Some? {
        var fileId := TrimSpace(avatarFileId.value);
        this.avatarFileId := if fileId == "" then None else Some(fileId);
        avatarUrl := None;
      }
    }

    /** Neither the profile nor the resolver has to be there. */
    static method WithAvatarURL(p: UserProfile?, resolver: Option<string -> string>)
      modifies if p == null then {} else {p}`avatarUrl
      ensures p != null ==>
                p.avatarUrl == if resolver.Some? && p.avatarFileId.Some? && TrimSpace(p.avatarFileId.value) != ""
                               then Some(resolver.value(TrimSpace(p.avatarFileId.value)))
                               else old(p.avatarUrl)
    {
      if p == null || p.avatarFileId.None? || resolver.None? {
        return;
      }
      var fileId := TrimSpace(p.avatarFileId.value);
      if fileId == "" {
        return;
      }
      p.avatarUrl := Some(resolver.value(fileId));
    }
  }

  class User {
    var id: Id
    var email: string
    var status: Status
    var isActive: bool
    var profile: UserProfile?

    constructor (row: UserRow, profile: UserProfile?)
      ensures Row() == row && this.profile == profile
    {
      id, email, status, isActive := row.id, row.email, row.status, row.isActive;
      this.profile := profile;
    }

    function Row(): UserRow
      reads this
    {
      UserRow(id, email, status, isActive)
    }

    function View(): UserView
      reads this, profile
    {
      UserView(Row(), if profile == null then None else Some(profile.Row()))
    }

    method SetStatus(status: Status) returns (err: Option<Error>)
      modifies this`status, this`isActive
      ensures err == if IsValid(status) then None else Some(InvalidStatus)
      ensures Row() == if IsValid(status) then WithStatus(old(Row()), status) else old(Row())
      ensures err.None? ==> Sound(Row())
    {
      if !IsValid(status) {
        return Some(InvalidStatus);
      }
      this.status := status;
      isActive := status == Active || status == NewUser;
      return None;
    }

    method Activate()
      modifies this`status, this`isActive
      ensures Row() == WithStatus(old(Row()), Active)
    {
      var _ := SetStatus(Active);
    }

    method Deactivate()
      modifies this`status, this`isActive
      ensures Row() == WithStatus(old(Row()), Inactive)
    {
      var _ := SetStatus(Inactive);
    }

    method Block()
      modifies this`status, this`isActive
      ensures Row() == WithStatus(old(Row()), Blocked)
    {
      var _ := SetStatus(Blocked);
    }
  }
}
