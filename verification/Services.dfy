/** The request code itself, call by call, with its objects updated in place.  Each method is proved to leave the tables
    and to reply as `Sequential` says, for every sequence of answers from the outside world. */
module Services {
  import opened Text
  import opened Domain
  import opened Store
  import opened Requests
  import opened Sequential
  import opened Repositories

  function UserReply(user: User?, err: Option<Error>): Reply<UserView>
    requires err.None? ==> user != null
    reads user, if user == null then null else user.profile
  {
    if err.Some? then Err(err.value) else Ok(user.View())
  }

  class CreateUserHandler {
    const db: Database

    constructor (db: Database)
      ensures this.db == db
    {
      this.db := db;
    }

    method Handle(payload: Option<Payload>) returns (reply: HandleReply)
      modifies db
      ensures match Start(Deliver(payload))
              case Handling(id, email, HFind) =>
                HandleRun(old(db.tables), id, email, db.env, old(db.calls)) == (db.tables, reply, db.calls)
              case Handling(_, _, HDone(refusal)) =>
                reply == refusal && db.tables == old(db.tables) && db.calls == old(db.calls)
    {
      if payload.None? {
        return Rejected(InvalidPayload);
      }
      var req := payload.value;
      if TrimSpace(req.id) == "" {
        return Rejected(IdRequired);
      }
      reply := CreateOnce(req.id, req.email);
    }

    /** `Handle` past its validation: find, insert, find again. */
    method CreateOnce(id: Id, email: string) returns (reply: HandleReply)
      requires id != ""
      modifies db
      ensures HandleRun(old(db.tables), id, email, db.env, old(db.calls)) == (db.tables, reply, db.calls)
    {
      var existing, err := db.FindUserById(id);
      if err.None? {
        return Replayed;
      } else if err != Some(NotFound) {
        return Rejected(err.value);
      }
      reply := InsertOnce(id, email);
    }

    /** The rest of `Handle`: the insert, then the profile, or a second look when the insert is refused. */
    method InsertOnce(id: Id, email: string) returns (reply: HandleReply)
      requires id != ""
      modifies db
      ensures InsertRun(old(db.tables), id, email, db.env, old(db.calls)) == (db.tables, reply, db.calls)
    {
      var user := new User(UserRow(id, "", OtherStatus(""), false), null);
      var err := user.SetStatus(NewUser);
      if err.Some? {
        return Rejected(InvalidStatus);
      }
      user.email := TrimSpace(email);
      err := db.CreateUser(user);
      if err.Some? {
        var found, findErr := db.FindUserById(id);
        return if findErr.None? && found != null then Replayed else Rejected(err.value);
      }
      assert user.id == id;
      var profile := new UserProfile(ProfileRow("", user.id, None, None));
      var profileErr := db.CreateProfile(profile);
      return Created(profileErr.None?);
    }
  }

  class UserManageService {
    const db: Database
    const hasRbac: bool

    constructor (db: Database, hasRbac: bool)
      ensures this.db == db && this.hasRbac == hasRbac
    {
      this.db, this.hasRbac := db, hasRbac;
    }

    method CreateUser(req: CreateUserRequest) returns (user: User?, err: Option<Error>)
      modifies db
      ensures err.None? ==> user != null
      ensures match StartCreate(req, hasRbac)
              case CFind(d) =>
                CreateRun(old(db.tables), d, db.env, old(db.calls)) == (db.tables, UserReply(user, err), db.calls)
              case CDone(refusal) =>
                UserReply(user, err) == refusal && db.tables == old(db.tables) && db.calls == old(db.calls)
              case _ => false
    {
      var email := ToLower(TrimSpace(req.email));
      if !ValidEmail(email) {
        return null, Some(InvalidEmail);
      }
      if !ValidPassword(req.password) {
        return null, Some(PasswordTooShort);
      }
      var status := req.status;
      if status == OtherStatus("") {
        status := Active;
      }
      if !IsValid(status) {
        return null, Some(InvalidStatus);
      }
      var role := TrimSpace(req.role);
      if role == "" {
        return null, Some(RoleRequired);
      }
      user, err := CreateDraft(Draft(email, status, role, req.displayName, req.avatarFileId, hasRbac));
    }

    /** `CreateUser` once the request is valid, beginning with the duplicate check. */
    method CreateDraft(d: Draft) returns (user: User?, err: Option<Error>)
      requires d.hasRbac == hasRbac
      modifies db
      ensures err.None? ==> user != null
      ensures CreateRun(old(db.tables), d, db.env, old(db.calls)) == (db.tables, UserReply(user, err), db.calls)
    {
      var existing, findErr := db.FindUserByEmail(d.email);
      if findErr.None? {
        return null, Some(UserExists);
      } else if findErr != Some(NotFound) {
        return null, findErr;
      }
      user, err := InsertDraft(d);
    }

    /** The email is free: hash, user row, and the rest. */
    method InsertDraft(d: Draft) returns (user: User?, err: Option<Error>)
      requires d.hasRbac == hasRbac
      modifies db
      ensures err.None? ==> user != null
      ensures DraftRun(old(db.tables), d, db.env, old(db.calls)) == (db.tables, UserReply(user, err), db.calls)
    {
      err := db.HashPassword();
      if err.Some? {
        return null, err;
      }
      user := new User(UserRow("", d.email, OtherStatus(""), false), null);
      err := user.SetStatus(d.status);
      if err.Some? {
        return null, err;
      }
      err := db.CreateUser(user);
      if err.Some? {
        return null, err;
      }
      err := CompleteUser(d, user);
    }

    /** The rest of `CreateUser`: profile and role, each undone by deleting the user when it fails. */
    method CompleteUser(d: Draft, user: User) returns (err: Option<Error>)
      requires d.hasRbac == hasRbac
      modifies db, user`profile
      ensures user.Row() == old(user.Row())
      ensures CompleteRun(old(db.tables), d, user.Row(), db.env, old(db.calls)) ==
              (db.tables, UserReply(user, err), db.calls)
    {
      var profile := new UserProfile(ProfileRow("", user.id, d.displayName, d.avatarFileId));
      err := db.CreateProfile(profile);
      if err.Some? {
        var _ := db.DeleteUserById(user.id);
        return;
      }
      if !hasRbac {
        var _ := db.DeleteUserById(user.id);
        return Some(RbacMissing);
      }
      err := db.AssignRoleTo(user.id, d.role);
      if err.Some? {
        var _ := db.DeleteUserById(user.id);
        return;
      }
      user.profile := profile;
    }

    method UpdateUser(userId: Id, req: UpdateUserRequest) returns (user: User?, err: Option<Error>)
      modifies db
      ensures err.None? ==> user != null
      ensures UpdateRun(old(db.tables), userId, req, db.env, old(db.calls)) == (db.tables, UserReply(user, err), db.calls)
    {
      user, err := LoadWithEmail(userId, req);
      if err.Some? {
        return;
      }
      err := Amend(userId, req, user);
    }

    /** The first part of `UpdateUser`: load the user and take over the requested email if it is free. */
    method LoadWithEmail(userId: Id, req: UpdateUserRequest) returns (user: User?, err: Option<Error>)
      modifies db`calls
      ensures err.None? ==> user != null && fresh(user)
      ensures AddressRun(db.tables, userId, req, db.env, old(db.calls)) == (UserReply(user, err), db.calls)
    {
      user, err := db.FindUserById(userId);
      if err.Some? || req.email.None? {
        return;
      }
      var email := ToLower(TrimSpace(req.email.value));
      if !ValidEmail(email) {
        return null, Some(InvalidEmail);
      }
      var existing, findErr := db.FindUserByEmail(email);
      if findErr.Some? && findErr != Some(NotFound) {
        return null, findErr;
      }
      if existing != null && existing.id != userId {
        return null, Some(EmailInUse);
      }
      user.email := email;
    }

    /** The second part of `UpdateUser`: the password, then the rest. */
    method Amend(userId: Id, req: UpdateUserRequest, user: User) returns (err: Option<Error>)
      modifies db, user`profile
      ensures AmendRun(old(db.tables), userId, req, old(user.View()), db.env, old(db.calls)) ==
              (db.tables, UserReply(user, err), db.calls)
    {
      if req.password.Some? {
        if !ValidPassword(req.password.value) {
          return Some(PasswordTooShort);
        }
        err := db.HashPassword();
        if err.Some? {
          return;
        }
      }
      err := Edit(userId, req, user);
    }

    /** The end of `UpdateUser`: profile and final save. */
    method Edit(userId: Id, req: UpdateUserRequest, user: User) returns (err: Option<Error>)
      modifies db, user`profile
      ensures EditRun(old(db.tables), userId, req, old(user.View()), db.env, old(db.calls)) ==
              (db.tables, UserReply(user, err), db.calls)
    {
      if req.displayName.Some? || req.avatarFileId.Some? {
        var profile, findErr := db.FindProfileByUser(userId);
        if findErr.Some? {
          return findErr;
        }
        profile.Update(req.displayName, req.avatarFileId);
        err := db.UpdateProfile(profile);
        if err.Some? {
          return;
        }
        user.profile := profile;
      }
      err := db.UpdateUser(user);
    }

    method ChangeStatus(userId: Id, status: Status) returns (user: User?, err: Option<Error>)
      modifies db
      ensures err.None? ==> user != null
      ensures StatusRun(old(db.tables), userId, status, db.env, old(db.calls)) == (db.tables, UserReply(user, err), db.calls)
    {
      user, err := db.FindUserById(userId);
      if err.Some? {
        return;
      }
      err := user.SetStatus(status);
      if err.Some? {
        return null, err;
      }
      err := db.UpdateUser(user);
    }

    method ChangeRole(userId: Id, role: string) returns (err: Option<Error>)
      modifies db
      ensures match Start(Request.ChangeRole(userId, role, hasRbac))
              case Granting(_, trimmed, RFind) =>
                RoleRun(old(db.tables), userId, trimmed, db.env, old(db.calls)) ==
                (db.tables, ReplyWith(err, ()), db.calls)
              case Granting(_, _, RDone(refusal)) =>
                ReplyWith(err, ()) == refusal && db.tables == old(db.tables) && db.calls == old(db.calls)
    {
      var trimmed := TrimSpace(role);
      if trimmed == "" {
        return Some(RoleRequired);
      }
      if !hasRbac {
        return Some(RbacMissing);
      }
      var user;
      user, err := db.FindUserById(userId);
      if err.Some? {
        return;
      }
      err := db.AssignRoleTo(userId, trimmed);
    }
  }

  class UserService {
    const db: Database

    constructor (db: Database)
      ensures this.db == db
    {
      this.db := db;
    }

    method UpdateProfile(userId: Id, displayName: Option<string>) returns (profile: UserProfile?, err: Option<Error>)
      modifies db
      ensures err.None? ==> profile != null
      ensures ProfileRun(old(db.tables), userId, displayName, None, db.env, old(db.calls)) ==
              (db.tables, if err.Some? then Err(err.value) else Ok(profile.Row()), db.calls)
    {
      profile, err := db.FindProfileByUser(userId);
      if err.Some? {
        return;
      }
      profile.Update(displayName, None);
      err := db.UpdateProfile(profile);
    }

    method SetAvatarFileID(userId: Id, avatarFileId: string) returns (profile: UserProfile?, err: Option<Error>)
      modifies db
      ensures err.None? ==> profile != null
      ensures ProfileRun(old(db.tables), userId, None, Some(avatarFileId), db.env, old(db.calls)) ==
              (db.tables, if err.Some? then Err(err.value) else Ok(profile.Row()), db.calls)
    {
      profile, err := db.FindProfileByUser(userId);
      if err.Some? {
        return;
      }
      profile.Update(None, Some(avatarFileId));
      err := db.UpdateProfile(profile);
    }

    method AttachIdentity(l: LinkRequest) returns (r: Reply<Linked>)
      modifies db
      ensures match Start(Attach(l))
              case Attaching(_, AFind) =>
                AttachRun(old(db.tables), l, db.env, old(db.calls)) == (db.tables, r, db.calls)
              case Attaching(_, ADone(refusal)) =>
                r == refusal && db.tables == old(db.tables) && db.calls == old(db.calls)
    {
      if !IsValidProvider(l.provider) {
        return Err(UnsupportedProvider);
      }
      var user, err := db.FindUserById(l.userId);
      if err.Some? {
        return Err(err.value);
      }
      if !EqualFold(user.email, l.email) {
        return Err(EmailMismatch);
      }
      var existing := db.FindIdentity(l.provider, l.providerUserId);
      if existing.Ok? {
        if existing.value.userId != l.userId {
          return Err(LinkedToOther);
        }
        return Ok((existing.value, user.View().profile));
      }
      var identity := IdentityRow("", l.userId, l.provider, l.providerUserId, ToLower(l.email), l.displayName, l.avatarUrl);
      identity, err := db.CreateIdentity(identity);
      if err.Some? {
        return Err(err.value);
      }
      r := Rename(l, identity);
    }

    /** The last part of `AttachIdentity`: the display name goes to the profile. */
    method Rename(l: LinkRequest, identity: IdentityRow) returns (r: Reply<Linked>)
      modifies db
      ensures RenameRun(old(db.tables), l, identity, db.env, old(db.calls)) == (db.tables, r, db.calls)
    {
      var profile, err := db.FindProfileByUser(l.userId);
      if err.Some? {
        return Err(err.value);
      }
      profile.Update(l.displayName, None);
      err := db.UpdateProfile(profile);
      if err.Some? {
        return Err(err.value);
      }
      return Ok((identity, Some(profile.Row())));
    }

    method RemoveIdentity(userId: Id, provider: Provider, providerUserId: string) returns (err: Option<Error>)
      modifies db
      ensures match Start(Remove(userId, provider, providerUserId))
              case Removing(_, _, _, DLookup) =>
                RemoveRun(old(db.tables), userId, provider, providerUserId, db.env, old(db.calls)) ==
                (db.tables, ReplyWith(err, ()), db.calls)
              case Removing(_, _, _, DDone(refusal)) =>
                ReplyWith(err, ()) == refusal && db.tables == old(db.tables) && db.calls == old(db.calls)
    {
      if !IsValidProvider(provider) {
        return Some(UnsupportedProvider);
      }
      var found := db.FindIdentity(provider, providerUserId);
      if found.Err? {
        return Some(found.error);
      }
      if found.value.userId != userId {
        return Some(NotOwner);
      }
      err := db.DeleteIdentityById(found.value.id);
    }
  }
}
