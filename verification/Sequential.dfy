/** Each request as its code reads when nothing runs in between, from the first call to the reply: the store it leaves,
    the reply, and the index of the next answer.  Every function here is proved equal to the uninterrupted run of the
    request's control points, and is what the methods in `Services` are proved to compute. */
module Sequential {
  import opened Text
  import opened Domain
  import opened Store
  import opened Requests

  function HandleRun(s: Store, id: Id, email: string, env: nat -> Answer, n: nat): (Store, HandleReply, nat) {
    var found := Guarded(env(n), UserById(s, id));
    if found.Ok? then (s, Replayed, n + 1)
    else if !found.error.NotFound? then (s, Rejected(found.error), n + 1)
    else InsertRun(s, id, email, env, n + 1)
  }

  /** The insert, then the profile, or a second look when the insert is refused. */
  function InsertRun(s: Store, id: Id, email: string, env: nat -> Answer, n: nat): (Store, HandleReply, nat) {
    var (s1, user) := InsertUser(s, FreshUser(id, email), env(n));
    if user.Ok? then
      var (s2, profile) := InsertProfile(s1, ProfileRow("", id, None, None), env(n + 1));
      (s2, Created(profile.Ok?), n + 2)
    else if Guarded(env(n + 1), UserById(s1, id)).Ok? then (s1, Replayed, n + 2)
    else (s1, Rejected(user.error), n + 2)
  }

  function CreateRun(s: Store, d: Draft, env: nat -> Answer, n: nat): (Store, Reply<UserView>, nat) {
    var found := Guarded(env(n), UserByEmail(s, d.email));
    if found.Ok? then (s, Err(UserExists), n + 1)
    else if !found.error.NotFound? then (s, Err(found.error), n + 1)
    else DraftRun(s, d, env, n + 1)
  }

  /** The email is free: hash, user row, and the rest. */
  function DraftRun(s: Store, d: Draft, env: nat -> Answer, n: nat): (Store, Reply<UserView>, nat) {
    if env(n).fails then (s, Err(Unavailable), n + 1)
    else
      var (s1, user) := InsertUser(s, NewManagedUser(d), env(n + 1));
      if user.Err? then (s1, Err(user.error), n + 2) else CompleteRun(s1, d, user.value, env, n + 2)
  }

  /** The new user gets a profile and a role, or is deleted again. */
  function CompleteRun(s: Store, d: Draft, user: UserRow, env: nat -> Answer, n: nat): (Store, Reply<UserView>, nat) {
    var (s1, profile) := InsertProfile(s, ProfileRow("", user.id, d.displayName, d.avatarFileId), env(n));
    if profile.Err? then (DeleteUser(s1, user.id, env(n + 1)).0, Err(profile.error), n + 2)
    else if !d.hasRbac then (DeleteUser(s1, user.id, env(n + 1)).0, Err(RbacMissing), n + 2)
    else
      var (s2, role) := AssignRole(s1, user.id, d.role, env(n + 1));
      if role.Err? then (DeleteUser(s2, user.id, env(n + 2)).0, Err(role.error), n + 3)
      else (s2, Ok(UserView(user, Some(profile.value))), n + 2)
  }

  function UpdateRun(s: Store, id: Id, req: UpdateUserRequest, env: nat -> Answer, n: nat): (Store, Reply<UserView>, nat) {
    var (user, m) := AddressRun(s, id, req, env, n);
    if user.Err? then (s, Err(user.error), m) else AmendRun(s, id, req, user.value, env, m)
  }

  /** The user with the requested email, if that is free; nothing is written yet. */
  function AddressRun(s: Store, id: Id, req: UpdateUserRequest, env: nat -> Answer, n: nat): (Reply<UserView>, nat) {
    var user := Guarded(env(n), UserById(s, id));
    if user.Err? || req.email.None? then (user, n + 1)
    else
      var email := NormalEmail(req.email.value);
      if !ValidEmail(email) then (Err(InvalidEmail), n + 1)
      else
        var other := Guarded(env(n + 1), UserByEmail(s, email));
        if other.Err? && !other.error.NotFound? then (Err(other.error), n + 2)
        else if other.Ok? && other.value.row.id != id then (Err(EmailInUse), n + 2)
        else (Ok(user.value.(row := user.value.row.(email := email))), n + 2)
  }

  /** Password, then profile, then the final save. */
  function AmendRun(s: Store, id: Id, req: UpdateUserRequest, user: UserView, env: nat -> Answer, n: nat)
    : (Store, Reply<UserView>, nat)
  {
    if req.password.Some? && !ValidPassword(req.password.value) then (s, Err(PasswordTooShort), n)
    else if req.password.Some? && env(n).fails then (s, Err(Unavailable), n + 1)
    else EditRun(s, id, req, user, env, if req.password.Some? then n + 1 else n)
  }

  function EditRun(s: Store, id: Id, req: UpdateUserRequest, user: UserView, env: nat -> Answer, n: nat)
    : (Store, Reply<UserView>, nat)
  {
    if !WantsProfile(req) then SaveRun(s, user, env, n)
    else
      var found := Guarded(env(n), ProfileByUser(s, id));
      if found.Err? then (s, Err(found.error), n + 1)
      else
        var profile := Updated(found.value, req.displayName, req.avatarFileId);
        var (s1, saved) := SaveProfile(s, profile, env(n + 1));
        if saved.Err? then (s1, Err(saved.error), n + 2)
        else SaveRun(s1, user.(profile := Some(profile)), env, n + 2)
  }

  function SaveRun(s: Store, user: UserView, env: nat -> Answer, n: nat): (Store, Reply<UserView>, nat) {
    var (s1, saved) := SaveUser(s, user.row, env(n));
    (s1, if saved.Err? then Err(saved.error) else Ok(user), n + 1)
  }

  function StatusRun(s: Store, id: Id, status: Status, env: nat -> Answer, n: nat): (Store, Reply<UserView>, nat) {
    var user := Guarded(env(n), UserById(s, id));
    if user.Err? then (s, Err(user.error), n + 1)
    else if !IsValid(status) then (s, Err(InvalidStatus), n + 1)
    else SaveRun(s, user.value.(row := WithStatus(user.value.row, status)), env, n + 1)
  }

  function RoleRun(s: Store, id: Id, role: string, env: nat -> Answer, n: nat): (Store, Reply<()>, nat) {
    var user := Guarded(env(n), UserById(s, id));
    if user.Err? then (s, Err(user.error), n + 1)
    else
      var (s1, granted) := AssignRole(s, id, role, env(n + 1));
      (s1, granted, n + 2)
  }

  function AttachRun(s: Store, l: LinkRequest, env: nat -> Answer, n: nat): (Store, Reply<Linked>, nat) {
    var user := Guarded(env(n), UserById(s, l.userId));
    if user.Err? then (s, Err(user.error), n + 1)
    else if !EqualFold(user.value.row.email, l.email) then (s, Err(EmailMismatch), n + 1)
    else
      var existing := Guarded(env(n + 1), IdentityByLink(s, l.provider, l.providerUserId));
      if existing.Ok? then
        (s, if existing.value.userId != l.userId then Err(LinkedToOther)
            else Ok((existing.value, user.value.profile)), n + 2)
      else
        var (s1, identity) := InsertIdentity(s, NewIdentity(l), env(n + 2));
        if identity.Err? then (s1, Err(identity.error), n + 3) else RenameRun(s1, l, identity.value, env, n + 3)
  }

  function RenameRun(s: Store, l: LinkRequest, identity: IdentityRow, env: nat -> Answer, n: nat)
    : (Store, Reply<Linked>, nat)
  {
    var found := Guarded(env(n), ProfileByUser(s, l.userId));
    if found.Err? then (s, Err(found.error), n + 1)
    else
      var profile := Updated(found.value, l.displayName, None);
      var (s1, saved) := SaveProfile(s, profile, env(n + 1));
      (s1, if saved.Err? then Err(saved.error) else Ok((identity, Some(profile))), n + 2)
  }

  function RemoveRun(s: Store, id: Id, provider: Provider, pid: string, env: nat -> Answer, n: nat)
    : (Store, Reply<()>, nat)
  {
    var found := Guarded(env(n), IdentityByLink(s, provider, pid));
    if found.Err? then (s, Err(found.error), n + 1)
    else if found.value.userId != id then (s, Err(NotOwner), n + 1)
    else
      var (s1, deleted) := DeleteIdentity(s, found.value.id, env(n + 1));
      (s1, deleted, n + 2)
  }

  function ProfileRun(s: Store, id: Id, name: Option<string>, fileId: Option<string>, env: nat -> Answer, n: nat)
    : (Store, Reply<ProfileRow>, nat)
  {
    var found := Guarded(env(n), ProfileByUser(s, id));
    if found.Err? then (s, Err(found.error), n + 1)
    else
      var profile := Updated(found.value, name, fileId);
      var (s1, saved) := SaveProfile(s, profile, env(n + 1));
      (s1, if saved.Err? then Err(saved.error) else Ok(profile), n + 2)
  }

  /* ---- the same as the uninterrupted run of the control points ---- */

  lemma Next(s: Store, p: Pc, env: nat -> Answer, n: nat)
    requires !Finished(p)
    ensures Alone(s, p, env, n) == Alone(Step(s, p, env(n)).0, Step(s, p, env(n)).1, env, n + 1)
  {
  }

  lemma HandleRunsAlone(s: Store, id: Id, email: string, env: nat -> Answer, n: nat)
    ensures var r := HandleRun(s, id, email, env, n);
            Alone(s, Handling(id, email, HFind), env, n) == (r.0, Handling(id, email, HDone(r.1)), r.2)
  {
    var p := Handling(id, email, HFind);
    Next(s, p, env, n);
    var p1 := Step(s, p, env(n)).1;
    if !Finished(p1) {
      Next(s, p1, env, n + 1);
      var (s2, p2) := Step(s, p1, env(n + 1));
      Next(s2, p2, env, n + 2);
    }
  }

  lemma CompleteRunsAlone(s: Store, d: Draft, user: UserRow, env: nat -> Answer, n: nat)
    ensures var r := CompleteRun(s, d, user, env, n);
            Alone(s, Creating(CProfile(d, user)), env, n) == (r.0, Creating(CDone(r.1)), r.2)
  {
    var p := Creating(CProfile(d, user));
    Next(s, p, env, n);
    var (s1, p1) := Step(s, p, env(n));
    Next(s1, p1, env, n + 1);
    var (s2, p2) := Step(s1, p1, env(n + 1));
    if p1.c.CAssign? && p2.c.CUndo? {
      Next(s2, p2, env, n + 2);
    }
  }

  lemma CreateRunsAlone(s: Store, d: Draft, env: nat -> Answer, n: nat)
    ensures var r := CreateRun(s, d, env, n);
            Alone(s, Creating(CFind(d)), env, n) == (r.0, Creating(CDone(r.1)), r.2)
  {
    var p := Creating(CFind(d));
    Next(s, p, env, n);
    var p1 := Step(s, p, env(n)).1;
    if p1.c.CHash? {
      Next(s, p1, env, n + 1);
      var p2 := Step(s, p1, env(n + 1)).1;
      if p2.c.CInsert? {
        Next(s, p2, env, n + 2);
        var (s3, p3) := Step(s, p2, env(n + 2));
        if p3.c.CProfile? {
          CompleteRunsAlone(s3, d, p3.c.user, env, n + 3);
        }
      }
    }
  }

  lemma EditRunsAlone(s: Store, id: Id, req: UpdateUserRequest, user: UserView, env: nat -> Answer, n: nat)
    ensures var r := EditRun(s, id, req, user, env, n);
            Alone(s, Updating(id, req, AfterPassword(req, user)), env, n) == (r.0, Updating(id, req, UDone(r.1)), r.2)
  {
    var p := Updating(id, req, AfterPassword(req, user));
    Next(s, p, env, n);
    if WantsProfile(req) {
      var p1 := Step(s, p, env(n)).1;
      if p1.u.USaveProfile? {
        Next(s, p1, env, n + 1);
        var (s2, p2) := Step(s, p1, env(n + 1));
        if p2.u.USave? {
          Next(s2, p2, env, n + 2);
        }
      }
    }
  }

  lemma AmendRunsAlone(s: Store, id: Id, req: UpdateUserRequest, user: UserView, env: nat -> Answer, n: nat)
    ensures var r := AmendRun(s, id, req, user, env, n);
            Alone(s, Updating(id, req, AfterEmail(req, user)), env, n) == (r.0, Updating(id, req, UDone(r.1)), r.2)
  {
    if req.password.None? {
      EditRunsAlone(s, id, req, user, env, n);
    } else if ValidPassword(req.password.value) {
      Next(s, Updating(id, req, UHash(user)), env, n);
      EditRunsAlone(s, id, req, user, env, n + 1);
    }
  }

  lemma UpdateRunsAlone(s: Store, id: Id, req: UpdateUserRequest, env: nat -> Answer, n: nat)
    ensures var r := UpdateRun(s, id, req, env, n);
            Alone(s, Start(Update(id, req)), env, n) == (r.0, Updating(id, req, UDone(r.1)), r.2)
  {
    var p := Start(Update(id, req));
    Next(s, p, env, n);
    var p1 := Step(s, p, env(n)).1;
    var user := Guarded(env(n), UserById(s, id));
    if user.Ok? {
      if req.email.None? {
        AmendRunsAlone(s, id, req, user.value, env, n + 1);
      } else if ValidEmail(NormalEmail(req.email.value)) {
        Next(s, p1, env, n + 1);
        AmendRunsAlone(s, id, req, user.value.(row := user.value.row.(email := NormalEmail(req.email.value))), env, n + 2);
      }
    }
  }

  lemma StatusRunsAlone(s: Store, id: Id, status: Status, env: nat -> Answer, n: nat)
    ensures var r := StatusRun(s, id, status, env, n);
            Alone(s, Start(ChangeStatus(id, status)), env, n) == (r.0, Restating(id, status, SDone(r.1)), r.2)
  {
    var p := Start(ChangeStatus(id, status));
    Next(s, p, env, n);
    var p1 := Step(s, p, env(n)).1;
    if p1.s.SSave? {
      Next(s, p1, env, n + 1);
    }
  }

  lemma RoleRunsAlone(s: Store, id: Id, role: string, env: nat -> Answer, n: nat)
    ensures var r := RoleRun(s, id, role, env, n);
            Alone(s, Granting(id, role, RFind), env, n) == (r.0, Granting(id, role, RDone(r.1)), r.2)
  {
    var p := Granting(id, role, RFind);
    Next(s, p, env, n);
    var p1 := Step(s, p, env(n)).1;
    if p1.r.RAssign? {
      Next(s, p1, env, n + 1);
    }
  }

  lemma AttachRunsAlone(s: Store, l: LinkRequest, env: nat -> Answer, n: nat)
    ensures var r := AttachRun(s, l, env, n);
            Alone(s, Attaching(l, AFind), env, n) == (r.0, Attaching(l, ADone(r.1)), r.2)
  {
    var p := Attaching(l, AFind);
    Next(s, p, env, n);
    var p1 := Step(s, p, env(n)).1;
    if p1.a.ALookup? {
      Next(s, p1, env, n + 1);
      var p2 := Step(s, p1, env(n + 1)).1;
      if p2.a.AInsert? {
        Next(s, p2, env, n + 2);
        var (s3, p3) := Step(s, p2, env(n + 2));
        if p3.a.AProfile? {
          RenameRunsAlone(s3, l, p3.a.identity, env, n + 3);
        }
      }
    }
  }

  lemma RenameRunsAlone(s: Store, l: LinkRequest, identity: IdentityRow, env: nat -> Answer, n: nat)
    ensures var r := RenameRun(s, l, identity, env, n);
            Alone(s, Attaching(l, AProfile(identity)), env, n) == (r.0, Attaching(l, ADone(r.1)), r.2)
  {
    var p := Attaching(l, AProfile(identity));
    Next(s, p, env, n);
    var p1 := Step(s, p, env(n)).1;
    if p1.a.ASave? {
      Next(s, p1, env, n + 1);
    }
  }

  lemma RemoveRunsAlone(s: Store, id: Id, provider: Provider, pid: string, env: nat -> Answer, n: nat)
    ensures var r := RemoveRun(s, id, provider, pid, env, n);
            Alone(s, Removing(id, provider, pid, DLookup), env, n) == (r.0, Removing(id, provider, pid, DDone(r.1)), r.2)
  {
    var p := Removing(id, provider, pid, DLookup);
    Next(s, p, env, n);
    var p1 := Step(s, p, env(n)).1;
    if p1.d.DDelete? {
      Next(s, p1, env, n + 1);
    }
  }

  lemma ProfileRunsAlone(s: Store, id: Id, name: Option<string>, fileId: Option<string>, env: nat -> Answer, n: nat)
    ensures var r := ProfileRun(s, id, name, fileId, env, n);
            Alone(s, Start(EditProfile(id, name, fileId)), env, n) == (r.0, Editing(id, name, fileId, PDone(r.1)), r.2)
  {
    var p := Editing(id, name, fileId, PFind);
    Next(s, p, env, n);
    var p1 := Step(s, p, env(n)).1;
    if p1.p.PSave? {
      Next(s, p1, env, n + 1);
    }
  }
}
