/** What a caller sees of each request, in terms of what it sent: when it is refused and why, which error it gets, and
    which row is stored in the end. */
module Outcomes {
  import opened Text
  import opened Domain
  import opened Store
  import opened Requests
  import opened Sequential
  import opened Interleavings
  import opened ManageLaws
  import opened IdentityLinks

  /* ---- refusals before the first call ---- */

  /** Normalising an email neither adds nor loses an "@". */
  lemma NormalisingKeepsAt(email: string)
    ensures '@' in NormalEmail(email) <==> '@' in email
    ensures ValidEmail(NormalEmail(email)) <==> '@' in email
  {
    var t := TrimSpace(email);
    var front, back := TrimSpaceCutsTheEnds(email);
    if '@' in email {
      var i :| 0 <= i < |t| && t[i] == '@';
      CaseMapping(t, i);
      assert ToLower(t)[i] == '@';
    }
    if '@' in ToLower(t) {
      var i :| 0 <= i < |t| && ToLower(t)[i] == '@';
      CaseMapping(t, i);
      assert t[i] == '@';
    }
    TrimSpaceTrims(email);
    LowerKeepsTrimmed(t);
    TrimSpaceFixes(ToLower(t));
  }

  /** `CreateUser` refuses an email without "@", then a password of less than six characters, then a status that is neither
      empty nor one of the four, then a blank role; and nothing else. */
  lemma CreateIsRefusedExactly(c: CreateUserRequest, hasRbac: bool)
    ensures match Start(Create(c, hasRbac))
            case Creating(CDone(Err(InvalidEmail))) => '@' !in c.email
            case Creating(CDone(Err(PasswordTooShort))) => '@' in c.email && |c.password| < 6
            case Creating(CDone(Err(InvalidStatus))) =>
              '@' in c.email && |c.password| >= 6 && c.status.OtherStatus? && c.status.text != ""
            case Creating(CDone(Err(RoleRequired))) =>
              '@' in c.email && |c.password| >= 6 && (c.status.OtherStatus? ==> c.status.text == "") && Blank(c.role)
            case Creating(CFind(d)) =>
              '@' in c.email && |c.password| >= 6 && (c.status.OtherStatus? ==> c.status.text == "") && !Blank(c.role)
            case _ => false
  {
    NormalisingKeepsAt(c.email);
    BlankIsTrimmedAway(c.role);
  }

  /** What a create that is not refused takes from its request: the email trimmed and in lower case, the status or ACTIVE for
      none, the trimmed role, and name and file id as they were sent. */
  lemma DraftTakesTheRequest(c: CreateUserRequest, hasRbac: bool)
    requires Start(Create(c, hasRbac)).c.CFind?
    ensures var d := Start(Create(c, hasRbac)).c.d;
            && d.email == ToLower(TrimSpace(c.email)) && IsNormalEmail(d.email)
            && (if c.status.OtherStatus? then d.status == Active else d.status == c.status)
            && d.role == TrimSpace(c.role) && d.role != ""
            && d.displayName == c.displayName && d.avatarFileId == c.avatarFileId && d.hasRbac == hasRbac
  {
    CreateIsRefusedExactly(c, hasRbac);
    NormalEmailIsNormal(c.email);
  }

  /** The other refusals: a delivery without payload or with a blank id, a blank role or a missing role backend, and an
      unknown provider. */
  lemma OthersAreRefusedExactly(p: Payload, id: Id, role: string, hasRbac: bool, l: LinkRequest, pid: string)
    ensures Start(Deliver(None)).h == HDone(Rejected(InvalidPayload))
    ensures Start(Deliver(Some(p))) == Handling(p.id, p.email, if Blank(p.id) then HDone(Rejected(IdRequired)) else HFind)
    ensures Start(ChangeRole(id, role, hasRbac)).userId == id
    ensures Start(ChangeRole(id, role, hasRbac)).r ==
            if Blank(role) then RDone(Err(RoleRequired)) else if !hasRbac then RDone(Err(RbacMissing)) else RFind
    ensures Start(Attach(l)) == Attaching(l, if l.provider.OtherProvider? then ADone(Err(UnsupportedProvider)) else AFind)
    ensures Start(Remove(id, l.provider, pid)) ==
            Removing(id, l.provider, pid, if l.provider.OtherProvider? then DDone(Err(UnsupportedProvider)) else DLookup)
  {
    BlankIsTrimmedAway(p.id);
    BlankIsTrimmedAway(role);
  }

  /* ---- deliveries ---- */

  /** What a delivery does when nothing runs in between, exactly: for a known user nothing; for a new one it stores this very
      row, and a profile if that call passes too; the reply says which. */
  lemma DeliveryAppliesExactly(s: Store, id: Id, email: string, env: nat -> Answer, n: nat)
    requires Consistent(s) && id != ""
    ensures var (s', reply, _) := HandleRun(s, id, email, env, n);
            && (env(n).fails ==> reply == Rejected(Unavailable))
            && (!env(n).fails && id in s.users ==> reply == Replayed)
            && (!env(n).fails && id !in s.users && env(n + 1).fails ==> reply == Rejected(Unavailable))
            && (if env(n).fails || id in s.users || env(n + 1).fails then s' == s
                else
                  var x := env(n + 2).newId;
                  var profiled := !env(n + 2).fails && x !in s.issued;
                  && reply == Created(profiled)
                  && s'.users == s.users[id := UserRow(id, TrimSpace(email), NewUser, true)]
                  && s'.profiles == (if profiled then s.profiles[x := ProfileRow(x, id, None, None)] else s.profiles)
                  && s'.identities == s.identities && s'.roles == s.roles)
  {
    if id !in s.users && !env(n).fails {
      NobodysProfiles(s, id);
      var s1 := InsertUser(s, FreshUser(id, email), env(n + 1)).0;
      assert ProfileIdsOf(s1, id) == ProfileIdsOf(s, id);
    }
  }

  lemma NobodysProfiles(s: Store, id: Id)
    requires Consistent(s) && id !in s.users
    ensures ProfileIdsOf(s, id) == {}
  {
  }

  /* ---- CreateUser ---- */

  /** Which error a create reports: the email is taken, a generated id was used before, the backend is missing, or else a call
      has failed. */
  lemma CreateReportsExactly(s: Store, d: Draft, env: nat -> Answer, n: nat)
    requires Consistent(s) && CreateRun(s, d, env, n).1.Err?
    ensures var error := CreateRun(s, d, env, n).1.error;
            var taken := exists k :: k in s.users && s.users[k].email == d.email;
            var inserts := !taken && !env(n).fails && !env(n + 1).fails && !env(n + 2).fails;
            var user := env(n + 2).newId;
            var used := user in s.users || user in s.issued;
            var usedToo := env(n + 3).newId in s.issued || env(n + 3).newId == user;
            && (error == UserExists <==> !env(n).fails && taken)
            && (error == Conflict <==> inserts && (used || (!env(n + 3).fails && usedToo)))
            && (error == RbacMissing <==> inserts && !used && !env(n + 3).fails && !usedToo && !d.hasRbac)
            && error in {UserExists, Conflict, RbacMissing, Unavailable}
  {
    TakenEmails(s, d.email);
    if EmailIds(s, d.email) == {} && !env(n).fails && !env(n + 1).fails {
      ManagedInsert(s, d, env(n + 2));
      var (s1, user) := InsertUser(s, NewManagedUser(d), env(n + 2));
      if user.Ok? {
        NoProfileYet(s, s1, d, env(n + 2).newId);
      }
    }
  }

  lemma TakenEmails(s: Store, email: string)
    ensures EmailIds(s, email) != {} <==> exists k :: k in s.users && s.users[k].email == email
  {
    if k :| k in s.users && s.users[k].email == email {
      assert k in EmailIds(s, email);
    }
  }

  /* ---- UpdateUser ---- */

  predicate Asks(req: UpdateUserRequest) {
    req.displayName.Some? || req.avatarFileId.Some?
  }

  /** Nobody else has the email, or this user comes first among those who do. */
  ghost predicate MayTake(s: Store, id: Id, email: string) {
    (forall k :: k in s.users ==> s.users[k].email != email) ||
    (id in s.users && s.users[id].email == email && forall k :: k in s.users && s.users[k].email == email ==> Leq(id, k))
  }

  /** The request fits the store, said without any of the code's own checks. */
  ghost predicate Fits(s: Store, id: Id, req: UpdateUserRequest) {
    && id in s.users
    && (req.email.Some? ==> '@' in req.email.value && MayTake(s, id, ToLower(TrimSpace(req.email.value))))
    && (req.password.Some? ==> |req.password.value| >= 6)
    && (Asks(req) ==> exists k :: k in s.profiles && s.profiles[k].userId == id)
  }

  function CallsOf(req: UpdateUserRequest): nat {
    2 + (if req.email.Some? then 1 else 0) + (if req.password.Some? then 1 else 0) + (if Asks(req) then 2 else 0)
  }

  lemma FitsIsAdmissible(s: Store, id: Id, req: UpdateUserRequest)
    requires Consistent(s)
    ensures Fits(s, id, req) <==> Admissible(s, id, req)
  {
    if id in s.users {
      if req.email.Some? {
        NormalisingKeepsAt(req.email.value);
        TakingIsBeingLeast(s, id, NormalEmail(req.email.value));
      }
      if k :| k in s.profiles && s.profiles[k].userId == id {
        assert k in ProfileIdsOf(s, id);
      }
    }
  }

  lemma TakingIsBeingLeast(s: Store, id: Id, email: string)
    requires Consistent(s) && id in s.users
    ensures MayTake(s, id, email) <==> EmailIds(s, email) == {} || Least(EmailIds(s, email)) == id
  {
    TakenEmails(s, email);
    var ids := EmailIds(s, email);
    LeastUnique(ids);
    assert forall k :: k in s.users && s.users[k].email == email <==> k in ids;
    if ids != {} {
      assert IsLeast(Least(ids), ids);
      assert MayTake(s, id, email) ==> IsLeast(id, ids);
    }
  }

  /** `UpdateUser` in terms of the request: it succeeds if and only if the request fits and none of its calls fails; and then
      the stored row has the requested email, trimmed and in lower case, the stored profile has the requested fields, and
      nothing else is different. */
  lemma UpdateStoresTheRequest(s: Store, id: Id, req: UpdateUserRequest, env: nat -> Answer, n: nat)
    requires Consistent(s)
    ensures var (s', reply, m) := UpdateRun(s, id, req, env, n);
            && (reply.Ok? <==> Fits(s, id, req) && AllPass(env, n, n + CallsOf(req)))
            && (reply.Ok? ==>
                  && id in s'.users && reply.value.row == s'.users[id] && ShowsProfile(s', id, reply.value.profile)
                  && s'.users == s.users[id := s'.users[id]]
                  && s'.identities == s.identities && s'.roles == s.roles
                  && EmailStored(s.users[id], s'.users[id], req.email)
                  && (if Asks(req) then FieldsStored(s, s', id, req.displayName, req.avatarFileId)
                      else s'.profiles == s.profiles))
  {
    UpdateUserAppliesExactly(s, id, req, env, n);
    FitsIsAdmissible(s, id, req);
    PassesSplit(env, n, FinalSave(req, n), FinalSave(req, n) + 1);
    assert AllPass(env, FinalSave(req, n), FinalSave(req, n) + 1) <==> !env(FinalSave(req, n)).fails;
    if UpdateRun(s, id, req, env, n).1.Ok? && Asks(req) {
      var row := s.users[id].(email := EmailAfter(req, s.users[id]));
      EditIsStored(s.(users := s.users[id := row]), UpdateRun(s, id, req, env, n).0, id, req);
    }
  }

  ghost predicate EmailStored(before: UserRow, after: UserRow, email: Option<string>) {
    && after.id == before.id && after.status == before.status && after.isActive == before.isActive
    && after.email == (if email.Some? then ToLower(TrimSpace(email.value)) else before.email)
  }

  /** One profile of this user has the requested fields, and no other profile is different. */
  ghost predicate FieldsStored(s: Store, s': Store, id: Id, name: Option<string>, fileId: Option<string>) {
    exists k :: && k in s.profiles && k in s'.profiles && s.profiles[k].userId == id
                && s'.profiles == s.profiles[k := s'.profiles[k]] && Edited(s.profiles[k], s'.profiles[k], name, fileId)
  }

  lemma EditIsStored(s: Store, s': Store, id: Id, req: UpdateUserRequest)
    requires ProfileEdited(s, s', id, req)
    ensures FieldsStored(s, s', id, req.displayName, req.avatarFileId)
  {
    var k, after :| && k in s.profiles && s.profiles[k].userId == id
                    && Edited(s.profiles[k], after, req.displayName, req.avatarFileId)
                    && s' == s.(profiles := s.profiles[k := after]);
    assert s'.profiles[k] == after;
  }

  /** Which error an update reports when none of the calls it made has failed, and that it reports a failed call. */
  lemma UpdateReportsExactly(s: Store, id: Id, req: UpdateUserRequest, env: nat -> Answer, n: nat)
    requires Consistent(s) && UpdateRun(s, id, req, env, n).1.Err?
    ensures var (_, reply, m) := UpdateRun(s, id, req, env, n);
            && m > n && AllPass(env, n, m - 1)
            && (env(m - 1).fails ==> reply.error == Unavailable)
            && (!env(m - 1).fails ==>
                  reply.error ==
                  if id !in s.users then NotFound
                  else if req.email.Some? && '@' !in req.email.value then InvalidEmail
                  else if req.email.Some? && !MayTake(s, id, ToLower(TrimSpace(req.email.value))) then EmailInUse
                  else if req.password.Some? && |req.password.value| < 6 then PasswordTooShort
                  else NotFound)
  {
    var (user, m) := AddressRun(s, id, req, env, n);
    AddressReports(s, id, req, env, n);
    if user.Ok? {
      AmendReports(s, id, req, user.value, env, m);
    }
  }

  lemma AddressReports(s: Store, id: Id, req: UpdateUserRequest, env: nat -> Answer, n: nat)
    requires Consistent(s)
    ensures var (user, m) := AddressRun(s, id, req, env, n);
            && m > n && AllPass(env, n, m - 1)
            && (user.Ok? ==> !env(m - 1).fails && id in s.users && user.value.row.id == id)
            && (user.Ok? && req.email.Some? ==>
                  '@' in req.email.value && MayTake(s, id, ToLower(TrimSpace(req.email.value))))
            && (user.Err? ==>
                  user.error ==
                  if env(m - 1).fails then Unavailable else if id !in s.users then NotFound
                  else if req.email.Some? && '@' !in req.email.value then InvalidEmail else EmailInUse)
            && (user.Err? && user.error == EmailInUse ==>
                  req.email.Some? && !MayTake(s, id, ToLower(TrimSpace(req.email.value))))
  {
    if id in s.users && req.email.Some? {
      NormalisingKeepsAt(req.email.value);
      TakingIsBeingLeast(s, id, NormalEmail(req.email.value));
    }
    AddressIsFree(s, id, req, env, n);
  }

  /** The calls from `n` to before `m` have been made, and the last one is to blame: it failed, or found nothing. */
  ghost predicate LastCallDecides(env: nat -> Answer, n: nat, m: nat, error: Error) {
    m > n && AllPass(env, n, m - 1) && error == if env(m - 1).fails then Unavailable else NotFound
  }

  lemma OneCallBefore(env: nat -> Answer, n: nat, m: nat, error: Error)
    requires LastCallDecides(env, n + 1, m, error) && !env(n).fails
    ensures LastCallDecides(env, n, m, error)
  {
  }

  lemma AmendReports(s: Store, id: Id, req: UpdateUserRequest, user: UserView, env: nat -> Answer, n: nat)
    requires Consistent(s) && id in s.users && user.row.id == id && AmendRun(s, id, req, user, env, n).1.Err?
    ensures var (_, reply, m) := AmendRun(s, id, req, user, env, n);
            if req.password.Some? && |req.password.value| < 6 then m == n && reply.error == PasswordTooShort
            else LastCallDecides(env, n, m, reply.error)
  {
    AmendIsEdit(s, id, req, user, env, n);
    if req.password.None? {
      EditReports(s, id, req, user, env, n);
    } else if |req.password.value| >= 6 && !env(n).fails {
      EditReports(s, id, req, user, env, n + 1);
      var (_, reply, m) := EditRun(s, id, req, user, env, n + 1);
      OneCallBefore(env, n, m, reply.error);
    }
  }

  lemma AmendIsEdit(s: Store, id: Id, req: UpdateUserRequest, user: UserView, env: nat -> Answer, n: nat)
    ensures AmendRun(s, id, req, user, env, n) ==
            if req.password.None? then EditRun(s, id, req, user, env, n)
            else if |req.password.value| < 6 then (s, Err(PasswordTooShort), n)
            else if env(n).fails then (s, Err(Unavailable), n + 1)
            else EditRun(s, id, req, user, env, n + 1)
  {
  }

  lemma EditReports(s: Store, id: Id, req: UpdateUserRequest, user: UserView, env: nat -> Answer, n: nat)
    requires Consistent(s) && id in s.users && user.row.id == id && EditRun(s, id, req, user, env, n).1.Err?
    ensures var (_, reply, m) := EditRun(s, id, req, user, env, n);
            LastCallDecides(env, n, m, reply.error)
  {
    ProfileIsShown(s, id);
    if ProfileByUser(s, id).Ok? {
      FoundProfile(s, id);
      OwnProfileOnly(s, id);
    }
  }

  /* ---- status, role, profile ---- */

  /** Which error a status change reports. */
  lemma StatusReportsExactly(s: Store, id: Id, status: Status, env: nat -> Answer, n: nat)
    requires Consistent(s)
    ensures var (s', reply, _) := StatusRun(s, id, status, env, n);
            match reply
            case Ok(user) => user.row.id == id && Shows(s', user)
            case Err(error) =>
              error == if env(n).fails then Unavailable else if id !in s.users then NotFound
                       else if status.OtherStatus? then InvalidStatus else Unavailable
  {
    ProfileIsShown(s, id);
  }

  /** `ChangeRole` assigns the trimmed role to this very user, if and only if the user exists and both calls pass, and
      writes nothing else. */
  lemma ChangeRoleAssignsTheRole(s: Store, id: Id, role: string, hasRbac: bool, env: nat -> Answer, n: nat)
    requires !Blank(role) && hasRbac
    ensures var (s', p, _) := Alone(s, Start(ChangeRole(id, role, hasRbac)), env, n);
            && p.Granting? && p.r.RDone?
            && (p.r.reply.Ok? <==> id in s.users && !env(n).fails && !env(n + 1).fails)
            && s' == (if p.r.reply.Ok? then s.(roles := s.roles[id := TrimSpace(role)]) else s)
            && (p.r.reply.Err? ==>
                  p.r.reply.error == if !env(n).fails && id !in s.users then NotFound else Unavailable)
  {
    BlankIsTrimmedAway(role);
    RoleRunsAlone(s, id, TrimSpace(role), env, n);
  }

  /** `UpdateProfile` and `SetAvatarFileID` succeed if and only if the profile exists and both calls pass; and then the stored
      profile has exactly the requested field, and is what the reply shows. */
  lemma ProfileEditStoresTheField(s: Store, id: Id, name: Option<string>, fileId: Option<string>, env: nat -> Answer, n: nat)
    requires Consistent(s)
    ensures var (s', reply, _) := ProfileRun(s, id, name, fileId, env, n);
            var known := exists k :: k in s.profiles && s.profiles[k].userId == id;
            && (reply.Ok? <==> known && !env(n).fails && !env(n + 1).fails)
            && (match reply
                case Ok(p) =>
                  && p.id in s.profiles && s.profiles[p.id].userId == id && Edited(s.profiles[p.id], p, name, fileId)
                  && s' == s.(profiles := s.profiles[p.id := p])
                case Err(error) => s' == s && error == if !env(n).fails && !known then NotFound else Unavailable)
  {
    ProfileIsShown(s, id);
    var found := ProfileByUser(s, id);
    if found.Ok? {
      FoundProfile(s, id);
      OwnProfileOnly(s, id);
      UpdatedIsTheEdit(found.value, Updated(found.value, name, fileId), name, fileId);
    }
  }

  /* ---- identities ---- */

  /** Which error an attach reports. */
  lemma AttachReportsExactly(s: Store, l: LinkRequest, env: nat -> Answer, n: nat)
    requires Consistent(s) && AttachRun(s, l, env, n).1.Err?
    ensures var error := AttachRun(s, l, env, n).1.error;
            var others := exists k :: && k in s.identities && s.identities[k].provider == l.provider
                                      && s.identities[k].providerUserId == l.providerUserId
                                      && s.identities[k].userId != l.userId;
            var inserts := Inserts(s, l, env, n);
            && (!PassesChecks(s, l, env, n) ==>
                  error == if env(n).fails then Unavailable else if l.userId !in s.users then NotFound else EmailMismatch)
            && (PassesChecks(s, l, env, n) && !inserts ==>
                  error == if others && !env(n + 1).fails then LinkedToOther
                           else if env(n + 2).fails then Unavailable else Conflict)
            && (inserts ==>
                  error == if !env(n + 3).fails && (forall k :: k in s.profiles ==> s.profiles[k].userId != l.userId)
                           then NotFound else Unavailable)
  {
    if PassesChecks(s, l, env, n) {
      if LinkIds(s, l.provider, l.providerUserId) != {} {
        LinkedAccountIsTaken(s, l);
        FoundIdentity(s, l.provider, l.providerUserId);
      } else {
        NobodyElseHas(s, l);
        NewAttachReports(s, l, env, n);
      }
    }
  }

  lemma NobodyElseHas(s: Store, l: LinkRequest)
    requires LinkIds(s, l.provider, l.providerUserId) == {}
    ensures forall k :: k in s.identities && s.identities[k].provider == l.provider ==>
                          s.identities[k].providerUserId != l.providerUserId
  {
    forall k | k in s.identities && s.identities[k].provider == l.provider
      ensures s.identities[k].providerUserId != l.providerUserId
    {
      assert k !in LinkIds(s, l.provider, l.providerUserId);
    }
  }

  lemma NewAttachReports(s: Store, l: LinkRequest, env: nat -> Answer, n: nat)
    requires Consistent(s) && LinkIds(s, l.provider, l.providerUserId) == {} && PassesChecks(s, l, env, n)
    requires AttachRun(s, l, env, n).1.Err?
    ensures var error := AttachRun(s, l, env, n).1.error;
            if Inserts(s, l, env, n)
            then error == if !env(n + 3).fails && (forall k :: k in s.profiles ==> s.profiles[k].userId != l.userId)
                          then NotFound else Unavailable
            else error == if env(n + 2).fails then Unavailable else Conflict
  {
    var (s3, identity) := InsertIdentity(s, NewIdentity(l), env(n + 2));
    NewAttachRun(s, l, env, n);
    NewLinkInserts(s, l, env(n + 2));
    if identity.Ok? {
      InsertIdentityKeeps(s, NewIdentity(l), env(n + 2));
      RenameReports(s3, l, identity.value, env, n + 3);
    }
  }

  lemma NewAttachRun(s: Store, l: LinkRequest, env: nat -> Answer, n: nat)
    requires LinkIds(s, l.provider, l.providerUserId) == {} && PassesChecks(s, l, env, n)
    ensures var (s3, identity) := InsertIdentity(s, NewIdentity(l), env(n + 2));
            AttachRun(s, l, env, n) ==
            if identity.Ok? then RenameRun(s3, l, identity.value, env, n + 3) else (s3, Err(identity.error), n + 3)
  {
  }

  lemma NewLinkInserts(s: Store, l: LinkRequest, a: Answer)
    requires l.userId in s.users
    ensures var (s3, identity) := InsertIdentity(s, NewIdentity(l), a);
            && s3.profiles == s.profiles
            && (identity.Ok? <==> !a.fails && a.newId !in s.issued && !Occupied(s, l))
            && (identity.Err? ==> identity.error == if a.fails then Unavailable else Conflict)
  {
  }

  lemma RenameReports(s: Store, l: LinkRequest, identity: IdentityRow, env: nat -> Answer, n: nat)
    requires Consistent(s) && RenameRun(s, l, identity, env, n).1.Err?
    ensures RenameRun(s, l, identity, env, n).1.error ==
            if !env(n).fails && (forall k :: k in s.profiles ==> s.profiles[k].userId != l.userId)
            then NotFound else Unavailable
  {
    ProfileIsShown(s, l.userId);
    if ProfileByUser(s, l.userId).Ok? {
      FoundProfile(s, l.userId);
      OwnProfileOnly(s, l.userId);
    }
  }

  /** Which error a removal reports. */
  lemma RemoveReportsExactly(s: Store, id: Id, provider: Provider, pid: string, env: nat -> Answer, n: nat)
    requires Consistent(s) && RemoveRun(s, id, provider, pid, env, n).1.Err?
    ensures var error := RemoveRun(s, id, provider, pid, env, n).1.error;
            var linked := exists k :: && k in s.identities && s.identities[k].provider == provider
                                      && s.identities[k].providerUserId == pid;
            var own := exists k :: && k in s.identities && s.identities[k].provider == provider
                                   && s.identities[k].providerUserId == pid && s.identities[k].userId == id;
            error == if env(n).fails then Unavailable else if !linked then NotFound else if !own then NotOwner else Unavailable
  {
    forall k | k in s.identities && s.identities[k].provider == provider && s.identities[k].providerUserId == pid
      ensures k in LinkIds(s, provider, pid) {}
    if IdentityByLink(s, provider, pid).Ok? {
      FoundIdentity(s, provider, pid);
      var found := IdentityByLink(s, provider, pid).value;
      forall k | k in LinkIds(s, provider, pid) ensures k == found.id {
        assert Clash(s.identities[k], s.identities[found.id]);
      }
    }
  }
}
