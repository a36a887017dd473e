/** The administrative requests, each run on its own under every sequence of failing calls, and serial runs of them. */
module ManageLaws {
  import opened Text
  import opened Domain
  import opened Store
  import opened Requests
  import opened Sequential
  import opened Interleavings

  /* ---- CreateUser ---- */

  /** The row of a user drafted as `d`, field by field. */
  function NewRow(d: Draft, id: Id): UserRow {
    UserRow(id, d.email, d.status, d.status == Active || d.status == NewUser)
  }

  /** `s'` is `s` with one new user, drafted as `d`. */
  ghost predicate UserAdded(s: Store, s': Store, d: Draft, id: Id) {
    && id !in s.users && id !in s.issued && id in s'.issued
    && (forall k :: k in s.issued ==> k in s'.issued)
    && s'.users == s.users[id := NewRow(d, id)]
    && s'.identities == s.identities
  }

  ghost predicate ProfileAdded(s: Store, s': Store, d: Draft, id: Id, pid: Id) {
    pid !in s.profiles && s'.profiles == s.profiles[pid := ProfileRow(pid, id, d.displayName, d.avatarFileId)]
  }

  /** The whole new user: its row, its one profile and its role, and nothing else. */
  ghost predicate CreatedFully(s: Store, s': Store, d: Draft, view: UserView) {
    && UserAdded(s, s', d, view.row.id) && view.row == NewRow(d, view.row.id)
    && view.profile.Some? && ProfileAdded(s, s', d, view.row.id, view.profile.value.id)
    && view.profile.value == s'.profiles[view.profile.value.id]
    && s'.roles == s.roles[view.row.id := d.role]
  }

  ghost predicate Untouched(s: Store, s': Store) {
    s'.users == s.users && s'.profiles == s.profiles && s'.identities == s.identities && s'.roles == s.roles
  }

  ghost predicate AtMostProfileAdded(s: Store, s': Store, d: Draft, id: Id) {
    s'.profiles == s.profiles || exists pid :: ProfileAdded(s, s', d, id, pid)
  }

  /** Deleting the new user, with what cascades, takes back exactly what was added. */
  lemma DeletingTakesBack(s: Store, s1: Store, d: Draft, id: Id, a: Answer)
    requires Consistent(s) && UserAdded(s, s1, d, id) && AtMostProfileAdded(s, s1, d, id) && !a.fails
    ensures var s' := DeleteUser(s1, id, a).0;
            s'.users == s.users && s'.profiles == s.profiles && s'.identities == s.identities && s'.roles == s1.roles
  {
    var s' := DeleteUser(s1, id, a).0;
    assert s'.users == s.users;
    assert s'.identities == s.identities;
    if s1.profiles != s.profiles {
      var pid :| ProfileAdded(s, s1, d, id, pid);
      assert s1.profiles[pid].userId == id;
    }
    assert s'.profiles == s.profiles;
  }

  /** The profile of the new user `id` gets stored. */
  predicate ProfilePasses(s: Store, id: Id, a: Answer) {
    !a.fails && a.newId !in s.issued && a.newId != id
  }

  /** The compensating delete is due, and fails: it is the call after the profile, or after the role. */
  predicate DeleteFails(s: Store, d: Draft, id: Id, env: nat -> Answer, n: nat) {
    env(n + 1).fails && (ProfilePasses(s, id, env(n)) && d.hasRbac ==> env(n + 2).fails)
  }

  /** What stays behind then: the new user, with its profile if that was stored, and no role. */
  ghost predicate LeftBehind(s: Store, s': Store, d: Draft, id: Id, profile: Answer) {
    && UserAdded(s, s', d, id) && s'.roles == s.roles
    && (if ProfilePasses(s, id, profile) then ProfileAdded(s, s', d, id, profile.newId) else s'.profiles == s.profiles)
  }

  /** From the inserted user on: success, exactly the new user left behind, or everything taken back. */
  lemma CompleteOrTakeBack(s: Store, s1: Store, d: Draft, user: UserRow, env: nat -> Answer, n: nat)
    requires Consistent(s) && UserAdded(s, s1, d, user.id) && s1.roles == s.roles && s1.profiles == s.profiles
    requires user == NewRow(d, user.id)
    requires forall k :: k in s1.issued <==> k in s.issued || k == user.id
    ensures var (s', reply, _) := CompleteRun(s1, d, user, env, n);
            && (reply.Ok? <==> d.hasRbac && ProfilePasses(s, user.id, env(n)) && !env(n + 1).fails)
            && (match reply
                case Ok(view) => CreatedFully(s, s', d, view) && view.row == user
                case Err(_) =>
                  if DeleteFails(s, d, user.id, env, n) then LeftBehind(s, s', d, user.id, env(n)) else Untouched(s, s'))
  {
    NoProfileYet(s, s1, d, user.id);
    var (s2, profile) := InsertProfile(s1, ProfileRow("", user.id, d.displayName, d.avatarFileId), env(n));
    if profile.Ok? {
      assert ProfileAdded(s, s2, d, user.id, env(n).newId);
    }
    assert UserAdded(s, s2, d, user.id) && AtMostProfileAdded(s, s2, d, user.id);
    if profile.Err? || !d.hasRbac {
      if !env(n + 1).fails { DeletingTakesBack(s, s2, d, user.id, env(n + 1)); }
    } else if env(n + 1).fails && !env(n + 2).fails {
      DeletingTakesBack(s, s2, d, user.id, env(n + 2));
    }
  }

  lemma NoProfileYet(s: Store, s1: Store, d: Draft, id: Id)
    requires Consistent(s) && UserAdded(s, s1, d, id) && s1.profiles == s.profiles
    ensures ProfileIdsOf(s1, id) == {}
    ensures forall x :: x !in s1.issued ==> x !in s.profiles
  {
  }

  /** The calls of a create up to its insert, in order: duplicate check, hash, user. */
  ghost predicate UserPasses(s: Store, d: Draft, env: nat -> Answer, n: nat) {
    && EmailIds(s, d.email) == {} && !env(n).fails && !env(n + 1).fails
    && !env(n + 2).fails && env(n + 2).newId !in s.users && env(n + 2).newId !in s.issued
  }

  /** The whole create goes through: email free, backend configured, and no call fails or meets a used id. */
  ghost predicate Creates(s: Store, d: Draft, env: nat -> Answer, n: nat) {
    && UserPasses(s, d, env, n) && d.hasRbac && ProfilePasses(s, env(n + 2).newId, env(n + 3)) && !env(n + 4).fails
  }

  /** The new user stays although the create fails: the insert went through, a later step did not, and then the
      compensating delete did not either. */
  ghost predicate Strands(s: Store, d: Draft, env: nat -> Answer, n: nat) {
    UserPasses(s, d, env, n) && DeleteFails(s, d, env(n + 2).newId, env, n + 3)
  }

  /** `CreateUser` is all or nothing, but for its compensating delete.  It succeeds if and only if every call goes through,
      and then exactly one user, its profile and its role are new.  On an error something has changed if and only if the
      compensating delete was due and itself failed, and then exactly the new user's own rows have stayed. */
  lemma CreateUserIsAllOrNothing(s: Store, d: Draft, env: nat -> Answer, n: nat)
    requires Consistent(s)
    ensures var (s', reply, _) := CreateRun(s, d, env, n);
            && (reply.Ok? <==> Creates(s, d, env, n))
            && (reply.Ok? ==> CreatedFully(s, s', d, reply.value) && reply.value.row.id == env(n + 2).newId)
            && (reply.Err? ==> (!Untouched(s, s') <==> Strands(s, d, env, n)))
            && (Strands(s, d, env, n) ==> reply.Err? && LeftBehind(s, s', d, env(n + 2).newId, env(n + 3)))
            && (EmailIds(s, d.email) != {} ==> s' == s)
  {
    if UserPasses(s, d, env, n) {
      DraftIsAllOrNothing(s, d, env, n);
    } else {
      RefusedDraftWritesNothing(s, d, env, n);
    }
  }

  lemma RefusedDraftWritesNothing(s: Store, d: Draft, env: nat -> Answer, n: nat)
    requires !UserPasses(s, d, env, n)
    ensures CreateRun(s, d, env, n).0 == s && CreateRun(s, d, env, n).1.Err?
  {
  }

  lemma DraftIsAllOrNothing(s: Store, d: Draft, env: nat -> Answer, n: nat)
    requires Consistent(s) && UserPasses(s, d, env, n)
    ensures var (s', reply, _) := CreateRun(s, d, env, n);
            && (reply.Ok? <==> Creates(s, d, env, n))
            && (match reply
                case Ok(view) => CreatedFully(s, s', d, view) && view.row.id == env(n + 2).newId
                case Err(_) =>
                  if Strands(s, d, env, n) then LeftBehind(s, s', d, env(n + 2).newId, env(n + 3)) else Untouched(s, s'))
  {
    var (s1, user) := InsertUser(s, NewManagedUser(d), env(n + 2));
    ManagedInsert(s, d, env(n + 2));
    assert CreateRun(s, d, env, n) == CompleteRun(s1, d, user.value, env, n + 3);
    CompleteOrTakeBack(s, s1, d, user.value, env, n + 3);
  }

  /** One such input: the user is inserted, then the database is gone.  The reply is an error, and the user stays. */
  lemma FailedCreateLeavesUser()
    ensures var s := Store(map[], map[], map[], map[], map[]);
            var d := Draft("a@b", Active, "admin", None, None, true);
            var (s', reply, _) := CreateRun(s, d, k => Answer(k >= 3, "x"), 0);
            Consistent(s) && reply == Err(Unavailable) && s'.users == map["x" := UserRow("x", "a@b", Active, true)]
  {
  }

  lemma ManagedInsert(s: Store, d: Draft, a: Answer)
    ensures var (s1, user) := InsertUser(s, NewManagedUser(d), a);
            && (user.Ok? <==> !a.fails && a.newId !in s.users && a.newId !in s.issued)
            && (user.Err? ==> s1 == s)
            && (user.Ok? ==>
                  && user.value == NewRow(d, a.newId) && UserAdded(s, s1, d, a.newId)
                  && s1.roles == s.roles && s1.profiles == s.profiles
                  && forall k :: k in s1.issued <==> k in s.issued || k == a.newId)
  {
  }

  /* ---- UpdateUser ---- */

  function EmailAfter(req: UpdateUserRequest, row: UserRow): string {
    if req.email.Some? then NormalEmail(req.email.value) else row.email
  }

  /** Exactly the requested fields of the user's profile have changed. */
  ghost predicate ProfileEdited(s: Store, s': Store, id: Id, req: UpdateUserRequest) {
    exists k, after ::
      && k in s.profiles && s.profiles[k].userId == id
      && Edited(s.profiles[k], after, req.displayName, req.avatarFileId)
      && s' == s.(profiles := s.profiles[k := after])
  }

  ghost predicate AllPass(env: nat -> Answer, n: nat, m: nat) {
    forall k :: n <= k < m ==> !env(k).fails
  }

  /** The requested profile fields are written, and nothing else. */
  ghost predicate ProfilePart(s: Store, s': Store, id: Id, req: UpdateUserRequest) {
    if WantsProfile(req) then ProfileEdited(s, s', id, req) else s' == s
  }

  /** `save` is the answer to the final save and `reached` says whether that call is made.  Before it, nothing or just the
      profile fields are written; if it is not made, nothing is. */
  ghost predicate Applied(s: Store, id: Id, req: UpdateUserRequest, row: UserRow, s': Store, reply: Reply<UserView>,
                          reached: bool, save: Answer)
  {
    && (reply.Ok? <==> reached && !save.fails)
    && (reply.Ok? ==> reply.value.row == row && Shows(s', reply.value) && ProfilePart(s.(users := s.users[id := row]), s', id, req))
    && (reply.Err? ==> if reached then ProfilePart(s, s', id, req) else s' == s)
  }

  /** How many calls an update makes from its profile part to before its final save. */
  function ProfileCalls(req: UpdateUserRequest): nat {
    if WantsProfile(req) then 2 else 0
  }

  lemma EditApplies(s: Store, id: Id, req: UpdateUserRequest, user: UserView, env: nat -> Answer, n: nat)
    requires Consistent(s) && id in s.users && user.row.id == id
    requires ShowsProfile(s, id, user.profile)
    ensures var (s', reply, m) := EditRun(s, id, req, user, env, n);
            var save := n + ProfileCalls(req);
            var reached := AllPass(env, n, save) && (WantsProfile(req) ==> ProfileIdsOf(s, id) != {});
            m <= save + 1 && (reached ==> m == save + 1) && Applied(s, id, req, user.row, s', reply, reached, env(save))
  {
    var found := ProfileByUser(s, id);
    if WantsProfile(req) && found.Ok? {
      FoundProfile(s, id);
      OwnProfileOnly(s, id);
      StoringEdits(s, id, req, found.value.id);
      StoringEdits(s.(users := s.users[id := user.row]), id, req, found.value.id);
    }
  }

  lemma StoringEdits(s: Store, id: Id, req: UpdateUserRequest, k: Id)
    requires k in s.profiles && s.profiles[k].userId == id
    ensures var after := Updated(s.profiles[k], req.displayName, req.avatarFileId);
            ProfileEdited(s, s.(profiles := s.profiles[k := after]), id, req)
  {
    UpdatedIsTheEdit(s.profiles[k], Updated(s.profiles[k], req.displayName, req.avatarFileId),
                     req.displayName, req.avatarFileId);
  }

  lemma AmendApplies(s: Store, id: Id, req: UpdateUserRequest, user: UserView, env: nat -> Answer, n: nat)
    requires Consistent(s) && id in s.users && user.row.id == id
    requires ShowsProfile(s, id, user.profile)
    ensures var (s', reply, m) := AmendRun(s, id, req, user, env, n);
            var save := n + (if req.password.Some? then 1 else 0) + ProfileCalls(req);
            var reached := AllPass(env, n, save) && (WantsProfile(req) ==> ProfileIdsOf(s, id) != {})
                           && (req.password.Some? ==> ValidPassword(req.password.value));
            m <= save + 1 && (reached ==> m == save + 1) && Applied(s, id, req, user.row, s', reply, reached, env(save))
  {
    EditApplies(s, id, req, user, env, if req.password.Some? then n + 1 else n);
  }

  /** The request can be carried out on this store. */
  predicate Admissible(s: Store, id: Id, req: UpdateUserRequest) {
    && AddressAdmissible(s, id, req)
    && (req.password.Some? ==> ValidPassword(req.password.value))
    && (WantsProfile(req) ==> ProfileIdsOf(s, id) != {})
  }

  /** The email may be taken over: nobody has it, or the first row that has it is the user's own. */
  predicate AddressAdmissible(s: Store, id: Id, req: UpdateUserRequest) {
    && id in s.users
    && (req.email.Some? ==>
          var email := NormalEmail(req.email.value);
          ValidEmail(email) && (EmailIds(s, email) == {} || Least(EmailIds(s, email)) == id))
  }

  lemma AddressIsFree(s: Store, id: Id, req: UpdateUserRequest, env: nat -> Answer, n: nat)
    requires Consistent(s)
    ensures var (user, m) := AddressRun(s, id, req, env, n);
            var next := n + 1 + (if req.email.Some? then 1 else 0);
            && n < m <= next
            && (user.Ok? <==> AddressAdmissible(s, id, req) && AllPass(env, n, next))
            && (user.Ok? ==> m == next && user.value.row == s.users[id].(email := EmailAfter(req, s.users[id])))
            && (user.Ok? ==> ShowsProfile(s, id, user.value.profile))
  {
    ProfileIsShown(s, id);
  }

  /** The index of the final save among the answers: behind the look-up of the user, and those of email, password and
      profile where they are requested. */
  function FinalSave(req: UpdateUserRequest, n: nat): nat {
    n + 1 + (if req.email.Some? then 1 else 0) + (if req.password.Some? then 1 else 0) + ProfileCalls(req)
  }

  /** The update gets as far as its final save. */
  ghost predicate ReachesSave(s: Store, id: Id, req: UpdateUserRequest, env: nat -> Answer, n: nat) {
    Admissible(s, id, req) && AllPass(env, n, FinalSave(req, n))
  }

  /** What `UpdateUser` does, exactly.  The final save is made if and only if the request is admissible and no call before
      it fails.  If it then passes, the reply is a success and exactly the requested fields are written; if it fails,
      exactly the requested profile fields are; and if it is not made, nothing is. */
  lemma UpdateUserAppliesExactly(s: Store, id: Id, req: UpdateUserRequest, env: nat -> Answer, n: nat)
    requires Consistent(s)
    ensures var (s', reply, m) := UpdateRun(s, id, req, env, n);
            var reached, save := ReachesSave(s, id, req, env, n), FinalSave(req, n);
            && m <= save + 1 && (reached ==> m == save + 1)
            && (reply.Ok? <==> reached && !env(save).fails)
            && (!reached ==> s' == s)
            && (reached ==>
                  var row := s.users[id].(email := EmailAfter(req, s.users[id]));
                  Applied(s, id, req, row, s', reply, true, env(save)))
  {
    var (user, m) := AddressRun(s, id, req, env, n);
    AddressIsFree(s, id, req, env, n);
    if user.Ok? {
      AmendApplies(s, id, req, user.value, env, m);
      PassesSplit(env, n, m, FinalSave(req, n));
    } else {
      PassesSplit(env, n, n + 1 + (if req.email.Some? then 1 else 0), FinalSave(req, n));
    }
  }

  lemma PassesSplit(env: nat -> Answer, n: nat, m: nat, k: nat)
    requires n <= m <= k
    ensures AllPass(env, n, k) <==> AllPass(env, n, m) && AllPass(env, m, k)
  {
  }

  /** The requested profile fields differ from the stored ones. */
  ghost predicate ChangesProfile(s: Store, id: Id, req: UpdateUserRequest) {
    && WantsProfile(req)
    && exists k :: && k in s.profiles && s.profiles[k].userId == id
                   && !Edited(s.profiles[k], s.profiles[k], req.displayName, req.avatarFileId)
  }

  /** An update that reports an error has nevertheless changed something exactly when its final save failed and it asks
      for different profile fields. */
  lemma FailedUpdateWritesExactly(s: Store, id: Id, req: UpdateUserRequest, env: nat -> Answer, n: nat)
    requires Consistent(s)
    ensures var (s', reply, _) := UpdateRun(s, id, req, env, n);
            reply.Err? && s' != s <==>
            ReachesSave(s, id, req, env, n) && env(FinalSave(req, n)).fails && ChangesProfile(s, id, req)
  {
    UpdateUserAppliesExactly(s, id, req, env, n);
    var s' := UpdateRun(s, id, req, env, n).0;
    if ProfileEdited(s, s', id, req) && WantsProfile(req) {
      var k, after :| && k in s.profiles && s.profiles[k].userId == id
                      && Edited(s.profiles[k], after, req.displayName, req.avatarFileId)
                      && s' == s.(profiles := s.profiles[k := after]);
      assert s'.profiles[k] == after;
      UpdatedIsTheEdit(s.profiles[k], after, req.displayName, req.avatarFileId);
      UpdatedIsTheEdit(s.profiles[k], s.profiles[k], req.displayName, req.avatarFileId);
    }
  }

  /** One input where the final save fails: the reply is an error, and the new display name is stored. */
  lemma FailedUpdateKeepsProfile()
    ensures var row, before := UserRow("u", "a@b", Active, true), ProfileRow("p", "u", None, None);
            var s := Store(map["u" := row], map["p" := before], map[], map[], map["p" := "u"]);
            var req := UpdateUserRequest(None, None, Some("Ada"), None);
            var (s', reply, _) := UpdateRun(s, "u", req, k => Answer(k == 3, "x"), 0);
            Consistent(s) && reply == Err(Unavailable)
            && s' == s.(profiles := map["p" := ProfileRow("p", "u", Some("Ada"), None)])
  {
    var row, before := UserRow("u", "a@b", Active, true), ProfileRow("p", "u", None, None);
    var s := Store(map["u" := row], map["p" := before], map[], map[], map["p" := "u"]);
    TrimSpaceFixes("Ada");
    assert ProfileIdsOf(s, "u") == {"p"};
  }

  /* ---- ChangeStatus ---- */

  /** `ChangeStatus` writes the new status and its activity flag and nothing else, or nothing at all. */
  lemma ChangeStatusAppliesExactly(s: Store, id: Id, status: Status, env: nat -> Answer, n: nat)
    requires Consistent(s)
    ensures var r := StatusRun(s, id, status, env, n);
            && (r.1.Ok? <==> id in s.users && IsValid(status) && !env(n).fails && !env(n + 1).fails)
            && (r.1.Err? ==> r.0 == s)
            && (r.1.Ok? ==> r.0.users.Keys == s.users.Keys && Sound(r.0.users[id])
                            && r.0 == s.(users := s.users[id := r.0.users[id]])
                            && r.0.users[id].status == status && r.0.users[id].email == s.users[id].email)
  {
    if id in s.users {
      assert (s.users[id := s.users[id]]).Keys == s.users.Keys;
    }
  }

  /* ---- emails ---- */

  ghost predicate DistinctEmails(s: Store) {
    forall j, k :: j in s.users && k in s.users && s.users[j].email == s.users[k].email ==> j == k
  }

  predicate IsNormalEmail(email: string) {
    Trimmed(email) && ToLower(email) == email && '@' in email
  }

  lemma NormalEmailIsNormal(text: string)
    ensures ValidEmail(NormalEmail(text)) ==> IsNormalEmail(NormalEmail(text))
  {
    TrimSpaceTrims(text);
    LowerKeepsTrimmed(TrimSpace(text));
    TrimSpaceFixes(NormalEmail(text));
  }

  datatype SerialOp = SerialOp(request: Request, env: nat -> Answer)

  predicate IsManageOp(op: SerialOp) {
    op.request.Create? || op.request.Update? || op.request.ChangeStatus?
  }

  ghost function RunSerially(s: Store, ops: seq<SerialOp>): Store {
    if ops == [] then s
    else Alone(RunSerially(s, ops[..|ops| - 1]), Start(ops[|ops| - 1].request), ops[|ops| - 1].env, 0).0
  }

  /** At most one row's email differs between the two stores; that one is new, free and in normal form. */
  ghost predicate EmailStep(s: Store, s': Store, id: Id) {
    && s.users.Keys <= s'.users.Keys <= s.users.Keys + {id}
    && (forall k :: k in s.users && k != id ==> s'.users[k].email == s.users[k].email)
    && (id in s'.users ==>
          || (id in s.users && s'.users[id].email == s.users[id].email)
          || (IsNormalEmail(s'.users[id].email) &&
              forall k :: k in s.users && k != id ==> s.users[k].email != s'.users[id].email))
  }

  lemma CreateEmailStep(s: Store, d: Draft, env: nat -> Answer, n: nat)
    requires Consistent(s) && IsNormalEmail(d.email)
    ensures EmailStep(s, CreateRun(s, d, env, n).0, env(n + 2).newId)
  {
    UsersAfterCreate(s, d, env, n);
    AddedEmailStep(s, CreateRun(s, d, env, n).0, d, env(n + 2).newId);
  }

  ghost predicate SameOrAdded(s: Store, s': Store, d: Draft, id: Id) {
    s'.users == s.users || (EmailIds(s, d.email) == {} && UserAdded(s, s', d, id))
  }

  lemma UsersAfterCreate(s: Store, d: Draft, env: nat -> Answer, n: nat)
    requires Consistent(s)
    ensures SameOrAdded(s, CreateRun(s, d, env, n).0, d, env(n + 2).newId)
  {
    if UserPasses(s, d, env, n) {
      DraftIsAllOrNothing(s, d, env, n);
    } else {
      RefusedDraftWritesNothing(s, d, env, n);
    }
  }

  lemma AddedEmailStep(s: Store, s': Store, d: Draft, id: Id)
    requires SameOrAdded(s, s', d, id) && IsNormalEmail(d.email)
    ensures EmailStep(s, s', id)
  {
    if s'.users != s.users {
      forall k | k in s.users ensures s.users[k].email != d.email {
        assert k !in EmailIds(s, d.email);
      }
    }
  }

  lemma UpdateEmailStep(s: Store, id: Id, req: UpdateUserRequest, env: nat -> Answer, n: nat)
    requires Consistent(s) && DistinctEmails(s)
    ensures EmailStep(s, UpdateRun(s, id, req, env, n).0, id)
  {
    UpdateUserAppliesExactly(s, id, req, env, n);
    if id in s.users && UpdateRun(s, id, req, env, n).1.Ok? {
      AdmissibleEmailIsFree(s, id, req);
    }
  }

  lemma AdmissibleEmailIsFree(s: Store, id: Id, req: UpdateUserRequest)
    requires DistinctEmails(s) && AddressAdmissible(s, id, req)
    ensures var email := EmailAfter(req, s.users[id]);
            || email == s.users[id].email
            || (IsNormalEmail(email) && forall k :: k in s.users && k != id ==> s.users[k].email != email)
  {
    if req.email.Some? {
      var email := NormalEmail(req.email.value);
      NormalEmailIsNormal(req.email.value);
      forall k | k in s.users && s.users[k].email == email ensures k == id {
        assert k in EmailIds(s, email) && Least(EmailIds(s, email)) in EmailIds(s, email);
      }
    }
  }

  lemma CreateSerially(s: Store, d: Draft, env: nat -> Answer, n: nat)
    requires Consistent(s) && IsNormalEmail(d.email)
    ensures EmailStep(s, Alone(s, Creating(CFind(d)), env, n).0, env(n + 2).newId)
  {
    CreateRunsAlone(s, d, env, n);
    CreateEmailStep(s, d, env, n);
  }

  lemma UpdateSerially(s: Store, id: Id, req: UpdateUserRequest, env: nat -> Answer, n: nat)
    requires Consistent(s) && DistinctEmails(s)
    ensures EmailStep(s, Alone(s, Start(Update(id, req)), env, n).0, id)
  {
    UpdateRunsAlone(s, id, req, env, n);
    UpdateEmailStep(s, id, req, env, n);
  }

  lemma StatusSerially(s: Store, id: Id, status: Status, env: nat -> Answer, n: nat)
    requires Consistent(s) && DistinctEmails(s)
    ensures EmailStep(s, Alone(s, Start(ChangeStatus(id, status)), env, n).0, id)
  {
    StatusRunsAlone(s, id, status, env, n);
    ChangeStatusAppliesExactly(s, id, status, env, n);
  }

  lemma SerialStep(s: Store, op: SerialOp) returns (id: Id)
    requires Consistent(s) && DistinctEmails(s) && IsManageOp(op)
    ensures EmailStep(s, Alone(s, Start(op.request), op.env, 0).0, id)
  {
    id := "";
    match op.request
    case Create(c, hasRbac) =>
      var p := Start(op.request);
      if p.c.CFind? {
        NormalEmailIsNormal(c.email);
        CreateSerially(s, p.c.d, op.env, 0);
        id := op.env(0 + 2).newId;
      }
    case Update(x, req) =>
      UpdateSerially(s, x, req, op.env, 0);
      id := x;
    case ChangeStatus(x, status) =>
      StatusSerially(s, x, status, op.env, 0);
      id := x;
  }

  ghost predicate EmailsKept(s: Store, s': Store) {
    forall k :: k in s'.users ==>
      IsNormalEmail(s'.users[k].email) || (k in s.users && s'.users[k].email == s.users[k].email)
  }

  lemma EmailStepKeeps(s: Store, t: Store, t': Store, id: Id)
    requires DistinctEmails(t) && EmailsKept(s, t) && EmailStep(t, t', id)
    ensures DistinctEmails(t') && EmailsKept(s, t')
  {
  }

  /** No constraint of the schema keeps emails apart any more; the service does, as long as its requests do not
      overlap: whatever calls fail, compensation included, emails that are pairwise distinct stay so, and every email
      written is trimmed, in lower case, and contains an "@". */
  lemma {:induction false} SerialRunsKeepEmailsDistinct(s: Store, ops: seq<SerialOp>)
    requires Consistent(s) && DistinctEmails(s) && forall k :: 0 <= k < |ops| ==> IsManageOp(ops[k])
    ensures var s' := RunSerially(s, ops);
            Consistent(s') && DistinctEmails(s') && EmailsKept(s, s')
  {
    if ops != [] {
      var n := |ops| - 1;
      SerialRunsKeepEmailsDistinct(s, ops[..n]);
      var t := RunSerially(s, ops[..n]);
      var id := SerialStep(t, ops[n]);
      EmailStepKeeps(s, t, Alone(t, Start(ops[n].request), ops[n].env, 0).0, id);
      AloneKeeps(t, Start(ops[n].request), ops[n].env, 0);
    }
  }
}
