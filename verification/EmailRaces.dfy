/** Emails under overlapping requests.  Nothing in the schema keeps them apart, and look-up and write are two calls; so
    it depends on what overlaps: where it goes right, and that it goes wrong otherwise. */
module EmailRaces {
  import opened Text
  import opened Domain
  import opened Store
  import opened Requests
  import opened Interleavings
  import opened ManageLaws

  /* ---- what must not overlap ---- */

  /** The email a request has found free and has not yet written. */
  function Pending(p: Pc): Option<string> {
    match p
    case Creating(CHash(d)) => Some(d.email)
    case Creating(CInsert(d)) => Some(d.email)
    case Updating(_, req, u) =>
      if req.email.Some? && (u.UHash? || u.UProfile? || u.USaveProfile? || u.USave?)
      then Some(NormalEmail(req.email.value)) else None
    case _ => None
  }

  /** The user a request has loaded and may still save, or has inserted and may still delete. */
  function Held(p: Pc): Option<Id> {
    match p
    case Creating(CProfile(_, user)) => Some(user.id)
    case Creating(CAssign(_, user, _)) => Some(user.id)
    case Creating(CUndo(id, _)) => Some(id)
    case Updating(id, _, u) => if u.UFind? || u.UDone? then None else Some(id)
    case Restating(id, _, SSave(_)) => Some(id)
    case _ => None
  }

  predicate SamePending(p: Pc, q: Pc) {
    Pending(p).Some? && Pending(p) == Pending(q)
  }

  predicate SameHeld(p: Pc, q: Pc) {
    Held(p).Some? && Held(p) == Held(q)
  }

  /** No two requests are about to write one email, and no two work on copies of one user. */
  ghost predicate Clear(procs: seq<Pc>) {
    forall i, j :: 0 <= i < |procs| && 0 <= j < |procs| && i != j ==>
      !SamePending(procs[i], procs[j]) && !SameHeld(procs[i], procs[j])
  }

  ghost predicate AlwaysClear(w: World, schedule: seq<Label>) {
    forall k :: 0 <= k < |schedule| ==> Clear(Exec(w, schedule[..k]).procs)
  }

  /** Requests of every kind but deliveries, which take any email. */
  ghost predicate NoDeliveries(schedule: seq<Label>) {
    forall k :: 0 <= k < |schedule| && schedule[k].Arrive? ==> !schedule[k].request.Deliver?
  }

  /* ---- what every such schedule keeps ---- */

  /** The held copy agrees with the stored row, but for a requested email, which is free for it. */
  ghost predicate UpToDate(s: Store, id: Id, req: UpdateUserRequest, row: UserRow) {
    && id in s.users && row.id == id
    && (if req.email.None? then row.email == s.users[id].email
        else row.email == NormalEmail(req.email.value) && IsNormalEmail(row.email) && EmailIds(s, row.email) <= {id})
  }

  ghost predicate ProcOk(s: Store, p: Pc) {
    match p
    case Handling(_, _, h) => h.HDone?
    case Creating(CFind(d)) => IsNormalEmail(d.email)
    case Creating(CHash(d)) => IsNormalEmail(d.email) && EmailIds(s, d.email) == {}
    case Creating(CInsert(d)) => IsNormalEmail(d.email) && EmailIds(s, d.email) == {}
    case Updating(id, req, UEmail(user, email)) =>
      && id in s.users && user.row.id == id
      && req.email.Some? && email == NormalEmail(req.email.value) && IsNormalEmail(email)
    case Updating(id, req, UHash(user)) => UpToDate(s, id, req, user.row)
    case Updating(id, req, UProfile(user)) => UpToDate(s, id, req, user.row)
    case Updating(id, req, USaveProfile(user, _)) => UpToDate(s, id, req, user.row)
    case Updating(id, req, USave(user)) => UpToDate(s, id, req, user.row)
    case Restating(id, _, SSave(user)) => id in s.users && user.row.id == id && user.row.email == s.users[id].email
    case _ => true
  }

  ghost predicate EmailInvariant(s0: Store, w: World) {
    && Coherent(w) && DistinctEmails(w.store) && EmailsKept(s0, w.store)
    && forall i :: 0 <= i < |w.procs| ==> ProcOk(w.store, w.procs[i])
  }

  /** All a step of `p` does to emails: it writes its pending one, to a new user or to the one it holds, and takes away
      none but the user it holds. */
  ghost predicate Writes(s: Store, s': Store, p: Pc) {
    && (forall k :: k in s.users && k !in s'.users ==> Held(p) == Some(k))
    && (forall k :: k in s'.users ==>
          || (k in s.users && s'.users[k].email == s.users[k].email)
          || (Pending(p) == Some(s'.users[k].email) && (k in s.users ==> Held(p) == Some(k))))
  }

  ghost predicate Keeps(s: Store, s': Store, p: Pc) {
    Writes(s, s', p) && DistinctEmails(s') && EmailsKept(s, s')
  }

  lemma SameUsersKeep(s: Store, s': Store, p: Pc)
    requires DistinctEmails(s) && s'.users == s.users
    ensures Keeps(s, s', p)
  {
  }

  lemma InsertKeeps(s: Store, d: Draft, a: Answer)
    requires Consistent(s) && DistinctEmails(s) && ProcOk(s, Creating(CInsert(d)))
    ensures Keeps(s, InsertUser(s, NewManagedUser(d), a).0, Creating(CInsert(d)))
  {
    ManagedInsert(s, d, a);
    var s' := InsertUser(s, NewManagedUser(d), a).0;
    if a.newId in s'.users && s'.users != s.users {
      AddingKeeps(s, s', a.newId, NewManagedUser(d).(id := a.newId), Creating(CInsert(d)));
    } else {
      SameUsersKeep(s, s', Creating(CInsert(d)));
    }
  }

  lemma AddingKeeps(s: Store, s': Store, id: Id, row: UserRow, p: Pc)
    requires DistinctEmails(s) && id !in s.users && s'.users == s.users[id := row]
    requires Pending(p) == Some(row.email) && IsNormalEmail(row.email) && EmailIds(s, row.email) == {}
    ensures Keeps(s, s', p)
  {
    forall k | k in s.users ensures s.users[k].email != row.email {
      assert k !in EmailIds(s, row.email);
    }
  }

  lemma DeleteKeeps(s: Store, id: Id, why: Error, a: Answer)
    requires DistinctEmails(s)
    ensures Keeps(s, DeleteUser(s, id, a).0, Creating(CUndo(id, why)))
  {
  }

  lemma SaveKeeps(s: Store, row: UserRow, a: Answer, p: Pc)
    requires DistinctEmails(s) && row.id in s.users && Held(p) == Some(row.id)
    requires || row.email == s.users[row.id].email
             || (Pending(p) == Some(row.email) && IsNormalEmail(row.email) && EmailIds(s, row.email) <= {row.id})
    ensures Keeps(s, SaveUser(s, row, a).0, p)
  {
    forall k | k in s.users && s.users[k].email == row.email ensures k == row.id {
      assert k in EmailIds(s, row.email);
    }
  }

  lemma CreateSteps(s: Store, c: CreatePc, a: Answer)
    requires Consistent(s) && DistinctEmails(s) && ProcOk(s, Creating(c))
    ensures var (s', c') := CreateStep(s, c, a); Keeps(s, s', Creating(c)) && ProcOk(s', Creating(c'))
  {
    match c
    case CInsert(d) => InsertKeeps(s, d, a);
    case CUndo(id, why) => DeleteKeeps(s, id, why, a);
    case _ => SameUsersKeep(s, CreateStep(s, c, a).0, Creating(c));
  }

  lemma UpdateSteps(s: Store, id: Id, req: UpdateUserRequest, u: UpdatePc, a: Answer)
    requires Consistent(s) && DistinctEmails(s) && ProcOk(s, Updating(id, req, u))
    ensures var (s', u') := UpdateStep(s, id, req, u, a);
            Keeps(s, s', Updating(id, req, u)) && ProcOk(s', Updating(id, req, u'))
  {
    if u.USave? {
      SaveKeeps(s, u.user.row, a, Updating(id, req, u));
    } else {
      SameUsersKeep(s, UpdateStep(s, id, req, u, a).0, Updating(id, req, u));
      LookUpSteps(s, id, req, u, a);
    }
  }

  lemma LookUpSteps(s: Store, id: Id, req: UpdateUserRequest, u: UpdatePc, a: Answer)
    requires Consistent(s) && DistinctEmails(s) && ProcOk(s, Updating(id, req, u)) && !u.USave?
    ensures var (s', u') := UpdateStep(s, id, req, u, a); ProcOk(s', Updating(id, req, u'))
  {
    if u.UFind? && req.email.Some? { NormalEmailIsNormal(req.email.value); }
    if u.UEmail? { FoundEmailIsOwn(s, id, u.email, a); }
  }

  lemma FoundEmailIsOwn(s: Store, id: Id, email: string, a: Answer)
    requires Consistent(s) && DistinctEmails(s)
    ensures var r := Guarded(a, UserByEmail(s, email));
            (r.Err? && r.error.NotFound?) || (r.Ok? && r.value.row.id == id) ==> EmailIds(s, email) <= {id}
  {
  }

  lemma RestateSteps(s: Store, id: Id, status: Status, q: StatusPc, a: Answer)
    requires Consistent(s) && DistinctEmails(s) && ProcOk(s, Restating(id, status, q))
    ensures var (s', q') := StatusStep(s, id, status, q, a);
            Keeps(s, s', Restating(id, status, q)) && ProcOk(s', Restating(id, status, q'))
  {
    match q
    case SSave(user) => SaveKeeps(s, user.row, a, Restating(id, status, q));
    case _ => SameUsersKeep(s, StatusStep(s, id, status, q, a).0, Restating(id, status, q));
  }

  lemma OwnSteps(s: Store, p: Pc, a: Answer)
    requires Consistent(s) && DistinctEmails(s) && ProcOk(s, p)
    ensures var (s', p') := Step(s, p, a); Keeps(s, s', p) && ProcOk(s', p')
  {
    match p
    case Creating(c) => CreateSteps(s, c, a);
    case Updating(id, req, u) => UpdateSteps(s, id, req, u, a);
    case Restating(id, status, q) => RestateSteps(s, id, status, q, a);
    case _ => SameUsersKeep(s, Step(s, p, a).0, p);
  }

  lemma OthersStayOk(s: Store, s': Store, p: Pc, q: Pc)
    requires Writes(s, s', p) && !SamePending(p, q) && !SameHeld(p, q) && ProcOk(s, q)
    ensures ProcOk(s', q)
  {
    if Pending(q).Some? {
      forall k | k in EmailIds(s', Pending(q).value) ensures k in EmailIds(s, Pending(q).value) {}
    }
  }

  lemma ApplyKeepsEmails(s0: Store, w: World, l: Label)
    requires EmailInvariant(s0, w) && Clear(w.procs) && (l.Arrive? ==> !l.request.Deliver?)
    ensures EmailInvariant(s0, Apply(w, l))
  {
    var w' := Apply(w, l);
    ApplyKeeps(w, l);
    if l.Run? && l.i < |w.procs| {
      OwnSteps(w.store, w.procs[l.i], l.answer);
      forall j | 0 <= j < |w'.procs| ensures ProcOk(w'.store, w'.procs[j]) {
        if j != l.i {
          OthersStayOk(w.store, w'.store, w.procs[l.i], w.procs[j]);
        }
      }
    } else if l.Arrive? {
      StartIsOk(w.store, l.request);
    }
  }

  lemma StartIsOk(s: Store, r: Request)
    requires !r.Deliver?
    ensures ProcOk(s, Start(r))
  {
    if r.Create? { NormalEmailIsNormal(r.create.email); }
  }

  lemma ClearBefore(w: World, schedule: seq<Label>, n: nat)
    requires n < |schedule| && AlwaysClear(w, schedule)
    ensures AlwaysClear(w, schedule[..n]) && Clear(Exec(w, schedule[..n]).procs)
  {
    forall k | 0 <= k < n ensures Clear(Exec(w, schedule[..n][..k]).procs) {
      assert schedule[..n][..k] == schedule[..k];
    }
  }

  /** Over every schedule, whatever calls fail, on any number of instances: emails that are distinct stay so, and every
      email written is in normal form, as long as at no moment two requests are about to write one email, or work on
      copies of one user. */
  lemma {:induction false} EmailsStayDistinct(s0: Store, w: World, schedule: seq<Label>)
    requires EmailInvariant(s0, w) && NoDeliveries(schedule) && AlwaysClear(w, schedule)
    ensures EmailInvariant(s0, Exec(w, schedule))
  {
    if schedule != [] {
      var n := |schedule| - 1;
      ClearBefore(w, schedule, n);
      EmailsStayDistinct(s0, w, schedule[..n]);
      ApplyKeepsEmails(s0, Exec(w, schedule[..n]), schedule[n]);
    }
  }

  /* ---- the same in terms of whole requests ---- */

  /** The normalised email an unfinished request carries. */
  function Carried(p: Pc): Option<string> {
    match p
    case Creating(CFind(d)) => Some(d.email)
    case Creating(CHash(d)) => Some(d.email)
    case Creating(CInsert(d)) => Some(d.email)
    case Creating(CProfile(d, _)) => Some(d.email)
    case Creating(CAssign(d, _, _)) => Some(d.email)
    case Updating(_, req, u) => if req.email.Some? && !u.UDone? then Some(NormalEmail(req.email.value)) else None
    case _ => None
  }

  /** The user an unfinished request works on; a create works on the user it has inserted. */
  function WorksOn(p: Pc): Option<Id> {
    match p
    case Creating(_) => Held(p)
    case Updating(id, _, u) => if u.UDone? then None else Some(id)
    case Restating(id, _, q) => if q.SDone? then None else Some(id)
    case _ => None
  }

  /** No two unfinished requests carry one email or work on one user. */
  ghost predicate Apart(procs: seq<Pc>) {
    forall i, j :: 0 <= i < |procs| && 0 <= j < |procs| && i != j ==>
      && (Carried(procs[i]).Some? ==> Carried(procs[i]) != Carried(procs[j]))
      && (WorksOn(procs[i]).Some? ==> WorksOn(procs[i]) != WorksOn(procs[j]))
  }

  lemma ApartIsClear(procs: seq<Pc>)
    requires Apart(procs)
    ensures Clear(procs)
  {
    forall i, j | 0 <= i < |procs| && 0 <= j < |procs| && i != j
      ensures !SamePending(procs[i], procs[j]) && !SameHeld(procs[i], procs[j])
    {
      PendingIsCarried(procs[i]);
      PendingIsCarried(procs[j]);
    }
  }

  lemma PendingIsCarried(p: Pc)
    ensures Pending(p).Some? ==> Carried(p) == Pending(p)
    ensures Held(p).Some? ==> WorksOn(p) == Held(p)
  {
  }

  /** Over every schedule of any requests but deliveries, and with any faults: distinct emails stay distinct as long as
      overlapping requests neither carry the same normalised email nor work on the same user. */
  lemma RequestsApartKeepEmailsDistinct(s0: Store, schedule: seq<Label>)
    requires Consistent(s0) && DistinctEmails(s0) && NoDeliveries(schedule)
    requires forall k :: 0 <= k < |schedule| ==> Apart(Exec(World(s0, []), schedule[..k]).procs)
    ensures var s := Exec(World(s0, []), schedule).store; DistinctEmails(s) && EmailsKept(s0, s)
  {
    forall k | 0 <= k < |schedule| ensures Clear(Exec(World(s0, []), schedule[..k]).procs) {
      ApartIsClear(Exec(World(s0, []), schedule[..k]).procs);
    }
    EmailsStayDistinct(s0, World(s0, []), schedule);
  }

  /* ---- creates alone: the exact condition ---- */

  /** Creates that have been validated and are about to make their first call. */
  function Issued(requests: seq<CreateUserRequest>, hasRbac: bool): seq<Pc> {
    seq(|requests|, i requires 0 <= i < |requests| => Start(Create(requests[i], hasRbac)))
  }

  function Wanted(p: Pc): Option<string> {
    match p
    case Creating(CFind(d)) => Some(d.email)
    case _ => None
  }

  /** Two valid creates ask for one email, and nobody has it yet. */
  ghost predicate Compete(s: Store, procs: seq<Pc>) {
    exists i, j :: 0 <= i < |procs| && 0 <= j < |procs| && i != j && Rivals(s, procs[i], procs[j])
  }

  ghost predicate Rivals(s: Store, p: Pc, q: Pc) {
    Wanted(p).Some? && Wanted(p) == Wanted(q) && EmailIds(s, Wanted(p).value) == {}
  }

  ghost predicate OnlyCalls(schedule: seq<Label>) {
    forall k :: 0 <= k < |schedule| ==> schedule[k].Run?
  }

  /** However the calls interleave and whichever fail, emails stay distinct. */
  ghost predicate AlwaysDistinct(s: Store, procs: seq<Pc>) {
    forall schedule :: OnlyCalls(schedule) ==> DistinctEmails(Exec(World(s, procs), schedule).store)
  }

  ghost predicate Persist(s0: Store, s: Store) {
    forall k :: k in s0.users ==> k in s.users && s.users[k].email == s0.users[k].email
  }

  /** A create goes on as it was issued: with its email, which was free, and with a user of its own. */
  ghost predicate Tracks(s0: Store, s: Store, p0: Pc, p: Pc) {
    && p.Creating?
    && (Wanted(p).Some? ==> Wanted(p0) == Wanted(p))
    && (Pending(p).Some? ==> Wanted(p0) == Pending(p) && EmailIds(s0, Pending(p).value) == {})
    && (Held(p).Some? ==> Held(p).value in s.issued && Held(p).value !in s0.users)
  }

  ghost predicate BatchInvariant(s0: Store, procs0: seq<Pc>, w: World) {
    && EmailInvariant(s0, w) && Persist(s0, w.store) && |w.procs| == |procs0|
    && (forall i :: 0 <= i < |w.procs| ==> Tracks(s0, w.store, procs0[i], w.procs[i]))
    && (forall i, j :: 0 <= i < |w.procs| && 0 <= j < |w.procs| && i != j ==> !SameHeld(w.procs[i], w.procs[j]))
  }

  lemma CreateTracks(s0: Store, s: Store, p0: Pc, c: CreatePc, a: Answer)
    requires Consistent(s) && Persist(s0, s) && Tracks(s0, s, p0, Creating(c))
    ensures var (s', c') := CreateStep(s, c, a);
            && Persist(s0, s') && Tracks(s0, s', p0, Creating(c'))
            && (Held(Creating(c')).Some? ==>
                  Held(Creating(c')) == Held(Creating(c)) || Held(Creating(c')).value !in s.issued)
  {
    if c.CInsert? {
      InsertTracks(s0, s, p0, c.d, a);
    } else if c.CUndo? {
      DeleteTracks(s0, s, c.id, a);
    } else {
      OtherCallTracks(s0, s, p0, c, a);
    }
  }

  lemma OtherCallTracks(s0: Store, s: Store, p0: Pc, c: CreatePc, a: Answer)
    requires Persist(s0, s) && Tracks(s0, s, p0, Creating(c)) && !c.CInsert? && !c.CUndo?
    ensures var (s', c') := CreateStep(s, c, a);
            && Persist(s0, s') && Tracks(s0, s', p0, Creating(c'))
            && (Held(Creating(c')).Some? ==> Held(Creating(c')) == Held(Creating(c)))
  {
    if c.CFind? { FreeNowAndBefore(s0, s, c.d.email); }
  }

  lemma InsertTracks(s0: Store, s: Store, p0: Pc, d: Draft, a: Answer)
    requires Consistent(s) && Persist(s0, s)
    ensures var (s', c') := CreateStep(s, CInsert(d), a);
            && Persist(s0, s') && Tracks(s0, s', p0, Creating(c'))
            && (Held(Creating(c')).Some? ==> Held(Creating(c')).value !in s.issued)
  {
    ManagedInsert(s, d, a);
  }

  lemma DeleteTracks(s0: Store, s: Store, id: Id, a: Answer)
    requires Persist(s0, s) && id !in s0.users
    ensures Persist(s0, DeleteUser(s, id, a).0) && DeleteUser(s, id, a).0.issued == s.issued
  {
  }

  lemma FreeNowAndBefore(s0: Store, s: Store, email: string)
    requires Persist(s0, s)
    ensures EmailIds(s, email) == {} ==> EmailIds(s0, email) == {}
  {
    forall k | k in EmailIds(s0, email) ensures k in EmailIds(s, email) {}
  }

  lemma BatchStep(s0: Store, procs0: seq<Pc>, w: World, l: Label)
    requires BatchInvariant(s0, procs0, w) && !Compete(s0, procs0) && l.Run?
    ensures BatchInvariant(s0, procs0, Apply(w, l))
  {
    BatchIsClear(s0, procs0, w);
    ApplyKeepsEmails(s0, w, l);
    if l.i < |w.procs| {
      var w' := Apply(w, l);
      ApplyKeeps(w, l);
      CreateTracks(s0, w.store, procs0[l.i], w.procs[l.i].c, l.answer);
      assert w'.procs[l.i] == Creating(CreateStep(w.store, w.procs[l.i].c, l.answer).1);
      forall i | 0 <= i < |w'.procs| ensures Tracks(s0, w'.store, procs0[i], w'.procs[i]) {
        assert i != l.i ==> w'.procs[i] == w.procs[i] && Tracks(s0, w.store, procs0[i], w.procs[i]);
      }
      forall i, j | 0 <= i < |w'.procs| && 0 <= j < |w'.procs| && i != j
        ensures !SameHeld(w'.procs[i], w'.procs[j])
      {
        assert !SameHeld(w.procs[i], w.procs[j]);
        assert Tracks(s0, w.store, procs0[i], w.procs[i]) && Tracks(s0, w.store, procs0[j], w.procs[j]);
      }
    }
  }

  lemma BatchIsClear(s0: Store, procs0: seq<Pc>, w: World)
    requires BatchInvariant(s0, procs0, w) && !Compete(s0, procs0)
    ensures Clear(w.procs)
  {
    forall i, j | 0 <= i < |w.procs| && 0 <= j < |w.procs| && i != j
      ensures !SamePending(w.procs[i], w.procs[j])
    {
      assert Tracks(s0, w.store, procs0[i], w.procs[i]) && Tracks(s0, w.store, procs0[j], w.procs[j]);
      assert !Rivals(s0, procs0[i], procs0[j]);
    }
  }

  lemma {:induction false} BatchKeeps(s0: Store, procs0: seq<Pc>, schedule: seq<Label>)
    requires BatchInvariant(s0, procs0, World(s0, procs0)) && !Compete(s0, procs0) && OnlyCalls(schedule)
    ensures BatchInvariant(s0, procs0, Exec(World(s0, procs0), schedule))
  {
    if schedule != [] {
      var n := |schedule| - 1;
      BatchKeeps(s0, procs0, schedule[..n]);
      BatchStep(s0, procs0, Exec(World(s0, procs0), schedule[..n]), schedule[n]);
    }
  }

  lemma IssuedIsABatch(s: Store, requests: seq<CreateUserRequest>, hasRbac: bool)
    requires Consistent(s) && DistinctEmails(s)
    ensures var procs := Issued(requests, hasRbac); BatchInvariant(s, procs, World(s, procs))
  {
    var procs := Issued(requests, hasRbac);
    forall i | 0 <= i < |procs| ensures ProcOk(s, procs[i]) && Tracks(s, s, procs[i], procs[i]) && Held(procs[i]) == None {
      StartIsOk(s, Create(requests[i], hasRbac));
    }
  }

  /** For any creates issued at once: emails stay distinct in every interleaving and with any faults if and only if no two
      valid ones ask for the same email that nobody has. */
  lemma BatchIsSafeExactly(s: Store, requests: seq<CreateUserRequest>, hasRbac: bool)
    requires Consistent(s) && DistinctEmails(s)
    ensures AlwaysDistinct(s, Issued(requests, hasRbac)) <==> !Compete(s, Issued(requests, hasRbac))
  {
    var procs := Issued(requests, hasRbac);
    if Compete(s, procs) {
      var i, j :| 0 <= i < |procs| && 0 <= j < |procs| && i != j && Rivals(s, procs[i], procs[j]);
      var schedule := RivalsCanBothWin(s, procs, i, j);
      assert OnlyCalls(schedule);
    } else {
      IssuedIsABatch(s, requests, hasRbac);
      forall schedule | OnlyCalls(schedule) ensures DistinctEmails(Exec(World(s, procs), schedule).store) {
        BatchKeeps(s, procs, schedule);
      }
    }
  }

  /* ---- how two creates for one email both succeed ---- */

  lemma LongerThanAll(ids: set<Id>) returns (m: nat)
    ensures forall x :: x in ids ==> |x| <= m
  {
    m := 0;
    if ids != {} {
      var x :| x in ids;
      m := LongerThanAll(ids - {x});
      m := if |x| <= m then m else |x|;
    }
  }

  lemma TwoNewIds(ids: set<Id>) returns (x: Id, y: Id)
    ensures x !in ids && y !in ids && x != y
  {
    var m := LongerThanAll(ids);
    x, y := seq(m + 1, _ => '0'), seq(m + 2, _ => '0');
  }

  predicate Unused(s: Store, id: Id) {
    id !in s.users && id !in s.issued
  }

  lemma Inserts(w: World, i: nat, a: Answer, d: Draft)
    requires i < |w.procs| && w.procs[i] == Creating(CInsert(d))
    requires !a.fails && Unused(w.store, a.newId)
    ensures var w', row := Apply(w, Run(i, a)), NewManagedUser(d).(id := a.newId);
            && w'.store == w.store.(users := w.store.users[a.newId := row], issued := w.store.issued[a.newId := a.newId])
            && w'.procs == w.procs[i := Creating(CProfile(d, row))]
  {
  }

  /** Both look for the email, both hash, both insert. */
  function Race(i: nat, j: nat, x: Id, y: Id): seq<Label> {
    var a, b := Run(i, Answer(false, x)), Run(j, Answer(false, y));
    [a, b, a, b, a, b]
  }

  lemma BothFindNobody(w: World, i: nat, j: nat, a: Answer, b: Answer, d: Draft, e: Draft)
    requires i < |w.procs| && j < |w.procs| && i != j && d.email == e.email && EmailIds(w.store, d.email) == {}
    requires w.procs[i] == Creating(CFind(d)) && w.procs[j] == Creating(CFind(e)) && !a.fails && !b.fails
    ensures Apply(Apply(w, Run(i, a)), Run(j, b)) ==
            w.(procs := w.procs[i := Creating(CHash(d))][j := Creating(CHash(e))])
  {
    FindsNobody(w, i, a, d);
    FindsNobody(Apply(w, Run(i, a)), j, b, e);
  }

  lemma BothHash(w: World, i: nat, j: nat, a: Answer, b: Answer, d: Draft, e: Draft)
    requires i < |w.procs| && j < |w.procs| && i != j
    requires w.procs[i] == Creating(CHash(d)) && w.procs[j] == Creating(CHash(e)) && !a.fails && !b.fails
    ensures Apply(Apply(w, Run(i, a)), Run(j, b)) ==
            w.(procs := w.procs[i := Creating(CInsert(d))][j := Creating(CInsert(e))])
  {
    Hashes(w, i, a, d);
    Hashes(Apply(w, Run(i, a)), j, b, e);
  }

  lemma BothInsert(w: World, i: nat, j: nat, a: Answer, b: Answer, d: Draft, e: Draft)
    requires i < |w.procs| && j < |w.procs| && i != j && d.email == e.email && a.newId != b.newId
    requires w.procs[i] == Creating(CInsert(d)) && w.procs[j] == Creating(CInsert(e)) && !a.fails && !b.fails
    requires Unused(w.store, a.newId) && Unused(w.store, b.newId)
    ensures !DistinctEmails(Apply(Apply(w, Run(i, a)), Run(j, b)).store)
  {
    Inserts(w, i, a, d);
    Inserts(Apply(w, Run(i, a)), j, b, e);
    var users := Apply(Apply(w, Run(i, a)), Run(j, b)).store.users;
    assert a.newId in users && b.newId in users && users[a.newId].email == users[b.newId].email;
  }

  lemma TwoSteps(w: World, schedule: seq<Label>, k: nat)
    requires k + 1 < |schedule|
    ensures Exec(w, schedule[..k + 2]) == Apply(Apply(Exec(w, schedule[..k]), schedule[k]), schedule[k + 1])
  {
    ExecStep(w, schedule, k);
    ExecStep(w, schedule, k + 1);
  }

  lemma RaceSharesAnEmail(w: World, i: nat, j: nat, d: Draft, e: Draft, x: Id, y: Id)
    requires i < |w.procs| && j < |w.procs| && i != j && d.email == e.email && EmailIds(w.store, d.email) == {}
    requires w.procs[i] == Creating(CFind(d)) && w.procs[j] == Creating(CFind(e)) && x != y
    requires Unused(w.store, x) && Unused(w.store, y)
    ensures !DistinctEmails(Exec(w, Race(i, j, x, y)).store)
  {
    var r := Race(i, j, x, y);
    RaceToInsert(w, i, j, d, e, x, y);
    TwoSteps(w, r, 4);
    BothInsert(Exec(w, r[..4]), i, j, Answer(false, x), Answer(false, y), d, e);
    assert r[..6] == r;
  }

  lemma RaceToInsert(w: World, i: nat, j: nat, d: Draft, e: Draft, x: Id, y: Id)
    requires i < |w.procs| && j < |w.procs| && i != j && d.email == e.email && EmailIds(w.store, d.email) == {}
    requires w.procs[i] == Creating(CFind(d)) && w.procs[j] == Creating(CFind(e))
    ensures var v := Exec(w, Race(i, j, x, y)[..4]);
            && v.store == w.store && |v.procs| == |w.procs|
            && v.procs[i] == Creating(CInsert(d)) && v.procs[j] == Creating(CInsert(e))
  {
    var r, a, b := Race(i, j, x, y), Answer(false, x), Answer(false, y);
    TwoSteps(w, r, 0);
    BothFindNobody(w, i, j, a, b, d, e);
    TwoSteps(w, r, 2);
    BothHash(Exec(w, r[..2]), i, j, a, b, d, e);
  }

  lemma RivalsCanBothWin(s: Store, procs: seq<Pc>, i: nat, j: nat) returns (schedule: seq<Label>)
    requires i < |procs| && j < |procs| && i != j && Rivals(s, procs[i], procs[j])
    ensures OnlyCalls(schedule) && !DistinctEmails(Exec(World(s, procs), schedule).store)
  {
    var x, y := TwoNewIds(s.users.Keys + s.issued.Keys);
    schedule := Race(i, j, x, y);
    RaceSharesAnEmail(World(s, procs), i, j, procs[i].c.d, procs[j].c.d, x, y);
  }

  /* ---- overlapping creates ---- */

  const EMPTY_STORE := Store(map[], map[], map[], map[], map[])
  const SAME_REQUEST := Create(CreateUserRequest("a@b", "secret", None, None, "admin", OtherStatus("")), true)
  const SAME_DRAFT: Draft := Draft("a@b", Active, "admin", None, None, true)

  /** Two creates for one address: both arrive, then race. */
  const OVERLAP: seq<Label> := [Arrive(SAME_REQUEST), Arrive(SAME_REQUEST)] + Race(0, 1, "x", "y")

  lemma SameRequestIsValid()
    ensures Start(SAME_REQUEST) == Creating(CFind(SAME_DRAFT))
  {
    TrimSpaceFixes("a@b");
    TrimSpaceFixes("admin");
    assert ToLower("a@b") == "a@b";
  }

  lemma ExecStep(w: World, schedule: seq<Label>, k: nat)
    requires k < |schedule|
    ensures Exec(w, schedule[..k + 1]) == Apply(Exec(w, schedule[..k]), schedule[k])
  {
    assert schedule[..k + 1][..k] == schedule[..k];
  }

  lemma FindsNobody(w: World, i: nat, a: Answer, d: Draft)
    requires i < |w.procs| && w.procs[i] == Creating(CFind(d)) && EmailIds(w.store, d.email) == {} && !a.fails
    ensures Apply(w, Run(i, a)) == w.(procs := w.procs[i := Creating(CHash(d))])
  {
  }

  lemma Hashes(w: World, i: nat, a: Answer, d: Draft)
    requires i < |w.procs| && w.procs[i] == Creating(CHash(d)) && !a.fails
    ensures Apply(w, Run(i, a)) == w.(procs := w.procs[i := Creating(CInsert(d))])
  {
  }

  lemma BothArrive()
    ensures Exec(World(EMPTY_STORE, []), [Arrive(SAME_REQUEST), Arrive(SAME_REQUEST)]) ==
            World(EMPTY_STORE, [Creating(CFind(SAME_DRAFT)), Creating(CFind(SAME_DRAFT))])
  {
    var w, arrivals := World(EMPTY_STORE, []), [Arrive(SAME_REQUEST), Arrive(SAME_REQUEST)];
    SameRequestIsValid();
    TwoSteps(w, arrivals, 0);
    assert arrivals[..2] == arrivals;
  }

  /** The guarantee needs the requests not to overlap: look-up and insert are two calls. */
  lemma OverlappingCreatesShareAnEmail()
    ensures Consistent(EMPTY_STORE) && DistinctEmails(EMPTY_STORE)
    ensures !DistinctEmails(Exec(World(EMPTY_STORE, []), OVERLAP).store)
  {
    var w := World(EMPTY_STORE, []);
    BothArrive();
    ExecSplit(w, OVERLAP, 2);
    assert OVERLAP[..2] == [Arrive(SAME_REQUEST), Arrive(SAME_REQUEST)] && OVERLAP[2..] == Race(0, 1, "x", "y");
    assert "x"[0] != "y"[0];
    RaceSharesAnEmail(Exec(w, OVERLAP[..2]), 0, 1, SAME_DRAFT, SAME_DRAFT, "x", "y");
  }

  /* ---- a stale copy brings an email back ---- */

  const MOVE := UpdateUserRequest(Some("b@b"), None, None, None)
  const OLD_ROW := UserRow("u", "a@b", Active, true)
  const NEW_ROW := UserRow("u", "b@b", Active, true)
  const STALE_ROW := UserRow("u", "a@b", Inactive, false)
  const SECOND_ROW := UserRow("x", "a@b", Active, true)

  /** A status change loads the user; an update moves the user to another email; a create takes the old one; and then the
      status change saves its copy. */
  const STALE: seq<Label> :=
    [Arrive(ChangeStatus("u", Inactive)), Run(0, Answer(false, "x")),
     Arrive(Update("u", MOVE)), Run(1, Answer(false, "x")), Run(1, Answer(false, "x")), Run(1, Answer(false, "x")),
     Arrive(SAME_REQUEST), Run(2, Answer(false, "x")), Run(2, Answer(false, "x")), Run(2, Answer(false, "x")),
     Run(0, Answer(false, "x"))]

  function Users(users: map<Id, UserRow>): Store {
    Store(users, map[], map[], map[], if "x" in users then map["x" := "x"] else map[])
  }

  function StaleProcs(k: nat): seq<Pc> {
    var restating := if k == 1 then SFind
                     else if k <= 10 then SSave(UserView(STALE_ROW, None)) else SDone(Ok(UserView(STALE_ROW, None)));
    var moved := UserView(NEW_ROW, None);
    var updating := if k == 3 then UFind else if k == 4 then UEmail(UserView(OLD_ROW, None), "b@b")
                    else if k == 5 then USave(moved) else UDone(Ok(moved));
    var creating := if k == 7 then CFind(SAME_DRAFT) else if k == 8 then CHash(SAME_DRAFT)
                    else if k == 9 then CInsert(SAME_DRAFT) else CProfile(SAME_DRAFT, SECOND_ROW);
    (if k < 1 then [] else [Restating("u", Inactive, restating)])
    + (if k < 3 then [] else [Updating("u", MOVE, updating)])
    + (if k < 7 then [] else [Creating(creating)])
  }

  /** Where that run is after `k` of its steps. */
  function StaleWorld(k: nat): World {
    World(if k < 6 then Users(map["u" := OLD_ROW]) else if k < 10 then Users(map["u" := NEW_ROW])
          else Users(map["u" := if k == 10 then NEW_ROW else STALE_ROW, "x" := SECOND_ROW]),
          StaleProcs(k))
  }

  lemma MoveIsValid()
    ensures NormalEmail("b@b") == "b@b" && ValidEmail("b@b")
  {
    TrimSpaceFixes("b@b");
    assert ToLower("b@b") == "b@b";
  }

  lemma StaleArrival(k: nat)
    requires k == 0 || k == 2 || k == 6
    ensures Apply(StaleWorld(k), STALE[k]) == StaleWorld(k + 1)
  {
    SameRequestIsValid();
  }

  lemma StaleStatusStep(k: nat)
    requires k == 1 || k == 10
    ensures Apply(StaleWorld(k), STALE[k]) == StaleWorld(k + 1)
  {
  }

  lemma StaleUpdateStep(k: nat)
    requires k == 3 || k == 4 || k == 5
    ensures Apply(StaleWorld(k), STALE[k]) == StaleWorld(k + 1)
  {
    MoveIsValid();
  }

  lemma StaleCreateStep(k: nat)
    requires k == 7 || k == 8 || k == 9
    ensures Apply(StaleWorld(k), STALE[k]) == StaleWorld(k + 1)
  {
  }

  lemma StaleStep(k: nat)
    requires k < 11
    ensures Apply(StaleWorld(k), STALE[k]) == StaleWorld(k + 1)
  {
    if k == 0 || k == 2 || k == 6 {
      StaleArrival(k);
    } else if k == 1 || k == 10 {
      StaleStatusStep(k);
    } else if k <= 5 {
      StaleUpdateStep(k);
    } else {
      StaleCreateStep(k);
    }
  }

  lemma {:induction false} StaleRun(k: nat)
    requires k <= 11
    ensures Exec(StaleWorld(0), STALE[..k]) == StaleWorld(k)
  {
    if k > 0 {
      StaleRun(k - 1);
      ExecStep(StaleWorld(0), STALE, k - 1);
      StaleStep(k - 1);
    }
  }

  lemma NoTwoCarry(k: nat, i: nat, j: nat)
    requires k <= 11 && i < j < |StaleProcs(k)|
    ensures Carried(StaleProcs(k)[i]) == None || Carried(StaleProcs(k)[j]) == None
  {
  }

  /** That overlapping requests carry different emails is not enough: in this run no two requests that carry an email
      overlap at all, no call fails, and still two users end up with one email. */
  lemma StaleSaveSharesAnEmail()
    ensures var w := World(Users(map["u" := OLD_ROW]), []);
            && Consistent(w.store) && DistinctEmails(w.store)
            && (forall k: nat :: k <= |STALE| ==>
                  var procs := Exec(w, STALE[..k]).procs;
                  forall i, j :: 0 <= i < j < |procs| ==> Carried(procs[i]) == None || Carried(procs[j]) == None)
            && DistinctEmails(Exec(w, STALE[..|STALE| - 1]).store)
            && !DistinctEmails(Exec(w, STALE).store)
  {
    var w := World(Users(map["u" := OLD_ROW]), []);
    assert w == StaleWorld(0);
    forall k: nat, i, j | k <= |STALE| && 0 <= i < j < |Exec(w, STALE[..k]).procs|
      ensures Carried(Exec(w, STALE[..k]).procs[i]) == None || Carried(Exec(w, STALE[..k]).procs[j]) == None
    {
      StaleRun(k);
      NoTwoCarry(k, i, j);
    }
    StaleRun(10);
    StaleRun(11);
    assert STALE[..11] == STALE;
    assert "u"[0] != "x"[0];
    var users := StaleWorld(11).store.users;
    assert "u" in users && "x" in users && users["u"].email == users["x"].email;
  }
}
