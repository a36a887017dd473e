/** `user.create-user` is idempotent: any number of deliveries for one user id, concurrent or retried, across
    instances and with any failing calls, next to any other requests on other users. */
module CreateDeliveries {
  import opened Text
  import opened Domain
  import opened Store
  import opened Requests
  import opened Interleavings

  /** The user a request works on, when the request names one. */
  function Target(r: Request): Option<Id> {
    match r
    case Deliver(p) => if p.Some? then Some(p.value.id) else None
    case Create(_, _) => None
    case Update(id, _) => Some(id)
    case ChangeStatus(id, _) => Some(id)
    case ChangeRole(id, _, _) => Some(id)
    case Attach(l) => Some(l.userId)
    case Remove(id, _, _) => Some(id)
    case EditProfile(id, _, _) => Some(id)
  }

  /** Only deliveries work on `id`, and no generator comes up with it. */
  predicate QuietLabel(l: Label, id: Id) {
    match l
    case Arrive(r) => r.Deliver? || Target(r) != Some(id)
    case Run(_, a) => a.newId != id
  }

  ghost predicate Quiet(schedule: seq<Label>, id: Id) {
    forall k :: 0 <= k < |schedule| ==> QuietLabel(schedule[k], id)
  }

  /** A request other than a delivery that has nothing to do with `id`. */
  predicate Avoids(p: Pc, id: Id) {
    match p
    case Handling(_, _, _) => true
    case Creating(CProfile(_, user)) => user.id != id
    case Creating(CAssign(_, user, _)) => user.id != id
    case Creating(CUndo(x, _)) => x != id
    case Creating(_) => true
    case Updating(x, _, _) => x != id
    case Restating(x, _, _) => x != id
    case Granting(x, _, _) => x != id
    case Attaching(l, _) => l.userId != id
    case Removing(x, _, _, _) => x != id
    case Editing(x, _, _, _) => x != id
  }

  /** The delivery for `id` whose insert succeeded. */
  predicate Won(p: Pc, id: Id) {
    p.Handling? && p.id == id && (p.h.HProfile? || (p.h.HDone? && p.h.reply.Created?))
  }

  predicate RepliedOk(p: Pc) {
    p.Handling? && p.h.HDone? && !p.h.reply.Rejected?
  }

  /** The stored profiles of one user. */
  function ProfilesOf(s: Store, id: Id): map<Id, ProfileRow> {
    map k | k in s.profiles && s.profiles[k].userId == id :: s.profiles[k]
  }

  /** Nothing about `id` differs. */
  ghost predicate SameFor(s: Store, s': Store, id: Id) {
    && (id in s.users <==> id in s'.users)
    && (id in s.users ==> s'.users[id] == s.users[id])
    && ProfilesOf(s, id) == ProfilesOf(s', id)
  }

  /** The winner decides the content of the row and, once it has replied, the profile. */
  ghost predicate DecidedBy(s: Store, id: Id, p: Pc)
    requires Won(p, id)
  {
    && id in s.users && s.users[id] == UserRow(id, TrimSpace(p.email), NewUser, true)
    && if p.h.HDone? && p.h.reply.profiled
       then exists k :: ProfilesOf(s, id) == map[k := ProfileRow(k, id, None, None)]
       else ProfilesOf(s, id) == map[]
  }

  ghost predicate Absent(s: Store, id: Id) {
    id !in s.users && ProfilesOf(s, id) == map[]
  }

  ghost predicate NoWinner(procs: seq<Pc>, id: Id) {
    forall i :: 0 <= i < |procs| ==> !Won(procs[i], id)
  }

  ghost predicate Idempotent(s0: Store, w: World, id: Id) {
    var s, procs := w.store, w.procs;
    // at most one delivery ever inserts
    && (forall i, j :: 0 <= i < |procs| && 0 <= j < |procs| && Won(procs[i], id) && Won(procs[j], id) ==> i == j)
    // and none does when the user was there before; then nothing changes
    && (id in s0.users ==> SameFor(s0, s, id) && NoWinner(procs, id))
    // otherwise the row is the winner's, and without a winner there is no row and no profile
    && (forall i :: 0 <= i < |procs| && Won(procs[i], id) ==> DecidedBy(s, id, procs[i]))
    && (id !in s0.users && NoWinner(procs, id) ==> Absent(s, id))
    // ok:true is sent only when the row exists; a refused insert met an existing row
    && (forall i :: 0 <= i < |procs| && procs[i].Handling? && procs[i].id == id ==>
          (RepliedOk(procs[i]) || procs[i].h == HRefind(Conflict) ==> id in s.users))
  }

  ghost predicate Invariant(s0: Store, w: World, id: Id) {
    Coherent(w) && Idempotent(s0, w, id) && forall i :: 0 <= i < |w.procs| ==> Avoids(w.procs[i], id)
  }

  lemma NoRowNoProfile(s: Store, id: Id)
    requires Consistent(s) && id !in s.users
    ensures ProfilesOf(s, id) == map[] && ProfileIdsOf(s, id) == {}
  {
  }

  lemma InsertProfileSame(s: Store, row: ProfileRow, a: Answer, id: Id)
    requires Consistent(s) && row.userId != id
    ensures SameFor(s, InsertProfile(s, row, a).0, id)
  {
  }

  lemma SaveProfileSame(s: Store, row: ProfileRow, a: Answer, id: Id)
    requires Consistent(s) && row.userId != id && HoldsProfile(s, row, row.userId)
    ensures SameFor(s, SaveProfile(s, row, a).0, id)
  {
  }

  lemma DeleteUserSame(s: Store, x: Id, a: Answer, id: Id)
    requires x != id
    ensures SameFor(s, DeleteUser(s, x, a).0, id)
  {
    assert ProfilesOf(DeleteUser(s, x, a).0, id) == ProfilesOf(s, id);
  }

  lemma InsertUserSame(s: Store, row: UserRow, a: Answer, id: Id)
    requires row.id != id && a.newId != id
    ensures SameFor(s, InsertUser(s, row, a).0, id)
  {
    assert ProfilesOf(InsertUser(s, row, a).0, id) == ProfilesOf(s, id);
  }

  lemma SaveUserSame(s: Store, row: UserRow, a: Answer, id: Id)
    requires row.id != id
    ensures SameFor(s, SaveUser(s, row, a).0, id)
  {
    assert ProfilesOf(SaveUser(s, row, a).0, id) == ProfilesOf(s, id);
  }

  lemma OtherDelivery(s: Store, x: Id, email: string, h: HandlePc, a: Answer, id: Id)
    requires Consistent(s) && x != id && a.newId != id
    ensures SameFor(s, HandleStep(s, x, email, h, a).0, id)
  {
    if h.HInsert? { InsertUserSame(s, FreshUser(x, email), a, id); }
    if h.HProfile? { InsertProfileSame(s, ProfileRow("", x, None, None), a, id); }
  }

  lemma OtherCreate(s: Store, c: CreatePc, a: Answer, id: Id)
    requires Consistent(s) && Avoids(Creating(c), id) && a.newId != id && id != ""
    ensures SameFor(s, CreateStep(s, c, a).0, id) && Avoids(Creating(CreateStep(s, c, a).1), id)
  {
    match c
    case CInsert(d) => InsertUserSame(s, NewManagedUser(d), a, id);
    case CProfile(d, user) => InsertProfileSame(s, ProfileRow("", user.id, d.displayName, d.avatarFileId), a, id);
    case CUndo(x, _) => DeleteUserSame(s, x, a, id);
    case _ =>
  }

  lemma OtherUpdate(s: Store, x: Id, req: UpdateUserRequest, u: UpdatePc, a: Answer, id: Id)
    requires Consistent(s) && PcOk(s, Updating(x, req, u)) && x != id
    ensures SameFor(s, UpdateStep(s, x, req, u, a).0, id)
  {
    if u.USaveProfile? { SaveProfileSame(s, u.profile, a, id); }
    if u.USave? { SaveUserSame(s, u.user.row, a, id); }
  }

  lemma OtherAttach(s: Store, l: LinkRequest, q: AttachPc, a: Answer, id: Id)
    requires Consistent(s) && PcOk(s, Attaching(l, q)) && l.userId != id
    ensures SameFor(s, AttachStep(s, l, q, a).0, id)
  {
    if q.ASave? { SaveProfileSame(s, q.profile, a, id); }
  }

  lemma OtherRestate(s: Store, x: Id, status: Status, q: StatusPc, a: Answer, id: Id)
    requires PcOk(s, Restating(x, status, q)) && x != id
    ensures SameFor(s, StatusStep(s, x, status, q, a).0, id)
  {
    if q.SSave? { SaveUserSame(s, q.user.row, a, id); }
  }

  lemma OtherEdit(s: Store, x: Id, name: Option<string>, fid: Option<string>, q: ProfilePc, a: Answer, id: Id)
    requires Consistent(s) && PcOk(s, Editing(x, name, fid, q)) && x != id
    ensures SameFor(s, ProfileStep(s, x, name, fid, q, a).0, id)
  {
    if q.PSave? { SaveProfileSame(s, q.profile, a, id); }
  }

  /** Requests about other users leave everything about `id` alone. */
  lemma OthersStayAway(s: Store, p: Pc, a: Answer, id: Id)
    requires Consistent(s) && PcOk(s, p) && Avoids(p, id) && a.newId != id && id != ""
    requires p.Handling? ==> p.id != id
    ensures SameFor(s, Step(s, p, a).0, id) && Avoids(Step(s, p, a).1, id)
  {
    match p
    case Handling(x, email, h) => OtherDelivery(s, x, email, h, a, id);
    case Creating(c) => OtherCreate(s, c, a, id);
    case Updating(x, req, u) => OtherUpdate(s, x, req, u, a, id);
    case Restating(x, st, q) => OtherRestate(s, x, st, q, a, id);
    case Granting(_, _, _) =>
    case Attaching(l, q) => OtherAttach(s, l, q, a, id);
    case Removing(_, _, _, _) =>
    case Editing(x, name, fid, q) => OtherEdit(s, x, name, fid, q, a, id);
  }

  /** One call of a delivery for `id` itself. */
  lemma OwnDelivery(s: Store, id: Id, email: string, h: HandlePc, a: Answer)
    requires Consistent(s) && id != ""
    ensures var (s', h') := HandleStep(s, id, email, h, a);
            var p, p' := Handling(id, email, h), Handling(id, email, h');
            && (s' == s || Won(p', id))
            && (!Won(p, id) && Won(p', id) ==> id !in s.users && DecidedBy(s', id, p'))
            && (Won(p, id) ==> Won(p', id) && (DecidedBy(s, id, p) ==> DecidedBy(s', id, p')))
            && (!Won(p', id) && (RepliedOk(p') || h' == HRefind(Conflict)) && h' != h ==> id in s.users)
  {
    if h.HInsert? && id !in s.users {
      NoRowNoProfile(s, id);
      var s' := HandleStep(s, id, email, h, a).0;
      assert ProfilesOf(s', id) == ProfilesOf(s, id);
    }
    if h.HProfile? && DecidedBy(s, id, Handling(id, email, h)) {
      InsertedProfile(s, id, a);
    }
  }

  lemma InsertedProfile(s: Store, id: Id, a: Answer)
    requires Consistent(s) && ProfilesOf(s, id) == map[]
    ensures var (s', r) := InsertProfile(s, ProfileRow("", id, None, None), a);
            && s'.users == s.users
            && ProfilesOf(s', id) == if r.Ok? then map[a.newId := ProfileRow(a.newId, id, None, None)] else map[]
  {
  }

  /** The winner's last call, over every schedule: the profile is stored, and the reply sent, exactly when that call passes
      with a fresh id; otherwise the reply is the same but the user stays without a profile. */
  lemma WinnerStoresTheProfile(s0: Store, schedule: seq<Label>, id: Id, i: nat, a: Answer)
    requires Consistent(s0) && id != "" && Quiet(schedule, id)
    requires var w := Exec(World(s0, []), schedule);
             i < |w.procs| && w.procs[i].Handling? && w.procs[i].id == id && w.procs[i].h == HProfile
    ensures var w := Exec(World(s0, []), schedule);
            var w' := Apply(w, Run(i, a));
            var stored := !a.fails && a.newId !in w.store.issued;
            && w'.procs[i] == w.procs[i].(h := HDone(Created(stored)))
            && ProfilesOf(w'.store, id) == (if stored then map[a.newId := ProfileRow(a.newId, id, None, None)] else map[])
  {
    DeliveriesAreIdempotent(s0, schedule, id);
    var w := Exec(World(s0, []), schedule);
    assert Won(w.procs[i], id);
    NoProfileIds(w.store, id);
    InsertedProfile(w.store, id, a);
  }

  lemma NoProfileIds(s: Store, id: Id)
    requires ProfilesOf(s, id) == map[]
    ensures ProfileIdsOf(s, id) == {}
  {
    forall k | k in ProfileIdsOf(s, id) ensures k in ProfilesOf(s, id) {}
  }

  /** Not a delivery for `id`, or one that has neither written nor replied ok. */
  predicate Uninvolved(p: Pc, id: Id) {
    p.Handling? && p.id == id ==> p.h.HFind? || (p.h.HDone? && p.h.reply.Rejected?)
  }

  lemma UninvolvedKeeps(s0: Store, w: World, w': World, id: Id)
    requires Idempotent(s0, w, id) && SameFor(w.store, w'.store, id) && |w.procs| <= |w'.procs|
    requires forall j :: 0 <= j < |w'.procs| ==>
               (j < |w.procs| && w'.procs[j] == w.procs[j]) ||
               (Uninvolved(w'.procs[j], id) && (j < |w.procs| ==> Uninvolved(w.procs[j], id)))
    ensures Idempotent(s0, w', id)
  {
    if NoWinner(w'.procs, id) {
      forall j | 0 <= j < |w.procs| ensures !Won(w.procs[j], id) {
        assert !Won(w'.procs[j], id);
      }
    }
  }

  lemma OwnDeliveryKeeps(s0: Store, w: World, i: nat, a: Answer, id: Id)
    requires Idempotent(s0, w, id) && Consistent(w.store) && id != ""
    requires i < |w.procs| && w.procs[i].Handling? && w.procs[i].id == id
    ensures Idempotent(s0, Apply(w, Run(i, a)), id)
  {
    var p, w' := w.procs[i], Apply(w, Run(i, a));
    OwnDelivery(w.store, id, p.email, p.h, a);
    assert w'.procs[i] == Handling(id, p.email, HandleStep(w.store, id, p.email, p.h, a).1);
    assert forall j :: 0 <= j < |w.procs| && j != i ==> w'.procs[j] == w.procs[j];
    if NoWinner(w'.procs, id) {
      assert !Won(w'.procs[i], id);
      forall j | 0 <= j < |w.procs| ensures !Won(w.procs[j], id) {
        assert !Won(w'.procs[j], id);
      }
    }
  }

  lemma ApplyKeepsIdempotent(s0: Store, w: World, l: Label, id: Id)
    requires id != "" && Invariant(s0, w, id) && QuietLabel(l, id)
    ensures Invariant(s0, Apply(w, l), id)
  {
    ApplyKeeps(w, l);
    if l.Arrive? {
      UninvolvedKeeps(s0, w, Apply(w, l), id);
    } else if l.i < |w.procs| {
      var p := w.procs[l.i];
      if p.Handling? && p.id == id {
        OwnDeliveryKeeps(s0, w, l.i, l.answer, id);
      } else {
        OthersStayAway(w.store, p, l.answer, id);
        UninvolvedKeeps(s0, w, Apply(w, l), id);
      }
    }
  }

  /** Over every schedule, whatever calls fail, as long as only deliveries work on `id`. */
  lemma {:induction false} DeliveriesAreIdempotent(s0: Store, schedule: seq<Label>, id: Id)
    requires Consistent(s0) && id != "" && Quiet(schedule, id)
    ensures Invariant(s0, Exec(World(s0, []), schedule), id)
  {
    if schedule == [] {
      if id !in s0.users { NoRowNoProfile(s0, id); }
    } else {
      var n := |schedule| - 1;
      DeliveriesAreIdempotent(s0, schedule[..n], id);
      ApplyKeepsIdempotent(s0, Exec(World(s0, []), schedule[..n]), schedule[n], id);
    }
  }

  /* ---- next to requests of any kind ---- */

  /** No generator comes up with `id`; the requests may be any, on any user. */
  ghost predicate Ungenerated(schedule: seq<Label>, id: Id) {
    forall k :: 0 <= k < |schedule| && schedule[k].Run? ==> schedule[k].answer.newId != id
  }

  /** A request that is about to delete a user deletes another one; one about to save this user has found it. */
  predicate Harmless(s: Store, p: Pc, id: Id) {
    match p
    case Creating(_) => Avoids(p, id)
    case Updating(x, _, u) => x == id && !u.UFind? && !u.UDone? ==> id in s.users
    case Restating(x, _, q) => x == id && q.SSave? ==> id in s.users
    case _ => true
  }

  /** The row of `id` is there exactly if it was or one delivery, the only one, has inserted it; ok:true is replied
      only when it is there. */
  ghost predicate InsertedOnce(s0: Store, w: World, id: Id) {
    var s, procs := w.store, w.procs;
    && (forall i, j :: 0 <= i < |procs| && 0 <= j < |procs| && Won(procs[i], id) && Won(procs[j], id) ==> i == j)
    && (id in s0.users ==> NoWinner(procs, id))
    && (id in s.users <==> id in s0.users || !NoWinner(procs, id))
    && (forall i :: 0 <= i < |procs| && procs[i].Handling? && procs[i].id == id ==>
          (RepliedOk(procs[i]) || procs[i].h == HRefind(Conflict) ==> id in s.users))
  }

  ghost predicate OnceInvariant(s0: Store, w: World, id: Id) {
    Coherent(w) && InsertedOnce(s0, w, id) && forall i :: 0 <= i < |w.procs| ==> Harmless(w.store, w.procs[i], id)
  }

  lemma UpdateIsHarmless(s: Store, x: Id, req: UpdateUserRequest, u: UpdatePc, a: Answer, id: Id)
    requires PcOk(s, Updating(x, req, u)) && Harmless(s, Updating(x, req, u), id)
    ensures var (s', u') := UpdateStep(s, x, req, u, a);
            (id in s'.users <==> id in s.users) && Harmless(s', Updating(x, req, u'), id)
  {
  }

  lemma OthersAreHarmless(s: Store, p: Pc, a: Answer, id: Id)
    requires Consistent(s) && PcOk(s, p) && Harmless(s, p, id) && a.newId != id && id != ""
    requires p.Handling? ==> p.id != id
    ensures var (s', p') := Step(s, p, a); (id in s'.users <==> id in s.users) && Harmless(s', p', id)
  {
    match p
    case Handling(x, email, h) => OtherDelivery(s, x, email, h, a, id);
    case Creating(c) => OtherCreate(s, c, a, id);
    case Updating(x, req, u) => UpdateIsHarmless(s, x, req, u, a, id);
    case _ =>
  }

  lemma OwnDeliveryInserts(s: Store, id: Id, email: string, h: HandlePc, a: Answer)
    requires id != ""
    ensures var (s', h') := HandleStep(s, id, email, h, a);
            var p, p' := Handling(id, email, h), Handling(id, email, h');
            && (id in s'.users <==> id in s.users || (Won(p', id) && !Won(p, id)))
            && (Won(p, id) ==> Won(p', id))
            && (!Won(p, id) && Won(p', id) ==> id !in s.users)
            && (!Won(p', id) && (RepliedOk(p') || h' == HRefind(Conflict)) && h' != h ==> id in s.users)
  {
  }

  lemma OwnDeliveryKeepsOnce(s0: Store, w: World, i: nat, a: Answer, id: Id)
    requires OnceInvariant(s0, w, id) && id != ""
    requires i < |w.procs| && w.procs[i].Handling? && w.procs[i].id == id
    ensures InsertedOnce(s0, Apply(w, Run(i, a)), id) && (id in w.store.users ==> id in Apply(w, Run(i, a)).store.users)
  {
    var p, w' := w.procs[i], Apply(w, Run(i, a));
    OwnDeliveryInserts(w.store, id, p.email, p.h, a);
    assert w'.procs[i] == Handling(id, p.email, HandleStep(w.store, id, p.email, p.h, a).1);
    assert forall j :: 0 <= j < |w.procs| && j != i ==> w'.procs[j] == w.procs[j];
    if Won(w'.procs[i], id) {
      assert !NoWinner(w'.procs, id);
    } else {
      assert NoWinner(w'.procs, id) <==> NoWinner(w.procs, id);
    }
  }

  lemma OtherStepKeepsOnce(s0: Store, w: World, w': World, id: Id)
    requires InsertedOnce(s0, w, id) && (id in w.store.users <==> id in w'.store.users) && |w.procs| <= |w'.procs|
    requires forall j :: 0 <= j < |w'.procs| ==>
               (j < |w.procs| && w'.procs[j] == w.procs[j]) ||
               (Uninvolved(w'.procs[j], id) && (j < |w.procs| ==> Uninvolved(w.procs[j], id)))
    ensures InsertedOnce(s0, w', id)
  {
    assert NoWinner(w'.procs, id) <==> NoWinner(w.procs, id) by {
      if NoWinner(w'.procs, id) {
        forall j | 0 <= j < |w.procs| ensures !Won(w.procs[j], id) {
          assert !Won(w'.procs[j], id);
        }
      }
    }
  }

  lemma ApplyKeepsOnce(s0: Store, w: World, l: Label, id: Id)
    requires id != "" && OnceInvariant(s0, w, id) && (l.Run? ==> l.answer.newId != id)
    ensures OnceInvariant(s0, Apply(w, l), id)
  {
    var w' := Apply(w, l);
    ApplyKeeps(w, l);
    if l.Arrive? {
      OtherStepKeepsOnce(s0, w, w', id);
    } else if l.i < |w.procs| {
      var p := w.procs[l.i];
      if p.Handling? && p.id == id {
        OwnDeliveryKeepsOnce(s0, w, l.i, l.answer, id);
      } else {
        OthersAreHarmless(w.store, p, l.answer, id);
        OtherStepKeepsOnce(s0, w, w', id);
      }
    }
  }

  /** Next to requests of any kind, updates of the same user included: however often and however interleaved the
      creation of `id` is delivered, one delivery at most inserts the row, the row then stays, and ok:true is never
      replied without it. */
  lemma {:induction false} DeliveriesInsertOnce(s0: Store, schedule: seq<Label>, id: Id)
    requires Consistent(s0) && id != "" && Ungenerated(schedule, id)
    ensures OnceInvariant(s0, Exec(World(s0, []), schedule), id)
  {
    if schedule != [] {
      var n := |schedule| - 1;
      DeliveriesInsertOnce(s0, schedule[..n], id);
      ApplyKeepsOnce(s0, Exec(World(s0, []), schedule[..n]), schedule[n], id);
    }
  }

  /* ---- what a single delivery can rely on ---- */

  predicate Wrote(p: Pc) {
    p.Handling? && Won(p, p.id)
  }

  /** A delivery that ends without having created the user, in particular one that replies ok:false, has written
      nothing at any of its calls; this needs no assumption on the other requests. */
  lemma {:induction false} RejectedDeliveryWroteNothing(w: World, schedule: seq<Label>, i: nat, k: nat)
    requires k < |schedule| && schedule[k].Run? && schedule[k].i == i
    requires var procs := Exec(w, schedule).procs; i < |procs| ==> procs[i].Handling? && !Wrote(procs[i])
    ensures Exec(w, schedule[..k + 1]).store == Exec(w, schedule[..k]).store
  {
    var n := |schedule| - 1;
    if k < n {
      assert schedule[..n][..k] == schedule[..k] && schedule[..n][..k + 1] == schedule[..k + 1];
      RejectedDeliveryWroteNothing(w, schedule[..n], i, k);
    } else {
      assert schedule[..k + 1] == schedule && schedule[..k + 1][..k] == schedule[..k];
    }
  }

  ghost predicate OwnCallsSucceed(schedule: seq<Label>, i: nat) {
    forall k :: 0 <= k < |schedule| && schedule[k].Run? && schedule[k].i == i ==> !schedule[k].answer.fails
  }

  /** Where a delivery can be when none of its own calls has failed. */
  predicate OnCourse(h: HandlePc) {
    (h.HRefind? ==> h == HRefind(Conflict)) && (h.HDone? ==> !h.reply.Rejected?)
  }

  lemma StaysOnCourse(s: Store, id: Id, email: string, h: HandlePc, a: Answer)
    requires OnCourse(h) && !a.fails && (h.HRefind? ==> id in s.users)
    ensures OnCourse(HandleStep(s, id, email, h, a).1)
  {
  }

  /** Request `i`, if it is a delivery for `id`, is on course. */
  predicate NotRejected(w: World, id: Id, i: nat) {
    i < |w.procs| && w.procs[i].Handling? && w.procs[i].id == id ==> OnCourse(w.procs[i].h)
  }

  lemma ApplyStaysOnCourse(s0: Store, w: World, l: Label, id: Id, i: nat)
    requires OnceInvariant(s0, w, id) && NotRejected(w, id, i) && TrimSpace(id) != ""
    requires l.Run? && l.i == i ==> !l.answer.fails
    ensures NotRejected(Apply(w, l), id, i)
  {
    if l.Run? && l.i == i && i < |w.procs| && w.procs[i].Handling? && w.procs[i].id == id {
      StaysOnCourse(w.store, id, w.procs[i].email, w.procs[i].h, l.answer);
    }
  }

  lemma {:induction false} FaultFreeDeliveryIsNotRejected(s0: Store, schedule: seq<Label>, id: Id, i: nat)
    requires Consistent(s0) && TrimSpace(id) != "" && Ungenerated(schedule, id) && OwnCallsSucceed(schedule, i)
    ensures NotRejected(Exec(World(s0, []), schedule), id, i)
  {
    if schedule != [] {
      var n := |schedule| - 1;
      FaultFreeDeliveryIsNotRejected(s0, schedule[..n], id, i);
      DeliveriesInsertOnce(s0, schedule[..n], id);
      ApplyStaysOnCourse(s0, Exec(World(s0, []), schedule[..n]), schedule[n], id, i);
    }
  }

  /** A delivery with a well-formed payload and a non-blank id whose own calls do not fail replies ok:true within
      three calls, whatever happens to the others. */
  lemma FaultFreeDeliverySucceeds(s0: Store, before: seq<Label>, payload: Payload, after: seq<Label>)
    requires Consistent(s0) && TrimSpace(payload.id) != ""
    requires var i := |Exec(World(s0, []), before).procs|;
             var schedule := before + [Arrive(Deliver(Some(payload)))] + after;
             Ungenerated(schedule, payload.id) && OwnCallsSucceed(schedule, i) && Turns(after, i) >= 3
    ensures var w := Exec(World(s0, []), before + [Arrive(Deliver(Some(payload)))] + after);
            var i := |Exec(World(s0, []), before).procs|;
            i < |w.procs| && RepliedOk(w.procs[i]) && payload.id in w.store.users
  {
    var arrival := before + [Arrive(Deliver(Some(payload)))];
    var schedule := arrival + after;
    var w0 := World(s0, []);
    var i := |Exec(w0, before).procs|;
    assert arrival[..|arrival| - 1] == before;
    var w1 := Exec(w0, arrival);
    assert w1.procs[i] == Start(Deliver(Some(payload)));
    ExecSplit(w0, schedule, |arrival|);
    assert schedule[..|arrival|] == arrival && schedule[|arrival|..] == after;
    RequestsEnd(w1, after, i);
    StaysDelivery(w1, after, i);
    FaultFreeDeliveryIsNotRejected(s0, schedule, payload.id, i);
    DeliveriesInsertOnce(s0, schedule, payload.id);
  }

  lemma {:induction false} StaysDelivery(w: World, schedule: seq<Label>, i: nat)
    requires i < |w.procs| && w.procs[i].Handling?
    ensures var procs := Exec(w, schedule).procs;
            i < |procs| && procs[i].Handling? && procs[i].id == w.procs[i].id
  {
    if schedule != [] {
      StaysDelivery(w, schedule[..|schedule| - 1], i);
    }
  }

  /** Request `j` has made no further call, and nothing about `id` has changed. */
  ghost predicate Stands(early: World, late: World, id: Id, j: nat) {
    j < |early.procs| && j < |late.procs| && late.procs[j] == early.procs[j] && SameFor(early.store, late.store, id)
  }

  lemma OutcomeStandsStep(s0: Store, early: World, w: World, l: Label, id: Id, j: nat)
    requires id != "" && Invariant(s0, w, id) && QuietLabel(l, id) && Stands(early, w, id, j)
    requires Won(w.procs[j], id) && Finished(w.procs[j])
    ensures Stands(early, Apply(w, l), id, j)
  {
    if l.Run? && l.i < |w.procs| {
      var p := w.procs[l.i];
      if p.Handling? && p.id == id {
        OwnDelivery(w.store, id, p.email, p.h, l.answer);
        assert Won(p, id) ==> l.i == j;
      } else {
        OthersStayAway(w.store, p, l.answer, id);
      }
    }
  }

  lemma {:induction false} StandsFrom(s0: Store, w: World, schedule: seq<Label>, id: Id, j: nat)
    requires id != "" && Invariant(s0, w, id) && Quiet(schedule, id)
    requires j < |w.procs| && Won(w.procs[j], id) && Finished(w.procs[j])
    ensures Invariant(s0, Exec(w, schedule), id) && Stands(w, Exec(w, schedule), id, j)
  {
    if schedule != [] {
      var n := |schedule| - 1;
      var v := Exec(w, schedule[..n]);
      StandsFrom(s0, w, schedule[..n], id, j);
      ApplyKeepsIdempotent(s0, v, schedule[n], id);
      OutcomeStandsStep(s0, w, v, schedule[n], id, j);
    }
  }

  /** Once the winning delivery has replied, its outcome stands: no later delivery changes the user row, or whether
      and with which profile it comes. */
  lemma OutcomeStands(s0: Store, schedule: seq<Label>, id: Id, k: nat, j: nat)
    requires Consistent(s0) && id != "" && Quiet(schedule, id) && k <= |schedule|
    requires var early := Exec(World(s0, []), schedule[..k]);
             j < |early.procs| && Won(early.procs[j], id) && Finished(early.procs[j])
    ensures Stands(Exec(World(s0, []), schedule[..k]), Exec(World(s0, []), schedule), id, j)
  {
    DeliveriesAreIdempotent(s0, schedule[..k], id);
    StandsFrom(s0, Exec(World(s0, []), schedule[..k]), schedule[k..], id, j);
    ExecSplit(World(s0, []), schedule, k);
  }
}
