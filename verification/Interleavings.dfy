/** What every schedule keeps: the schema's constraints, the owner of every row, and the status invariant. */
module Interleavings {
  import opened Text
  import opened Domain
  import opened Store
  import opened Requests

  /* ---- coherence: the store is consistent and no request holds a row that could be misplaced ---- */

  ghost predicate HoldsProfile(s: Store, p: ProfileRow, userId: Id) {
    p.userId == userId && p.id in s.issued && s.issued[p.id] == userId
  }

  ghost predicate HoldsIdentity(s: Store, i: IdentityRow, userId: Id) {
    i.userId == userId && i.id in s.issued && (i.id in s.identities ==> s.identities[i.id] == i)
  }

  /** The rows a request carries between two calls are rows of the user it works on. */
  ghost predicate PcOk(s: Store, p: Pc) {
    match p
    case Updating(id, _, UEmail(user, _)) => user.row.id == id
    case Updating(id, _, UHash(user)) => user.row.id == id
    case Updating(id, _, UProfile(user)) => user.row.id == id
    case Updating(id, _, USaveProfile(user, profile)) => user.row.id == id && HoldsProfile(s, profile, id)
    case Updating(id, _, USave(user)) => user.row.id == id
    case Restating(id, _, SSave(user)) => user.row.id == id
    case Attaching(l, ASave(_, profile)) => HoldsProfile(s, profile, l.userId)
    case Removing(id, provider, pid, DDelete(i)) =>
      HoldsIdentity(s, i, id) && i.provider == provider && i.providerUserId == pid
    case Editing(id, _, _, PSave(profile)) => HoldsProfile(s, profile, id)
    case _ => true
  }

  ghost predicate Coherent(w: World) {
    Consistent(w.store) && forall i :: 0 <= i < |w.procs| ==> PcOk(w.store, w.procs[i])
  }

  lemma FoundProfile(s: Store, userId: Id)
    requires Consistent(s) && ProfileByUser(s, userId).Ok?
    ensures HoldsProfile(s, ProfileByUser(s, userId).value, userId)
    ensures ProfileByUser(s, userId).value.id in s.profiles
    ensures s.profiles[ProfileByUser(s, userId).value.id] == ProfileByUser(s, userId).value
  {
  }

  lemma OwnProfileOnly(s: Store, userId: Id)
    requires Consistent(s) && ProfileByUser(s, userId).Ok?
    ensures ProfileIdsOf(s, userId) == {ProfileByUser(s, userId).value.id}
  {
  }

  lemma FoundIdentity(s: Store, provider: Provider, pid: string)
    requires Consistent(s) && IdentityByLink(s, provider, pid).Ok?
    ensures var i := IdentityByLink(s, provider, pid).value;
            i.id in s.identities && s.identities[i.id] == i && i.provider == provider && i.providerUserId == pid
  {
  }

  lemma StepKeeps(s: Store, p: Pc, a: Answer)
    requires Consistent(s) && PcOk(s, p)
    ensures Consistent(Step(s, p, a).0) && Evolves(s, Step(s, p, a).0)
    ensures PcOk(Step(s, p, a).0, Step(s, p, a).1)
  {
    match p
    case Handling(id, email, h) => HandleKeeps(s, id, email, h, a);
    case Creating(c) => CreateKeeps(s, c, a);
    case Updating(id, req, u) => UpdateKeeps(s, id, req, u, a);
    case Restating(id, st, q) => RestateKeeps(s, id, st, q, a);
    case Granting(id, role, q) =>
    case Attaching(l, q) => AttachKeeps(s, l, q, a);
    case Removing(id, pr, pid, q) => RemoveKeeps(s, id, pr, pid, q, a);
    case Editing(id, name, fid, q) => EditKeeps(s, id, name, fid, q, a);
  }

  lemma RestateKeeps(s: Store, id: Id, status: Status, q: StatusPc, a: Answer)
    requires Consistent(s) && PcOk(s, Restating(id, status, q))
    ensures var (s', q') := StatusStep(s, id, status, q, a);
            Consistent(s') && Evolves(s, s') && PcOk(s', Restating(id, status, q'))
  {
    if q.SSave? { SaveUserKeeps(s, q.user.row, a); }
  }

  lemma RemoveKeeps(s: Store, id: Id, provider: Provider, pid: string, q: RemovePc, a: Answer)
    requires Consistent(s) && PcOk(s, Removing(id, provider, pid, q))
    ensures var (s', q') := RemoveStep(s, id, provider, pid, q, a);
            Consistent(s') && Evolves(s, s') && PcOk(s', Removing(id, provider, pid, q'))
  {
    if q.DDelete? { DeleteIdentityKeeps(s, q.identity.id, a); }
    if q.DLookup? && IdentityByLink(s, provider, pid).Ok? { FoundIdentity(s, provider, pid); }
  }

  lemma EditKeeps(s: Store, id: Id, name: Option<string>, fileId: Option<string>, q: ProfilePc, a: Answer)
    requires Consistent(s) && PcOk(s, Editing(id, name, fileId, q))
    ensures var (s', q') := ProfileStep(s, id, name, fileId, q, a);
            Consistent(s') && Evolves(s, s') && PcOk(s', Editing(id, name, fileId, q'))
  {
    if q.PFind? && ProfileByUser(s, id).Ok? { FoundProfile(s, id); }
    if q.PSave? { SaveProfileKeeps(s, q.profile, a); }
  }

  lemma HandleKeeps(s: Store, id: Id, email: string, h: HandlePc, a: Answer)
    requires Consistent(s)
    ensures Consistent(HandleStep(s, id, email, h, a).0) && Evolves(s, HandleStep(s, id, email, h, a).0)
  {
    if h.HInsert? { InsertUserKeeps(s, FreshUser(id, email), a); }
    if h.HProfile? { InsertProfileKeeps(s, ProfileRow("", id, None, None), a); }
  }

  lemma CreateKeeps(s: Store, c: CreatePc, a: Answer)
    requires Consistent(s)
    ensures Consistent(CreateStep(s, c, a).0) && Evolves(s, CreateStep(s, c, a).0)
  {
    if c.CInsert? { InsertUserKeeps(s, NewManagedUser(c.d), a); }
    if c.CProfile? { InsertProfileKeeps(s, ProfileRow("", c.user.id, c.d.displayName, c.d.avatarFileId), a); }
    if c.CUndo? { DeleteUserKeeps(s, c.id, a); }
  }

  lemma UpdateKeeps(s: Store, id: Id, req: UpdateUserRequest, u: UpdatePc, a: Answer)
    requires Consistent(s) && PcOk(s, Updating(id, req, u))
    ensures var (s', u') := UpdateStep(s, id, req, u, a);
            Consistent(s') && Evolves(s, s') && PcOk(s', Updating(id, req, u'))
  {
    if u.UProfile? && ProfileByUser(s, id).Ok? { FoundProfile(s, id); }
    if u.USaveProfile? { SaveProfileKeeps(s, u.profile, a); }
    if u.USave? { SaveUserKeeps(s, u.user.row, a); }
  }

  lemma AttachKeeps(s: Store, l: LinkRequest, q: AttachPc, a: Answer)
    requires Consistent(s) && PcOk(s, Attaching(l, q))
    ensures var (s', q') := AttachStep(s, l, q, a);
            Consistent(s') && Evolves(s, s') && PcOk(s', Attaching(l, q'))
  {
    if q.AInsert? { InsertIdentityKeeps(s, NewIdentity(l), a); }
    if q.AProfile? && ProfileByUser(s, l.userId).Ok? { FoundProfile(s, l.userId); }
    if q.ASave? { SaveProfileKeeps(s, q.profile, a); }
  }

  lemma ApplyKeeps(w: World, l: Label)
    requires Coherent(w)
    ensures Coherent(Apply(w, l)) && Evolves(w.store, Apply(w, l).store)
  {
    var w' := Apply(w, l);
    if l.Run? && l.i < |w.procs| {
      StepKeeps(w.store, w.procs[l.i], l.answer);
      forall j | 0 <= j < |w'.procs| ensures PcOk(w'.store, w'.procs[j]) {
        assert j != l.i ==> PcOk(w.store, w.procs[j]) && w'.procs[j] == w.procs[j];
      }
    }
  }

  /** Over every schedule: the schema's constraints hold at every moment, no row changes its owner, and an identity
      row stays as it was created until it is gone for good. */
  lemma {:induction false} ExecKeeps(w: World, schedule: seq<Label>)
    requires Coherent(w)
    ensures Coherent(Exec(w, schedule)) && Evolves(w.store, Exec(w, schedule).store)
  {
    if schedule != [] {
      var n := |schedule| - 1;
      ExecKeeps(w, schedule[..n]);
      ApplyKeeps(Exec(w, schedule[..n]), schedule[n]);
    }
  }

  lemma {:induction false} AloneKeeps(s: Store, p: Pc, env: nat -> Answer, n: nat)
    requires Consistent(s) && PcOk(s, p)
    ensures Consistent(Alone(s, p, env, n).0) && Finished(Alone(s, p, env, n).1)
    ensures Evolves(s, Alone(s, p, env, n).0)
    decreases Remaining(p)
  {
    if !Finished(p) {
      var (s', p') := Step(s, p, env(n));
      StepKeeps(s, p, env(n));
      AloneKeeps(s', p', env, n + 1);
    }
  }

  /* ---- schedules ---- */

  lemma {:induction false} ExecConcat(w: World, first: seq<Label>, second: seq<Label>)
    ensures Exec(w, first + second) == Exec(Exec(w, first), second)
  {
    if second == [] {
      assert first + second == first;
    } else {
      var n := |second| - 1;
      ExecConcat(w, first, second[..n]);
      assert (first + second)[..|first| + n] == first + second[..n];
      assert (first + second)[|first| + n] == second[n];
    }
  }

  lemma ExecSplit(w: World, schedule: seq<Label>, k: nat)
    requires k <= |schedule|
    ensures Exec(w, schedule) == Exec(Exec(w, schedule[..k]), schedule[k..])
  {
    assert schedule == schedule[..k] + schedule[k..];
    ExecConcat(w, schedule[..k], schedule[k..]);
  }

  /* ---- status ---- */

  ghost predicate AllSound(s: Store) {
    forall k :: k in s.users ==> Sound(s.users[k])
  }

  /** A user copy held between load and save is sound too: it may overwrite the stored row later. */
  ghost predicate HeldSound(p: Pc) {
    match p
    case Creating(CProfile(_, user)) => Sound(user)
    case Creating(CAssign(_, user, _)) => Sound(user)
    case Updating(_, _, UEmail(user, _)) => Sound(user.row)
    case Updating(_, _, UHash(user)) => Sound(user.row)
    case Updating(_, _, UProfile(user)) => Sound(user.row)
    case Updating(_, _, USaveProfile(user, _)) => Sound(user.row)
    case Updating(_, _, USave(user)) => Sound(user.row)
    case Restating(_, _, SSave(user)) => Sound(user.row)
    case _ => true
  }

  ghost predicate StatusInvariant(w: World) {
    AllSound(w.store) && forall i :: 0 <= i < |w.procs| ==> HeldSound(w.procs[i])
  }

  lemma StepSound(s: Store, p: Pc, a: Answer)
    requires AllSound(s) && HeldSound(p)
    ensures AllSound(Step(s, p, a).0) && HeldSound(Step(s, p, a).1)
  {
    match p
    case Creating(c) => CreateSound(s, c, a);
    case Updating(id, req, u) => UpdateSound(s, id, req, u, a);
    case _ =>
  }

  lemma CreateSound(s: Store, c: CreatePc, a: Answer)
    requires AllSound(s) && HeldSound(Creating(c))
    ensures AllSound(CreateStep(s, c, a).0) && HeldSound(Creating(CreateStep(s, c, a).1))
  {
  }

  lemma UpdateSound(s: Store, id: Id, req: UpdateUserRequest, u: UpdatePc, a: Answer)
    requires AllSound(s) && HeldSound(Updating(id, req, u))
    ensures var (s', u') := UpdateStep(s, id, req, u, a); AllSound(s') && HeldSound(Updating(id, req, u'))
  {
  }

  /** Lost updates included, every stored row keeps a valid status that agrees with its activity flag, so the
      fallback in `StatusOrDefault` never shows. */
  lemma {:induction false} StatusStaysSound(w: World, schedule: seq<Label>)
    requires StatusInvariant(w)
    ensures StatusInvariant(Exec(w, schedule))
    ensures var s := Exec(w, schedule).store;
            forall k :: k in s.users ==> StatusOrDefault(s.users[k]) == s.users[k].status
  {
    if schedule != [] {
      var n := |schedule| - 1;
      StatusStaysSound(w, schedule[..n]);
      var v := Exec(w, schedule[..n]);
      var l := schedule[n];
      if l.Run? && l.i < |v.procs| {
        StepSound(v.store, v.procs[l.i], l.answer);
      }
    }
  }

  /* ---- progress ---- */

  /** How often the schedule lets request `i` make a call. */
  function Turns(schedule: seq<Label>, i: nat): nat {
    if schedule == [] then 0
    else
      var l := schedule[|schedule| - 1];
      Turns(schedule[..|schedule| - 1], i) + (if l.Run? && l.i == i then 1 else 0)
  }

  /** No request waits for another: it ends after at most as many of its own calls as it had left. */
  lemma {:induction false} RequestsEnd(w: World, schedule: seq<Label>, i: nat)
    requires i < |w.procs|
    ensures var w' := Exec(w, schedule);
            && i < |w'.procs|
            && Remaining(w'.procs[i]) <= Remaining(w.procs[i])
            && (Finished(w'.procs[i]) || Remaining(w'.procs[i]) + Turns(schedule, i) <= Remaining(w.procs[i]))
  {
    if schedule != [] {
      RequestsEnd(w, schedule[..|schedule| - 1], i);
    }
  }
}
