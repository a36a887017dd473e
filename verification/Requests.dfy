/** Every request that writes the store, as a sequence of repository calls.  `Step` performs one call; between two
    calls of one request any other request may run (`Exec`), or none does (`Alone`). */
module Requests {
  import opened Text
  import opened Domain
  import opened Store

  /* ---- requests ---- */

  datatype Payload = Payload(id: Id, email: string)

  datatype CreateUserRequest = CreateUserRequest(
    email: string, password: string, displayName: Option<string>, avatarFileId: Option<string>,
    role: string, status: Status)

  datatype UpdateUserRequest = UpdateUserRequest(
    email: Option<string>, password: Option<string>, displayName: Option<string>, avatarFileId: Option<string>)

  datatype LinkRequest = LinkRequest(
    userId: Id, provider: Provider, providerUserId: string, email: string,
    displayName: Option<string>, avatarUrl: Option<string>)

  datatype Request =
    | Deliver(payload: Option<Payload>)  // user.create-user; None when the body is not valid JSON
    | Create(create: CreateUserRequest, hasRbac: bool)
    | Update(userId: Id, update: UpdateUserRequest)
    | ChangeStatus(userId: Id, status: Status)
    | ChangeRole(userId: Id, role: string, hasRbac: bool)
    | Attach(link: LinkRequest)
    | Remove(userId: Id, provider: Provider, providerUserId: string)
    | EditProfile(userId: Id, displayName: Option<string>, avatarFileId: Option<string>)

  /* ---- control points: the next call, and what the request remembers ---- */

  datatype HandleReply = Replayed | Created(profiled: bool) | Rejected(error: Error)

  datatype HandlePc =
    | HFind | HInsert
    | HRefind(why: Error)
    | HProfile
    | HDone(reply: HandleReply)

  /** A create request that has passed validation. */
  datatype DraftData = Draft(email: string, status: Status, role: string, displayName: Option<string>,
                             avatarFileId: Option<string>, hasRbac: bool)

  type Draft = d: DraftData | IsValid(d.status)
    witness Draft("", Active, "", None, None, false)

  datatype CreatePc =
    | CFind(d: Draft) | CHash(d: Draft) | CInsert(d: Draft)
    | CProfile(d: Draft, user: UserRow)
    | CAssign(d: Draft, user: UserRow, profile: ProfileRow)
    | CUndo(id: Id, why: Error)
    | CDone(reply: Reply<UserView>)

  datatype UpdatePc =
    | UFind
    | UEmail(user: UserView, email: string)
    | UHash(user: UserView)
    | UProfile(user: UserView)
    | USaveProfile(user: UserView, profile: ProfileRow)
    | USave(user: UserView)
    | UDone(reply: Reply<UserView>)

  datatype StatusPc = SFind | SSave(user: UserView) | SDone(reply: Reply<UserView>)

  datatype RolePc = RFind | RAssign | RDone(reply: Reply<()>)

  type Linked = (IdentityRow, Option<ProfileRow>)

  datatype AttachPc =
    | AFind
    | ALookup(user: UserView)
    | AInsert
    | AProfile(identity: IdentityRow)
    | ASave(identity: IdentityRow, profile: ProfileRow)
    | ADone(reply: Reply<Linked>)

  datatype RemovePc = DLookup | DDelete(identity: IdentityRow) | DDone(reply: Reply<()>)

  datatype ProfilePc = PFind | PSave(profile: ProfileRow) | PDone(reply: Reply<ProfileRow>)

  datatype Pc =
    | Handling(id: Id, email: string, h: HandlePc)
    | Creating(c: CreatePc)
    | Updating(userId: Id, req: UpdateUserRequest, u: UpdatePc)
    | Restating(userId: Id, status: Status, s: StatusPc)
    | Granting(userId: Id, role: string, r: RolePc)
    | Attaching(link: LinkRequest, a: AttachPc)
    | Removing(userId: Id, provider: Provider, providerUserId: string, d: RemovePc)
    | Editing(userId: Id, displayName: Option<string>, avatarFileId: Option<string>, p: ProfilePc)

  predicate Finished(p: Pc) {
    match p
    case Handling(_, _, h) => h.HDone?
    case Creating(c) => c.CDone?
    case Updating(_, _, u) => u.UDone?
    case Restating(_, _, s) => s.SDone?
    case Granting(_, _, r) => r.RDone?
    case Attaching(_, a) => a.ADone?
    case Removing(_, _, _, d) => d.DDone?
    case Editing(_, _, _, e) => e.PDone?
  }

  /** An upper bound on the calls a request still makes. */
  function Remaining(p: Pc): nat {
    match p
    case Handling(_, _, h) => (match h case HFind => 3 case HInsert => 2 case HRefind(_) => 1 case HProfile => 1 case HDone(_) => 0)
    case Creating(c) => (match c case CFind(_) => 6 case CHash(_) => 5 case CInsert(_) => 4 case CProfile(_, _) => 3
                         case CAssign(_, _, _) => 2 case CUndo(_, _) => 1 case CDone(_) => 0)
    case Updating(_, _, u) => (match u case UFind => 6 case UEmail(_, _) => 5 case UHash(_) => 4 case UProfile(_) => 3
                               case USaveProfile(_, _) => 2 case USave(_) => 1 case UDone(_) => 0)
    case Restating(_, _, s) => (match s case SFind => 2 case SSave(_) => 1 case SDone(_) => 0)
    case Granting(_, _, r) => (match r case RFind => 2 case RAssign => 1 case RDone(_) => 0)
    case Attaching(_, a) => (match a case AFind => 5 case ALookup(_) => 4 case AInsert => 3 case AProfile(_) => 2
                             case ASave(_, _) => 1 case ADone(_) => 0)
    case Removing(_, _, _, d) => (match d case DLookup => 2 case DDelete(_) => 1 case DDone(_) => 0)
    case Editing(_, _, _, e) => (match e case PFind => 2 case PSave(_) => 1 case PDone(_) => 0)
  }

  /* ---- validation ---- */

  function NormalEmail(email: string): string {
    ToLower(TrimSpace(email))
  }

  predicate ValidEmail(email: string) {
    var e := TrimSpace(email);
    e != "" && '@' in e
  }

  predicate ValidPassword(pwd: string) {
    |pwd| >= 6
  }

  function FreshUser(id: Id, email: string): UserRow {
    WithStatus(UserRow(id, TrimSpace(email), OtherStatus(""), false), NewUser)
  }

  function Start(r: Request): Pc {
    match r
    case Deliver(None) => Handling("", "", HDone(Rejected(InvalidPayload)))
    case Deliver(Some(p)) =>
      Handling(p.id, p.email, if TrimSpace(p.id) == "" then HDone(Rejected(IdRequired)) else HFind)
    case Create(c, hasRbac) => Creating(StartCreate(c, hasRbac))
    case Update(id, u) => Updating(id, u, UFind)
    case ChangeStatus(id, status) => Restating(id, status, SFind)
    case ChangeRole(id, role, hasRbac) =>
      var trimmed := TrimSpace(role);
      Granting(id, trimmed,
               if trimmed == "" then RDone(Err(RoleRequired)) else if !hasRbac then RDone(Err(RbacMissing)) else RFind)
    case Attach(l) => Attaching(l, if IsValidProvider(l.provider) then AFind else ADone(Err(UnsupportedProvider)))
    case Remove(id, provider, pid) =>
      Removing(id, provider, pid, if IsValidProvider(provider) then DLookup else DDone(Err(UnsupportedProvider)))
    case EditProfile(id, name, fileId) => Editing(id, name, fileId, PFind)
  }

  function StartCreate(c: CreateUserRequest, hasRbac: bool): CreatePc {
    var email := NormalEmail(c.email);
    var status := if c.status == OtherStatus("") then Active else c.status;
    var role := TrimSpace(c.role);
    if !ValidEmail(email) then CDone(Err(InvalidEmail))
    else if !ValidPassword(c.password) then CDone(Err(PasswordTooShort))
    else if !IsValid(status) then CDone(Err(InvalidStatus))
    else if role == "" then CDone(Err(RoleRequired))
    else CFind(Draft(email, status, role, c.displayName, c.avatarFileId, hasRbac))
  }

  /* ---- one call ---- */

  function HandleStep(s: Store, id: Id, email: string, h: HandlePc, a: Answer): (Store, HandlePc) {
    match h
    case HFind =>
      var r := Guarded(a, UserById(s, id));
      (s, if r.Ok? then HDone(Replayed) else if r.error.NotFound? then HInsert else HDone(Rejected(r.error)))
    case HInsert =>
      var (s', r) := InsertUser(s, FreshUser(id, email), a);
      (s', if r.Ok? then HProfile else HRefind(r.error))
    case HRefind(why) =>
      var r := Guarded(a, UserById(s, id));
      (s, if r.Ok? then HDone(Replayed) else HDone(Rejected(why)))
    case HProfile =>
      var (s', r) := InsertProfile(s, ProfileRow("", id, None, None), a);
      (s', HDone(Created(r.Ok?)))
    case HDone(_) => (s, h)
  }

  function NewManagedUser(d: Draft): UserRow {
    WithStatus(UserRow("", d.email, OtherStatus(""), false), d.status)
  }

  function CreateStep(s: Store, c: CreatePc, a: Answer): (Store, CreatePc) {
    match c
    case CFind(d) =>
      var r := Guarded(a, UserByEmail(s, d.email));
      (s, if r.Ok? then CDone(Err(UserExists)) else if r.error.NotFound? then CHash(d) else CDone(Err(r.error)))
    case CHash(d) =>
      (s, if a.fails then CDone(Err(Unavailable)) else CInsert(d))
    case CInsert(d) =>
      var (s', r) := InsertUser(s, NewManagedUser(d), a);
      (s', if r.Ok? then CProfile(d, r.value) else CDone(Err(r.error)))
    case CProfile(d, user) =>
      var (s', r) := InsertProfile(s, ProfileRow("", user.id, d.displayName, d.avatarFileId), a);
      (s', if r.Err? then CUndo(user.id, r.error) else if !d.hasRbac then CUndo(user.id, RbacMissing)
           else CAssign(d, user, r.value))
    case CAssign(d, user, profile) =>
      var (s', r) := AssignRole(s, user.id, d.role, a);
      (s', if r.Ok? then CDone(Ok(UserView(user, Some(profile)))) else CUndo(user.id, r.error))
    case CUndo(id, why) =>
      (DeleteUser(s, id, a).0, CDone(Err(why)))
    case CDone(_) => (s, c)
  }

  function AfterEmail(req: UpdateUserRequest, user: UserView): UpdatePc {
    if req.password.None? then AfterPassword(req, user)
    else if !ValidPassword(req.password.value) then UDone(Err(PasswordTooShort))
    else UHash(user)
  }

  predicate WantsProfile(req: UpdateUserRequest) {
    req.displayName.Some? || req.avatarFileId.Some?
  }

  function AfterPassword(req: UpdateUserRequest, user: UserView): UpdatePc {
    if WantsProfile(req) then UProfile(user) else USave(user)
  }

  function UpdateStep(s: Store, id: Id, req: UpdateUserRequest, u: UpdatePc, a: Answer): (Store, UpdatePc) {
    match u
    case UFind =>
      var r := Guarded(a, UserById(s, id));
      (s, if r.Err? then UDone(Err(r.error))
          else if req.email.None? then AfterEmail(req, r.value)
          else
            var email := NormalEmail(req.email.value);
            if ValidEmail(email) then UEmail(r.value, email) else UDone(Err(InvalidEmail)))
    case UEmail(user, email) =>
      var r := Guarded(a, UserByEmail(s, email));
      (s, if r.Err? && !r.error.NotFound? then UDone(Err(r.error))
          else if r.Ok? && r.value.row.id != id then UDone(Err(EmailInUse))
          else AfterEmail(req, user.(row := user.row.(email := email))))
    case UHash(user) =>
      (s, if a.fails then UDone(Err(Unavailable)) else AfterPassword(req, user))
    case UProfile(user) =>
      var r := Guarded(a, ProfileByUser(s, id));
      (s, if r.Err? then UDone(Err(r.error))
          else USaveProfile(user, Updated(r.value, req.displayName, req.avatarFileId)))
    case USaveProfile(user, profile) =>
      var (s', r) := SaveProfile(s, profile, a);
      (s', if r.Err? then UDone(Err(r.error)) else USave(user.(profile := Some(profile))))
    case USave(user) =>
      var (s', r) := SaveUser(s, user.row, a);
      (s', UDone(if r.Err? then Err(r.error) else Ok(user)))
    case UDone(_) => (s, u)
  }

  function StatusStep(s: Store, id: Id, status: Status, p: StatusPc, a: Answer): (Store, StatusPc) {
    match p
    case SFind =>
      var r := Guarded(a, UserById(s, id));
      (s, if r.Err? then SDone(Err(r.error))
          else if !IsValid(status) then SDone(Err(InvalidStatus))
          else SSave(r.value.(row := WithStatus(r.value.row, status))))
    case SSave(user) =>
      var (s', r) := SaveUser(s, user.row, a);
      (s', SDone(if r.Err? then Err(r.error) else Ok(user)))
    case SDone(_) => (s, p)
  }

  function RoleStep(s: Store, id: Id, role: string, p: RolePc, a: Answer): (Store, RolePc) {
    match p
    case RFind =>
      var r := Guarded(a, UserById(s, id));
      (s, if r.Err? then RDone(Err(r.error)) else RAssign)
    case RAssign =>
      var (s', r) := AssignRole(s, id, role, a);
      (s', RDone(r))
    case RDone(_) => (s, p)
  }

  function AttachStep(s: Store, l: LinkRequest, p: AttachPc, a: Answer): (Store, AttachPc) {
    match p
    case AFind =>
      var r := Guarded(a, UserById(s, l.userId));
      (s, if r.Err? then ADone(Err(r.error))
          else if !EqualFold(r.value.row.email, l.email) then ADone(Err(EmailMismatch))
          else ALookup(r.value))
    case ALookup(user) =>
      var r := Guarded(a, IdentityByLink(s, l.provider, l.providerUserId));
      (s, if r.Err? then AInsert
          else if r.value.userId != l.userId then ADone(Err(LinkedToOther))
          else ADone(Ok((r.value, user.profile))))
    case AInsert =>
      var (s', r) := InsertIdentity(s, NewIdentity(l), a);
      (s', if r.Ok? then AProfile(r.value) else ADone(Err(r.error)))
    case AProfile(identity) =>
      var r := Guarded(a, ProfileByUser(s, l.userId));
      (s, if r.Err? then ADone(Err(r.error)) else ASave(identity, Updated(r.value, l.displayName, None)))
    case ASave(identity, profile) =>
      var (s', r) := SaveProfile(s, profile, a);
      (s', ADone(if r.Err? then Err(r.error) else Ok((identity, Some(profile)))))
    case ADone(_) => (s, p)
  }

  function NewIdentity(l: LinkRequest): IdentityRow {
    IdentityRow("", l.userId, l.provider, l.providerUserId, ToLower(l.email), l.displayName, l.avatarUrl)
  }

  function RemoveStep(s: Store, id: Id, provider: Provider, pid: string, p: RemovePc, a: Answer): (Store, RemovePc) {
    match p
    case DLookup =>
      var r := Guarded(a, IdentityByLink(s, provider, pid));
      (s, if r.Err? then DDone(Err(r.error)) else if r.value.userId != id then DDone(Err(NotOwner)) else DDelete(r.value))
    case DDelete(identity) =>
      var (s', r) := DeleteIdentity(s, identity.id, a);
      (s', DDone(r))
    case DDone(_) => (s, p)
  }

  function ProfileStep(s: Store, id: Id, name: Option<string>, fileId: Option<string>, p: ProfilePc, a: Answer)
    : (Store, ProfilePc)
  {
    match p
    case PFind =>
      var r := Guarded(a, ProfileByUser(s, id));
      (s, if r.Err? then PDone(Err(r.error)) else PSave(Updated(r.value, name, fileId)))
    case PSave(profile) =>
      var (s', r) := SaveProfile(s, profile, a);
      (s', PDone(if r.Err? then Err(r.error) else Ok(profile)))
    case PDone(_) => (s, p)
  }

  function Step(s: Store, p: Pc, a: Answer): (r: (Store, Pc))
    ensures Finished(p) ==> r == (s, p)
    ensures !Finished(p) ==> Remaining(r.1) < Remaining(p)
  {
    match p
    case Handling(id, email, h) => var (s', h') := HandleStep(s, id, email, h, a); (s', p.(h := h'))
    case Creating(c) => var (s', c') := CreateStep(s, c, a); (s', p.(c := c'))
    case Updating(id, req, u) => var (s', u') := UpdateStep(s, id, req, u, a); (s', p.(u := u'))
    case Restating(id, st, q) => var (s', q') := StatusStep(s, id, st, q, a); (s', p.(s := q'))
    case Granting(id, role, q) => var (s', q') := RoleStep(s, id, role, q, a); (s', p.(r := q'))
    case Attaching(l, q) => var (s', q') := AttachStep(s, l, q, a); (s', p.(a := q'))
    case Removing(id, pr, pid, q) => var (s', q') := RemoveStep(s, id, pr, pid, q, a); (s', p.(d := q'))
    case Editing(id, name, fid, q) => var (s', q') := ProfileStep(s, id, name, fid, q, a); (s', p.(p := q'))
  }

  /* ---- one request on its own ---- */

  /** The request runs to its end with nothing in between; its k-th call gets answer `env(n + k)`. */
  function Alone(s: Store, p: Pc, env: nat -> Answer, n: nat): (Store, Pc, nat)
    decreases Remaining(p)
  {
    if Finished(p) then (s, p, n)
    else
      var (s', p') := Step(s, p, env(n));
      Alone(s', p', env, n + 1)
  }

  /* ---- many requests at once ---- */

  datatype World = World(store: Store, procs: seq<Pc>)

  /** A new request comes in, or request `i` makes its next call. */
  datatype Label = Arrive(request: Request) | Run(i: nat, answer: Answer)

  function Apply(w: World, l: Label): World {
    match l
    case Arrive(r) => w.(procs := w.procs + [Start(r)])
    case Run(i, a) =>
      if i < |w.procs| then
        var (s', p') := Step(w.store, w.procs[i], a);
        World(s', w.procs[i := p'])
      else w
  }

  /** Every interleaving is the execution of some schedule. */
  function Exec(w: World, schedule: seq<Label>): World {
    if schedule == [] then w else Apply(Exec(w, schedule[..|schedule| - 1]), schedule[|schedule| - 1])
  }
}
