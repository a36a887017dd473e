/** Who reaches the administrative handlers: the authentication middleware followed by the role middleware, as the
    router composes them, in front of any role client. */
module Admission {
  import opened Text
  import opened CacheKeys
  import opened RoleCache

  /* ---- the outside world ---- */

  datatype Headers = Headers(userId: string, role: string, authorization: string)

  datatype Claims = Claims(userId: string, role: string, email: string)

  /** The k-th call a client makes, with its question, and the answer (None: it fails). */
  type Script = (nat, Query) -> Option<Value>

  /** `verifier` is the configured token verifier, or else the auth service, which needs the NATS connection. */
  datatype Outside = Outside(hasVerifier: bool, hasNats: bool, verifier: string -> Option<Claims>,
                             userExists: string -> bool, natsAllows: (string, string) -> Option<bool>)

  function VerifyToken(o: Outside, token: string): Option<Claims> {
    if o.hasVerifier || o.hasNats then o.verifier(token) else None
  }

  function AskRole(s: Script, k: nat, user: string): Option<string> {
    match s(k, RoleOf(user))
    case Some(Name(role)) => Some(role)
    case _ => None
  }

  function AskPermissions(s: Script, k: nat, user: string): Option<seq<string>> {
    match s(k, PermissionsOf(user))
    case Some(Names(ps)) => Some(ps)
    case _ => None
  }

  predicate Confirms(s: Script, k: nat, q: Query) {
    s(k, q) == Some(Flag(true))
  }

  class RoleClient {
    const script: Script
    var calls: nat

    constructor (script: Script)
      ensures this.script == script && calls == 0
    {
      this.script, calls := script, 0;
    }

    method GetRole(user: string) returns (role: Option<string>)
      modifies this
      ensures calls == old(calls) + 1 && role == AskRole(script, old(calls), user)
    {
      role := AskRole(script, calls, user);
      calls := calls + 1;
    }

    method GetPermissions(user: string) returns (permissions: Option<seq<string>>)
      modifies this
      ensures calls == old(calls) + 1 && permissions == AskPermissions(script, old(calls), user)
    {
      permissions := AskPermissions(script, calls, user);
      calls := calls + 1;
    }

    method Check(q: Query) returns (yes: bool)
      modifies this
      ensures calls == old(calls) + 1 && yes == Confirms(script, old(calls), q)
    {
      yes := Confirms(script, calls, q);
      calls := calls + 1;
    }
  }

  class Context {
    var userId: string
    var role: Option<string>
    var permissions: Option<seq<string>>
    var email: string

    constructor ()
      ensures userId == "" && role == None && permissions == None && email == ""
    {
      userId, role, permissions, email := "", None, None, "";
    }
  }

  datatype Verdict = Passed | Unauthorized | Forbidden

  /* ---- identification ---- */

  function FirstSpace(s: string): (k: nat)
    ensures k <= |s| && (k < |s| ==> s[k] == ' ') && forall j :: 0 <= j < k ==> s[j] != ' '
  {
    if s == [] || s[0] == ' ' then 0 else 1 + FirstSpace(s[1..])
  }

  /** The token of a bearer header: what follows the first space, if "bearer" in any case precedes it. */
  function BearerToken(header: string): Option<string> {
    var k := FirstSpace(header);
    if k < |header| && EqualFold(header[..k], "bearer") then Some(header[k + 1..]) else None
  }

  /** The token of a header is all that follows the first space, and the scheme before it is "bearer" in any case. */
  lemma BearerTokenFollowsTheScheme(scheme: string, token: string)
    requires ' ' !in scheme
    ensures BearerToken(scheme + " " + token) == if EqualFold(scheme, "bearer") then Some(token) else None
    ensures BearerToken(scheme) == None
  {
    var header := scheme + " " + token;
    assert header[|scheme|] == ' ' && forall j :: 0 <= j < |scheme| ==> header[j] == scheme[j];
    assert FirstSpace(header) == |scheme| && FirstSpace(scheme) == |scheme|;
    assert header[..|scheme|] == scheme && header[|scheme| + 1..] == token;
  }

  predicate Trusted(h: Headers) {
    h.userId != ""
  }

  /** Who the caller is: the gateway's header pair, or the claims of a verified bearer token. */
  function Identified(h: Headers, o: Outside): Option<Claims> {
    if Trusted(h) then
      if TrimSpace(h.role) == "" then None else Some(Claims(h.userId, h.role, ""))
    else
      var token := BearerToken(h.authorization);
      if token.None? then None else VerifyToken(o, token.value)
  }

  /** The gateway's header pair identifies exactly that pair, unless the role is blank; without a user header a bearer header
      identifies exactly whom the verifier names for its token. */
  lemma WhoIsIdentified(h: Headers, o: Outside, scheme: string, token: string)
    ensures h.userId != "" ==> Identified(h, o) == if Blank(h.role) then None else Some(Claims(h.userId, h.role, ""))
    ensures h.userId == "" && ' ' !in scheme && h.authorization == scheme + " " + token ==>
              Identified(h, o) ==
              if EqualFold(scheme, "bearer") && (o.hasVerifier || o.hasNats) then o.verifier(token) else None
    ensures h.userId == "" && ' ' !in h.authorization ==> Identified(h, o) == None
  {
    BlankIsTrimmedAway(h.role);
    if ' ' !in scheme { BearerTokenFollowsTheScheme(scheme, token); }
    if ' ' !in h.authorization { BearerTokenFollowsTheScheme(h.authorization, ""); }
  }

  /** How many client calls have been made before the role is looked at again. */
  function RoleCalls(c: Claims, hasClient: bool): nat {
    if TrimSpace(c.role) == "" && hasClient then 1 else 0
  }

  /** A blank role is asked for, and stays blank when that fails. */
  function RoleUsed(c: Claims, hasClient: bool, s: Script, n: nat): string {
    if RoleCalls(c, hasClient) == 0 then c.role
    else
      var fetched := AskRole(s, n, c.userId);
      if fetched.Some? then fetched.value else c.role
  }

  ghost predicate Authenticated(h: Headers, o: Outside, hasClient: bool, s: Script, n: nat) {
    var c := Identified(h, o);
    && c.Some?
    && o.userExists(c.value.userId)
    && (o.hasNats && !Trusted(h) ==>
          o.natsAllows(c.value.userId, RoleUsed(c.value, hasClient, s, n)) == Some(true))
  }

  method Authenticate(c: Context, h: Headers, o: Outside, client: RoleClient?) returns (v: Verdict)
    modifies c, client
    ensures client != null ==>
              (v.Passed? <==> Authenticated(h, o, true, client.script, old(client.calls)))
    ensures client == null ==> forall s: Script :: v.Passed? <==> Authenticated(h, o, false, s, 0)
    ensures v.Passed? ==>
              && Identified(h, o).Some?
              && var claims := Identified(h, o).value;
              && c.userId == claims.userId
              && (client != null ==>
                    && c.role == Some(ToUpper(RoleUsed(claims, true, client.script, old(client.calls))))
                    && client.calls == old(client.calls) + RoleCalls(claims, true) + 1
                    && c.permissions ==
                       match client.script(client.calls - 1, PermissionsOf(claims.userId))
                       case Some(Names(ps)) => Some(ps)
                       case _ => old(c.permissions))
              && (client == null ==> c.role == Some(ToUpper(claims.role)) && c.permissions == old(c.permissions))
              && c.email == claims.email
  {
    var userId, role, email, trustedByHeader := "", "", "", false;
    if h.userId != "" {
      if TrimSpace(h.role) == "" {
        return Unauthorized;
      }
      userId, role, email, trustedByHeader := h.userId, h.role, "", true;
    } else {
      if h.authorization == "" {
        return Unauthorized;
      }
      var k := FirstSpace(h.authorization);
      if k == |h.authorization| || !EqualFold(h.authorization[..k], "bearer") {
        return Unauthorized;
      }
      var verified := VerifyToken(o, h.authorization[k + 1..]);
      if verified.None? {
        return Unauthorized;
      }
      userId, role, email := verified.value.userId, verified.value.role, verified.value.email;
    }
    if TrimSpace(role) == "" && client != null {
      var fetched := client.GetRole(userId);
      if fetched.Some? {
        role := fetched.value;
      }
    }
    if !o.userExists(userId) {
      return Unauthorized;
    }
    c.email := email;
    if o.hasNats && !trustedByHeader {
      var allowed := o.natsAllows(userId, role);
      if allowed.None? || !allowed.value {
        return Forbidden;
      }
    }
    c.userId := userId;
    c.role := Some(ToUpper(role));
    if client != null {
      var permissions := client.GetPermissions(userId);
      if permissions.Some? {
        c.permissions := permissions;
      }
    }
    return Passed;
  }

  /* ---- roles ---- */

  function ValidRoles(roles: seq<string>): seq<string> {
    if roles == [] then []
    else
      var last := TrimSpace(roles[|roles| - 1]);
      ValidRoles(roles[..|roles| - 1]) + (if last == "" then [] else [last])
  }

  /** The role middleware lets a request through. */
  ghost predicate RoleGate(user: string, role: Option<string>, valid: seq<string>, hasClient: bool, s: Script, n: nat) {
    && user != ""
    && (|| (role.Some? && role.value in valid)
        || (hasClient &&
            (|| (AskRole(s, n, user).Some? && AskRole(s, n, user).value in valid)
             || exists k :: 0 <= k < |valid| && Confirms(s, n + 1 + k, HasRole(user, valid[k])))))
  }

  /** The role in the context afterwards: a role that was fetched, because the one before did not do, replaces it. */
  function RoleLeft(user: string, role: Option<string>, valid: seq<string>, fetched: Option<string>): Option<string> {
    if user == "" || (role.Some? && role.value in valid) || fetched.None? then role else fetched
  }

  method FilterRoles(roles: seq<string>) returns (valid: seq<string>)
    ensures valid == ValidRoles(roles)
    ensures forall r :: r in valid ==> r != "" && exists k :: 0 <= k < |roles| && r == TrimSpace(roles[k])
  {
    valid := [];
    for i := 0 to |roles|
      invariant valid == ValidRoles(roles[..i])
      invariant forall r :: r in valid ==> r != "" && exists k :: 0 <= k < i && r == TrimSpace(roles[k])
    {
      assert roles[..i + 1][..i] == roles[..i];
      var trimmed := TrimSpace(roles[i]);
      if trimmed != "" {
        valid := valid + [trimmed];
      }
    }
    assert roles[..|roles|] == roles;
  }

  /** The role is among the required ones, blanks around it aside. */
  ghost predicate Required(roles: seq<string>, r: string) {
    r != "" && exists k :: 0 <= k < |roles| && r == TrimSpace(roles[k])
  }

  /** The filter leaves exactly the required roles. */
  lemma {:induction false} RequiredRoles(roles: seq<string>, r: string)
    ensures r in ValidRoles(roles) <==> Required(roles, r)
  {
    if roles != [] {
      var n := |roles| - 1;
      RequiredRoles(roles[..n], r);
      OneMoreRole(roles[..n], roles[n], r);
      assert roles[..n] + [roles[n]] == roles;
    }
  }

  lemma OneMoreRole(roles: seq<string>, role: string, r: string)
    ensures Required(roles + [role], r) <==> Required(roles, r) || (r != "" && r == TrimSpace(role))
  {
    assert (roles + [role])[|roles|] == role;
    assert forall k :: 0 <= k < |roles| ==> (roles + [role])[k] == roles[k];
  }

  ghost predicate ConfirmedInOrder(user: string, r: string, valid: seq<string>, s: Script, n: nat) {
    exists k :: 0 <= k < |valid| && valid[k] == r && s(n + k, HasRole(user, r)) == Some(Flag(true))
  }

  /** The client's first answer names the role, or one of those after it confirms it, asked in the order of the list. */
  ghost predicate NamedOrConfirmed(user: string, r: string, valid: seq<string>, s: Script, n: nat) {
    s(n, RoleOf(user)) == Some(Name(r)) || ConfirmedInOrder(user, r, valid, s, n + 1)
  }

  /** The role gate opens exactly for a known user whose role in the context is a required one, or to whom the client's
      answers give a required one. */
  lemma GateOpensExactly(user: string, role: Option<string>, roles: seq<string>, hasClient: bool, s: Script, n: nat)
    ensures RoleGate(user, role, ValidRoles(roles), hasClient, s, n) <==>
              user != "" && exists r ::
                Required(roles, r) && (role == Some(r) || (hasClient && NamedOrConfirmed(user, r, ValidRoles(roles), s, n)))
  {
    var valid := ValidRoles(roles);
    forall r ensures r in valid <==> Required(roles, r) {
      RequiredRoles(roles, r);
    }
    if RoleGate(user, role, valid, hasClient, s, n) {
      var r := OpeningRole(user, role, valid, hasClient, s, n);
      assert Required(roles, r);
    }
    forall r | NamedOrConfirmed(user, r, valid, s, n) && r in valid ensures RoleGate(user, role, valid, true, s, n) || user == "" {
      ClientOpens(user, role, valid, s, n, r);
    }
  }

  lemma OpeningRole(user: string, role: Option<string>, valid: seq<string>, hasClient: bool, s: Script, n: nat)
    returns (r: string)
    requires RoleGate(user, role, valid, hasClient, s, n)
    ensures r in valid && (role == Some(r) || (hasClient && NamedOrConfirmed(user, r, valid, s, n)))
  {
    if role.Some? && role.value in valid {
      r := role.value;
    } else if AskRole(s, n, user).Some? && AskRole(s, n, user).value in valid {
      r := AskRole(s, n, user).value;
    } else {
      var k :| 0 <= k < |valid| && Confirms(s, n + 1 + k, HasRole(user, valid[k]));
      r := valid[k];
      assert ConfirmedInOrder(user, r, valid, s, n + 1);
    }
  }

  lemma ClientOpens(user: string, role: Option<string>, valid: seq<string>, s: Script, n: nat, r: string)
    requires r in valid && NamedOrConfirmed(user, r, valid, s, n)
    ensures user != "" ==> RoleGate(user, role, valid, true, s, n)
  {
    if s(n, RoleOf(user)) != Some(Name(r)) {
      var k :| 0 <= k < |valid| && valid[k] == r && s(n + 1 + k, HasRole(user, r)) == Some(Flag(true));
      assert Confirms(s, n + 1 + k, HasRole(user, valid[k]));
    }
  }

  method Listed(text: string, texts: seq<string>) returns (found: bool)
    ensures found <==> text in texts
  {
    found := false;
    for i := 0 to |texts|
      invariant !found && text !in texts[..i]
    {
      if text == texts[i] {
        return true;
      }
    }
  }

  /** Asks for one role after the other, until one is confirmed. */
  method ConfirmsAny(user: string, valid: seq<string>, client: RoleClient) returns (allowed: bool)
    modifies client
    ensures allowed <==>
              exists k :: 0 <= k < |valid| && Confirms(client.script, old(client.calls) + k, HasRole(user, valid[k]))
  {
    ghost var n := client.calls;
    for i := 0 to |valid|
      invariant client.calls == n + i
      invariant forall k :: 0 <= k < i ==> !Confirms(client.script, n + k, HasRole(user, valid[k]))
    {
      var confirmed := client.Check(HasRole(user, valid[i]));
      if confirmed {
        return true;
      }
    }
    return false;
  }

  method RequireRoles(roles: seq<string>, c: Context, client: RoleClient?) returns (v: Verdict)
    modifies c`role, client
    ensures v.Passed? || v.Forbidden?
    ensures c.role == RoleLeft(c.userId, old(c.role), ValidRoles(roles),
                               if client == null then None else AskRole(client.script, old(client.calls), c.userId))
    ensures client != null ==>
              (v.Passed? <==> RoleGate(c.userId, old(c.role), ValidRoles(roles), true, client.script, old(client.calls)))
    ensures client == null ==>
              forall s: Script :: v.Passed? <==> RoleGate(c.userId, old(c.role), ValidRoles(roles), false, s, 0)
  {
    var valid := FilterRoles(roles);
    if c.userId == "" {
      return Forbidden;
    }
    var allowed := false;
    if c.role.Some? {
      allowed := Listed(c.role.value, valid);
    }
    if !allowed && client != null {
      var fetched := client.GetRole(c.userId);
      if fetched.Some? {
        c.role := fetched;
        allowed := Listed(fetched.value, valid);
      }
      if !allowed {
        allowed := ConfirmsAny(c.userId, valid, client);
      }
    }
    return if allowed then Passed else Forbidden;
  }

  method RequirePermission(permission: string, c: Context, client: RoleClient?) returns (v: Verdict)
    modifies client
    ensures v.Passed? <==>
              && c.userId != ""
              && (|| (c.permissions.Some? && permission in c.permissions.value)
                  || (client != null &&
                      client.script(old(client.calls), HasPermission(c.userId, permission)) == Some(Flag(true))))
  {
    if c.userId == "" {
      return Forbidden;
    }
    var allowed := false;
    if c.permissions.Some? {
      allowed := Listed(permission, c.permissions.value);
    }
    if !allowed && client != null {
      allowed := client.Check(HasPermission(c.userId, permission));
    }
    return if allowed then Passed else Forbidden;
  }

  /* ---- the administrative routes ---- */

  const ADMIN_ROLES: seq<string> := ["admin", "moderator"]

  /** The client names an administrative role for the user, or confirms one. */
  predicate GrantedByClient(user: string, s: Script, m: nat) {
    || AskRole(s, m, user) == Some("admin") || AskRole(s, m, user) == Some("moderator")
    || Confirms(s, m + 1, HasRole(user, "admin"))
    || Confirms(s, m + 2, HasRole(user, "moderator"))
  }

  /** Exactly when an administrative handler is reached. */
  ghost predicate Admitted(h: Headers, o: Outside, s: Script, n: nat) {
    && Authenticated(h, o, true, s, n)
    && var claims := Identified(h, o).value;
       var user := claims.userId;
       var m := n + RoleCalls(claims, true) + 1;
       user != "" && GrantedByClient(user, s, m)
  }

  lemma AdminRolesAreValid()
    ensures ValidRoles(ADMIN_ROLES) == ADMIN_ROLES
  {
    TrimSpaceFixes("admin");
    TrimSpaceFixes("moderator");
    assert ADMIN_ROLES[..1] == ["admin"] && ADMIN_ROLES[..1][..0] == [];
    assert ValidRoles(ADMIN_ROLES[..1]) == ["admin"];
  }

  lemma UpperCaseIsNoAdminRole(role: string)
    ensures ToUpper(role) !in ADMIN_ROLES
  {
    var u := ToUpper(role);
    assert |u| > 0 ==> u[0] == UpperRune(role[0]) && u[0] != 'a' && u[0] != 'm';
  }

  /** The role in the context, upper-cased by the authentication, never opens the role gate of the administrative
      routes; the client's answers alone do. */
  lemma ContextRoleNeverDecides(user: string, role: string, s: Script, m: nat)
    ensures RoleGate(user, Some(ToUpper(role)), ADMIN_ROLES, true, s, m) <==> user != "" && GrantedByClient(user, s, m)
    ensures !RoleGate(user, Some(ToUpper(role)), ADMIN_ROLES, false, s, m)
  {
    UpperCaseIsNoAdminRole(role);
    assert ADMIN_ROLES[0] == "admin" && ADMIN_ROLES[1] == "moderator";
  }

  /** Behind the authentication, the role gate is what is left of admission. */
  lemma GateDecidesAdmission(h: Headers, o: Outside, s: Script, n: nat)
    requires Authenticated(h, o, true, s, n)
    ensures var claims := Identified(h, o).value;
            Admitted(h, o, s, n) <==>
            RoleGate(claims.userId, Some(ToUpper(RoleUsed(claims, true, s, n))), ADMIN_ROLES, true, s,
                     n + RoleCalls(claims, true) + 1)
  {
    var claims := Identified(h, o).value;
    ContextRoleNeverDecides(claims.userId, RoleUsed(claims, true, s, n), s, n + RoleCalls(claims, true) + 1);
  }

  lemma FilteredGateDecides(h: Headers, o: Outside, s: Script, n: nat)
    requires Authenticated(h, o, true, s, n)
    ensures var claims := Identified(h, o).value;
            Admitted(h, o, s, n) <==>
            RoleGate(claims.userId, Some(ToUpper(RoleUsed(claims, true, s, n))), ValidRoles(ADMIN_ROLES), true, s,
                     n + RoleCalls(claims, true) + 1)
  {
    AdminRolesAreValid();
    GateDecidesAdmission(h, o, s, n);
  }

  /** The client grants one of the roles, said by its answers: the next one names it, or one of the two after confirms it. */
  predicate AnswersGrant(user: string, s: Script, m: nat) {
    || s(m, RoleOf(user)) == Some(Name("admin")) || s(m, RoleOf(user)) == Some(Name("moderator"))
    || s(m + 1, HasRole(user, "admin")) == Some(Flag(true)) || s(m + 2, HasRole(user, "moderator")) == Some(Flag(true))
  }

  /** The role that the NATS check is asked about. */
  function RoleInUse(claims: Claims, s: Script, n: nat): string {
    if !Blank(claims.role) then claims.role
    else match s(n, RoleOf(claims.userId)) case Some(Name(role)) => role case _ => claims.role
  }

  /** Behind the gateway: an administrative handler is reached exactly when the role header is not blank, the user exists,
      and the role client grants a role. */
  lemma HeaderAdmission(h: Headers, o: Outside, s: Script, n: nat)
    requires h.userId != ""
    ensures Admitted(h, o, s, n) <==> !Blank(h.role) && o.userExists(h.userId) && AnswersGrant(h.userId, s, n + 1)
  {
    WhoIsIdentified(h, o, "", "");
    BlankIsTrimmedAway(h.role);
  }

  /** With a token: exactly when the scheme is bearer, somebody verifies the very token behind it, its user exists, the NATS
      check allows the role in use where there is a connection, and the role client grants a role. */
  lemma TokenAdmission(h: Headers, o: Outside, s: Script, n: nat, scheme: string, token: string)
    requires h.userId == "" && ' ' !in scheme && h.authorization == scheme + " " + token
    ensures Admitted(h, o, s, n) <==>
              && EqualFold(scheme, "bearer") && (o.hasVerifier || o.hasNats) && o.verifier(token).Some?
              && var claims := o.verifier(token).value;
                 var asked := if Blank(claims.role) then 1 else 0;
                 && claims.userId != "" && o.userExists(claims.userId)
                 && (o.hasNats ==> o.natsAllows(claims.userId, RoleInUse(claims, s, n)) == Some(true))
                 && AnswersGrant(claims.userId, s, n + asked + 1)
  {
    WhoIsIdentified(h, o, scheme, token);
    if o.verifier(token).Some? { BlankIsTrimmedAway(o.verifier(token).value.role); }
  }

  /** The two middlewares in a row, over one role client. */
  method ServeAdmin(h: Headers, o: Outside, client: RoleClient) returns (reached: bool)
    modifies client
    ensures reached <==> Admitted(h, o, client.script, old(client.calls))
  {
    ghost var n := client.calls;
    var c := new Context();
    var v := Authenticate(c, h, o, client);
    if !v.Passed? {
      return false;
    }
    FilteredGateDecides(h, o, client.script, n);
    v := RequireRoles(ADMIN_ROLES, c, client);
    return v.Passed?;
  }

  /* ---- behind the caching client ---- */

  /** The answers of the cached calls `asked`, in that order, of a concurrent run. */
  function AnswersOf(w: World, asked: seq<nat>): Script {
    (k: nat, q: Query) =>
      if k < |asked| && asked[k] < |w.calls| && w.calls[asked[k]].query == q && w.calls[asked[k]].at.Done?
         && !w.calls[asked[k]].at.result.Failed?
      then Some(w.calls[asked[k]].at.result.value) else None
  }

  /** The role service itself gave this answer about this user, and it was stored less than ttl before the clock sample
      of the call that used it. */
  ghost predicate Justified(w: World, l: Load, q: Query, v: Value, now: int) {
    l in w.stores && l.query == q && l.value == v && now < l.storedAt + w.ttl
    && l.answered < |w.versions| && v == w.versions[l.answered](q)
  }

  lemma AnswerIsJustified(ttl: int, clock: int, b: Backend, schedule: seq<Label>, i: nat)
    requires ttl > 0
    requires var w := Exec(Initial(ttl, clock, b), schedule);
             && i < |w.calls| && w.calls[i].at.Done? && !w.calls[i].at.result.Failed?
             && (TwoArguments(w.calls[i].query) ==> ' ' !in w.calls[i].query.user && ' ' !in Second(w.calls[i].query))
    ensures var w := Exec(Initial(ttl, clock, b), schedule);
            exists l :: Justified(w, l, w.calls[i].query, w.calls[i].at.result.value, w.calls[i].at.now)
  {
    ExecKeeps(Initial(ttl, clock, b), schedule);
    var w := Exec(Initial(ttl, clock, b), schedule);
    var c := w.calls[i];
    assert CallOk(w, c);
    var v, now := c.at.result.value, c.at.now;
    if c.at.result.Hit? {
      var l :| StoredBy(w, l, c.query, v, now);
      assert Truthful(w, l);
      OtherwiseUnshared(c.query, l.query);
      assert Justified(w, l, c.query, v, now);
    } else {
      var l :| l in w.stores && l.query == c.query && l.value == v && now <= l.storedAt;
      assert Truthful(w, l);
      assert Justified(w, l, c.query, v, now);
    }
  }

  /** Call `i` got answer `v` to question `q`, and the role service stands behind it. */
  ghost predicate GroundedCall(w: World, i: nat, q: Query, v: Value) {
    && i < |w.calls| && w.calls[i].query == q && w.calls[i].at.Done?
    && !w.calls[i].at.result.Failed? && w.calls[i].at.result.value == v
    && exists l :: Justified(w, l, q, v, w.calls[i].at.now)
  }

  /** One of the calls that were made has a grounded answer giving this user one of the roles. */
  ghost predicate HasGrounds(w: World, asked: seq<nat>, user: string, valid: seq<string>) {
    exists i, r :: i in asked && r in valid &&
      (GroundedCall(w, i, RoleOf(user), Name(r)) || GroundedCall(w, i, HasRole(user, r), Flag(true)))
  }

  lemma GroundsFrom(w: World, asked: seq<nat>, user: string, valid: seq<string>, i: nat, r: string)
    requires i in asked && r in valid
    requires GroundedCall(w, i, RoleOf(user), Name(r)) || GroundedCall(w, i, HasRole(user, r), Flag(true))
    ensures HasGrounds(w, asked, user, valid)
  {
  }

  /** With the caching client behind it, over every interleaving with other requests and role changes: whoever passes
      the role middleware on the client's word has a fresh enough answer of the role service about that very user. */
  lemma CachedAdmissionIsJustified(ttl: int, clock: int, b: Backend, schedule: seq<Label>, asked: seq<nat>, n: nat,
                                   user: string, role: Option<string>, valid: seq<string>)
    requires ttl > 0 && ' ' !in user && forall r :: r in valid ==> ' ' !in r
    requires role.None? || role.value !in valid
    requires RoleGate(user, role, valid, true, AnswersOf(Exec(Initial(ttl, clock, b), schedule), asked), n)
    ensures HasGrounds(Exec(Initial(ttl, clock, b), schedule), asked, user, valid)
  {
    AnswersAreGrounded(ttl, clock, b, schedule, asked);
    GateHasGrounds(Exec(Initial(ttl, clock, b), schedule), asked, n, user, role, valid);
  }

  /** And so for the administrative routes as a whole: whoever reaches them through the cache has a fresh enough answer of
      the role service giving that very user one of their roles. */
  lemma CachedAdminIsJustified(ttl: int, clock: int, b: Backend, schedule: seq<Label>, asked: seq<nat>, n: nat,
                               h: Headers, o: Outside)
    requires ttl > 0 && Admitted(h, o, AnswersOf(Exec(Initial(ttl, clock, b), schedule), asked), n)
    requires ' ' !in Identified(h, o).value.userId
    ensures HasGrounds(Exec(Initial(ttl, clock, b), schedule), asked, Identified(h, o).value.userId, ADMIN_ROLES)
  {
    AnswersAreGrounded(ttl, clock, b, schedule, asked);
    AdmittedHasGrounds(Exec(Initial(ttl, clock, b), schedule), asked, n, h, o);
  }

  lemma AdmittedHasGrounds(w: World, asked: seq<nat>, n: nat, h: Headers, o: Outside)
    requires AllGrounded(w, asked) && Admitted(h, o, AnswersOf(w, asked), n) && ' ' !in Identified(h, o).value.userId
    ensures HasGrounds(w, asked, Identified(h, o).value.userId, ADMIN_ROLES)
  {
    var s, claims := AnswersOf(w, asked), Identified(h, o).value;
    var role, m := RoleUsed(claims, true, s, n), n + RoleCalls(claims, true) + 1;
    UpperCaseIsNoAdminRole(role);
    GateDecidesAdmission(h, o, s, n);
    GateHasGrounds(w, asked, m, claims.userId, Some(ToUpper(role)), ADMIN_ROLES);
  }

  lemma AnswersAreGrounded(ttl: int, clock: int, b: Backend, schedule: seq<Label>, asked: seq<nat>)
    requires ttl > 0
    ensures AllGrounded(Exec(Initial(ttl, clock, b), schedule), asked)
  {
    var w := Exec(Initial(ttl, clock, b), schedule);
    forall k: nat, q: Query, v: Value | Plain(q) && AnswersOf(w, asked)(k, q) == Some(v)
      ensures k < |asked| && GroundedCall(w, asked[k], q, v)
    {
      AnswerIsGrounded(ttl, clock, b, schedule, asked, k, q, v);
    }
  }

  predicate Plain(q: Query) {
    TwoArguments(q) ==> ' ' !in q.user && ' ' !in Second(q)
  }

  /** Every answer about space-free arguments that the calls gave is grounded. */
  ghost predicate AllGrounded(w: World, asked: seq<nat>) {
    forall k: nat, q: Query, v: Value :: Plain(q) && AnswersOf(w, asked)(k, q) == Some(v) ==>
      k < |asked| && GroundedCall(w, asked[k], q, v)
  }

  lemma GateHasGrounds(w: World, asked: seq<nat>, n: nat, user: string, role: Option<string>, valid: seq<string>)
    requires AllGrounded(w, asked) && ' ' !in user && forall r :: r in valid ==> ' ' !in r
    requires role.None? || role.value !in valid
    requires RoleGate(user, role, valid, true, AnswersOf(w, asked), n)
    ensures HasGrounds(w, asked, user, valid)
  {
    var s := AnswersOf(w, asked);
    if AskRole(s, n, user).Some? && AskRole(s, n, user).value in valid {
      var r := AskRole(s, n, user).value;
      assert Plain(RoleOf(user)) && s(n, RoleOf(user)) == Some(Name(r));
      GroundsFrom(w, asked, user, valid, asked[n], r);
    } else {
      var k :| 0 <= k < |valid| && Confirms(s, n + 1 + k, HasRole(user, valid[k]));
      assert Plain(HasRole(user, valid[k])) && s(n + 1 + k, HasRole(user, valid[k])) == Some(Flag(true));
      GroundsFrom(w, asked, user, valid, asked[n + 1 + k], valid[k]);
    }
  }

  lemma AnswerIsGrounded(ttl: int, clock: int, b: Backend, schedule: seq<Label>, asked: seq<nat>, k: nat,
                         q: Query, v: Value)
    requires ttl > 0 && Plain(q)
    requires AnswersOf(Exec(Initial(ttl, clock, b), schedule), asked)(k, q) == Some(v)
    ensures k < |asked| && GroundedCall(Exec(Initial(ttl, clock, b), schedule), asked[k], q, v)
  {
    AnswerIsJustified(ttl, clock, b, schedule, asked[k]);
  }
}
