/** The keys of the role cache: what they tell apart and what they do not. */
module CacheKeys {
  import opened Text

  datatype Query =
    | RoleOf(user: string)
    | PermissionsOf(user: string)
    | HasPermission(user: string, permission: string)
    | HasRole(user: string, role: string)

  function Parts(q: Query): seq<string> {
    match q
    case RoleOf(u) => ["role", u]
    case PermissionsOf(u) => ["perms", u]
    case HasPermission(u, p) => ["perm", u, p]
    case HasRole(u, r) => ["role-check", u, r]
  }

  function Joined(parts: seq<string>): string {
    if parts == [] then "" else if |parts| == 1 then parts[0] else parts[0] + " " + Joined(parts[1..])
  }

  /** A Go string slice printed with %v. */
  function Key(q: Query): string {
    "[" + Joined(Parts(q)) + "]"
  }

  predicate SameKind(q: Query, r: Query) {
    match q
    case RoleOf(_) => r.RoleOf?
    case PermissionsOf(_) => r.PermissionsOf?
    case HasPermission(_, _) => r.HasPermission?
    case HasRole(_, _) => r.HasRole?
  }

  predicate TwoArguments(q: Query) {
    q.HasPermission? || q.HasRole?
  }

  function Second(q: Query): string
    requires TwoArguments(q)
  {
    if q.HasPermission? then q.permission else q.role
  }

  function Prefix(q: Query): string {
    match q
    case RoleOf(_) => "[role "
    case PermissionsOf(_) => "[perms "
    case HasPermission(_, _) => "[perm "
    case HasRole(_, _) => "[role-check "
  }

  function Arguments(q: Query): string {
    if TwoArguments(q) then q.user + " " + Second(q) else q.user
  }

  lemma KeyShape(q: Query)
    ensures Key(q) == Prefix(q) + Arguments(q) + "]"
  {
    var p := Parts(q);
    assert Joined(p[1..]) == Arguments(q) by {
      if TwoArguments(q) {
        assert p[1..] == [q.user, Second(q)] && p[1..][1..] == [Second(q)];
      } else {
        assert p[1..] == [q.user];
      }
    }
  }

  /** Keys of different kinds of question never coincide, whatever the arguments. */
  lemma KindsNeverCollide(q: Query, r: Query)
    requires Key(q) == Key(r)
    ensures SameKind(q, r)
  {
    KeyShape(q);
    KeyShape(r);
    assert Key(q)[..5] == Prefix(q)[..5] && Key(r)[..5] == Prefix(r)[..5];
    assert Key(q)[5] == Prefix(q)[5] && Key(r)[5] == Prefix(r)[5];
  }

  /** Two questions of one kind share a key exactly when their space-joined arguments are the same. */
  lemma SharedKey(q: Query, r: Query)
    requires SameKind(q, r)
    ensures Key(q) == Key(r) <==> Arguments(q) == Arguments(r)
  {
    KeyShape(q);
    KeyShape(r);
    var n := |Prefix(q)|;
    assert Key(q)[n..|Key(q)| - 1] == Arguments(q);
    assert Key(r)[n..|Key(r)| - 1] == Arguments(r);
  }

  lemma SplitAtFirstSpace(u: string, p: string, v: string, r: string)
    requires ' ' !in u && ' ' !in v && u + " " + p == v + " " + r
    ensures u == v && p == r
  {
    var s := u + " " + p;
    assert s[|u|] == ' ' && s[|v|] == ' ';
    assert forall k :: 0 <= k < |u| ==> s[k] == u[k] != ' ';
    assert forall k :: 0 <= k < |v| ==> s[k] == v[k] != ' ';
    assert |u| == |v|;
    assert s[..|u|] == u && s[..|v|] == v && s[|u| + 1..] == p && s[|v| + 1..] == r;
  }

  predicate PlainUser(q: Query) {
    ' ' !in q.user
  }

  /** Among users whose id has no space, the key determines the question. */
  lemma PlainKeysAreInjective(q: Query, r: Query)
    requires Key(q) == Key(r)
    requires TwoArguments(q) ==> PlainUser(q) && PlainUser(r)
    ensures q == r
  {
    KindsNeverCollide(q, r);
    SharedKey(q, r);
    if TwoArguments(q) {
      SplitAtFirstSpace(q.user, Second(q), r.user, Second(r));
    }
  }

  function WithArguments(q: Query, user: string, second: string): Query
    requires TwoArguments(q)
  {
    if q.HasPermission? then HasPermission(user, second) else HasRole(user, second)
  }

  lemma SpaceInUserIsShared(q: Query)
    requires TwoArguments(q) && ' ' in q.user
    ensures exists r :: r != q && Key(r) == Key(q)
  {
    var k :| 0 <= k < |q.user| && q.user[k] == ' ';
    var head, tail, second := q.user[..k], q.user[k + 1..], Second(q);
    var r := WithArguments(q, head, tail + " " + second);
    assert q.user == head + " " + tail;
    assert (head + " " + tail) + " " + second == head + " " + (tail + " " + second);
    assert Arguments(r) == Arguments(q);
    SharedKey(q, r);
    assert |r.user| < |q.user|;
  }

  lemma SpaceInSecondIsShared(q: Query)
    requires TwoArguments(q) && ' ' in Second(q)
    ensures exists r :: r != q && Key(r) == Key(q)
  {
    var s := Second(q);
    var k :| 0 <= k < |s| && s[k] == ' ';
    var head, tail := s[..k], s[k + 1..];
    var r := WithArguments(q, q.user + " " + head, tail);
    assert s == head + " " + tail;
    assert (q.user + " " + head) + " " + tail == q.user + " " + (head + " " + tail);
    assert Arguments(r) == Arguments(q);
    SharedKey(q, r);
    assert |r.user| > |q.user|;
  }

  lemma OtherwiseUnshared(q: Query, r: Query)
    requires Key(r) == Key(q) && (TwoArguments(q) ==> ' ' !in q.user && ' ' !in Second(q))
    ensures r == q
  {
    KindsNeverCollide(q, r);
    SharedKey(q, r);
    if TwoArguments(q) {
      OneSpaceOnly(q.user, Second(q), r.user, Second(r));
    }
  }

  /** Exactly which questions share their key with another one: those of two arguments with a space in either. */
  lemma SomeOtherQuestionSharesTheKey(q: Query)
    ensures (exists r :: r != q && Key(r) == Key(q)) <==> TwoArguments(q) && (' ' in q.user || ' ' in Second(q))
  {
    if TwoArguments(q) && ' ' in q.user {
      SpaceInUserIsShared(q);
    } else if TwoArguments(q) && ' ' in Second(q) {
      SpaceInSecondIsShared(q);
    } else {
      forall r | Key(r) == Key(q) ensures r == q {
        OtherwiseUnshared(q, r);
      }
    }
  }

  lemma OneSpaceOnly(u: string, p: string, v: string, r: string)
    requires ' ' !in u && ' ' !in p && u + " " + p == v + " " + r
    ensures u == v && p == r
  {
    var s := u + " " + p;
    assert s[|v|] == ' ';
    assert forall k :: 0 <= k < |u| ==> s[k] == u[k] != ' ';
    assert forall k :: |u| < k < |s| ==> s[k] == p[k - |u| - 1] != ' ';
    assert |u| == |v|;
    assert s[..|u|] == u && s[..|v|] == v && s[|u| + 1..] == p && s[|v| + 1..] == r;
  }
}
