/** The repositories over one database, and the role service.  Each method is one call: it takes the next answer of the
    outside world and changes the tables in place. */
module Repositories {
  import opened Text
  import opened Domain
  import opened Store

  /** A call that returns only an error, as a reply. */
  function ReplyWith<T>(err: Option<Error>, value: T): Reply<T> {
    if err.Some? then Err(err.value) else Ok(value)
  }

  function ErrorOf<T>(r: Reply<T>): Option<Error> {
    if r.Ok? then None else Some(r.error)
  }

  class Database {
    var tables: Store
    var calls: nat
    const env: nat -> Answer

    constructor (s: Store, env: nat -> Answer)
      ensures tables == s && calls == 0 && this.env == env
    {
      tables := s;
      calls := 0;
      this.env := env;
    }

    method NextAnswer() returns (a: Answer)
      modifies `calls
      ensures a == env(old(calls)) && calls == old(calls) + 1
    {
      a := env(calls);
      calls := calls + 1;
    }

    method Load(row: UserRow) returns (user: User)
      ensures fresh(user) && user.View() == Preloaded(tables, row)
      ensures user.profile != null ==> fresh(user.profile)
    {
      var p := ProfileByUser(tables, row.id);
      var profile: UserProfile? := null;
      if p.Ok? {
        profile := new UserProfile(p.value);
      }
      user := new User(row, profile);
    }

    method FindUserById(id: Id) returns (user: User?, err: Option<Error>)
      modifies `calls
      ensures calls == old(calls) + 1
      ensures var r := Guarded(env(old(calls)), UserById(tables, id));
              err == ErrorOf(r) && (r.Ok? <==> user != null) && (r.Ok? ==> user.View() == r.value)
      ensures user != null ==> fresh(user) && (user.profile != null ==> fresh(user.profile))
    {
      var a := NextAnswer();
      if a.fails {
        return null, Some(Unavailable);
      }
      if id !in tables.users {
        return null, Some(NotFound);
      }
      user := Load(tables.users[id]);
      return user, None;
    }

    method FindUserByEmail(email: string) returns (user: User?, err: Option<Error>)
      modifies `calls
      ensures calls == old(calls) + 1
      ensures var r := Guarded(env(old(calls)), UserByEmail(tables, email));
              err == ErrorOf(r) && (r.Ok? <==> user != null) && (r.Ok? ==> user.View() == r.value)
      ensures user != null ==> fresh(user) && (user.profile != null ==> fresh(user.profile))
    {
      var a := NextAnswer();
      if a.fails {
        return null, Some(Unavailable);
      }
      var matching := EmailIds(tables, email);
      if matching == {} {
        return null, Some(NotFound);
      }
      user := Load(tables.users[Least(matching)]);
      return user, None;
    }

    method CreateUser(user: User) returns (err: Option<Error>)
      modifies this, user`id
      ensures calls == old(calls) + 1
      ensures var (s', r) := InsertUser(old(tables), old(user.Row()), env(old(calls)));
              && tables == s' && err == ErrorOf(r)
              && user.Row() == if r.Ok? then r.value else old(user.Row())
    {
      var a := NextAnswer();
      if a.fails {
        return Some(Unavailable);
      }
      var id := user.id;
      if id == "" {
        if a.newId in tables.issued || a.newId in tables.users {
          return Some(Conflict);
        }
        id := a.newId;
        tables := tables.(issued := tables.issued[id := id]);
      } else if id in tables.users {
        return Some(Conflict);
      }
      user.id := id;
      tables := tables.(users := tables.users[id := user.Row()]);
      return None;
    }

    method UpdateUser(user: User) returns (err: Option<Error>)
      modifies this
      ensures calls == old(calls) + 1
      ensures var (s', r) := SaveUser(old(tables), user.Row(), env(old(calls)));
              tables == s' && err == ErrorOf(r)
    {
      var a := NextAnswer();
      if a.fails {
        return Some(Unavailable);
      }
      tables := tables.(users := tables.users[user.id := user.Row()]);
      return None;
    }

    method DeleteUserById(id: Id) returns (err: Option<Error>)
      modifies this
      ensures calls == old(calls) + 1
      ensures var (s', r) := DeleteUser(old(tables), id, env(old(calls)));
              tables == s' && err == ErrorOf(r)
    {
      var a := NextAnswer();
      if a.fails {
        return Some(Unavailable);
      }
      tables := tables.(users := tables.users - {id});
      tables := tables.(profiles :=
        map k | k in tables.profiles && tables.profiles[k].userId != id :: tables.profiles[k]);
      tables := tables.(identities :=
        map k | k in tables.identities && tables.identities[k].userId != id :: tables.identities[k]);
      return None;
    }

    method CreateProfile(profile: UserProfile) returns (err: Option<Error>)
      modifies this, profile`id
      ensures calls == old(calls) + 1
      ensures var (s', r) := InsertProfile(old(tables), old(profile.Row()), env(old(calls)));
              && tables == s' && err == ErrorOf(r)
              && profile.Row() == if r.Ok? then r.value else old(profile.Row())
    {
      var a := NextAnswer();
      if a.fails {
        return Some(Unavailable);
      }
      if a.newId in tables.issued || profile.userId !in tables.users || ProfileIdsOf(tables, profile.userId) != {} {
        return Some(Conflict);
      }
      profile.id := a.newId;
      tables := tables.(profiles := tables.profiles[profile.id := profile.Row()]);
      tables := tables.(issued := tables.issued[profile.id := profile.userId]);
      return None;
    }

    method FindProfileByUser(userId: Id) returns (profile: UserProfile?, err: Option<Error>)
      modifies `calls
      ensures calls == old(calls) + 1
      ensures var r := Guarded(env(old(calls)), ProfileByUser(tables, userId));
              err == ErrorOf(r) && (r.Ok? <==> profile != null) && (r.Ok? ==> profile.Row() == r.value)
      ensures profile != null ==> fresh(profile)
    {
      var a := NextAnswer();
      if a.fails {
        return null, Some(Unavailable);
      }
      var ids := ProfileIdsOf(tables, userId);
      if ids == {} {
        return null, Some(NotFound);
      }
      profile := new UserProfile(tables.profiles[Least(ids)]);
      return profile, None;
    }

    method UpdateProfile(profile: UserProfile) returns (err: Option<Error>)
      modifies this
      ensures calls == old(calls) + 1
      ensures var (s', r) := SaveProfile(old(tables), profile.Row(), env(old(calls)));
              tables == s' && err == ErrorOf(r)
    {
      var a := NextAnswer();
      if a.fails {
        return Some(Unavailable);
      }
      if profile.userId !in tables.users || !(ProfileIdsOf(tables, profile.userId) <= {profile.id}) {
        return Some(Conflict);
      }
      tables := tables.(profiles := tables.profiles[profile.id := profile.Row()]);
      return None;
    }

    method CreateIdentity(identity: IdentityRow) returns (stored: IdentityRow, err: Option<Error>)
      modifies this
      ensures calls == old(calls) + 1
      ensures var (s', r) := InsertIdentity(old(tables), identity, env(old(calls)));
              && tables == s' && err == ErrorOf(r)
              && stored == if r.Ok? then r.value else identity
    {
      var a := NextAnswer();
      if a.fails {
        return identity, Some(Unavailable);
      }
      if a.newId in tables.issued || identity.userId !in tables.users || LinkTaken(tables, identity) {
        return identity, Some(Conflict);
      }
      stored := identity.(id := a.newId);
      tables := tables.(identities := tables.identities[stored.id := stored]);
      tables := tables.(issued := tables.issued[stored.id := stored.userId]);
      return stored, None;
    }

    method FindIdentity(provider: Provider, providerUserId: string) returns (r: Reply<IdentityRow>)
      modifies `calls
      ensures calls == old(calls) + 1
      ensures r == Guarded(env(old(calls)), IdentityByLink(tables, provider, providerUserId))
    {
      var a := NextAnswer();
      if a.fails {
        return Err(Unavailable);
      }
      var ids := LinkIds(tables, provider, providerUserId);
      return if ids == {} then Err(NotFound) else Ok(tables.identities[Least(ids)]);
    }

    method DeleteIdentityById(id: Id) returns (err: Option<Error>)
      modifies this
      ensures calls == old(calls) + 1
      ensures var (s', r) := DeleteIdentity(old(tables), id, env(old(calls)));
              tables == s' && err == ErrorOf(r)
    {
      var a := NextAnswer();
      if a.fails {
        return Some(Unavailable);
      }
      tables := tables.(identities := tables.identities - {id});
      return None;
    }

    /** The role service, reached through `rbac.Client.AssignRole`. */
    method AssignRoleTo(userId: Id, role: string) returns (err: Option<Error>)
      modifies this
      ensures calls == old(calls) + 1
      ensures var (s', r) := AssignRole(old(tables), userId, role, env(old(calls)));
              tables == s' && err == ErrorOf(r)
    {
      var a := NextAnswer();
      if a.fails {
        return Some(Unavailable);
      }
      tables := tables.(roles := tables.roles[userId := role]);
      return None;
    }

    /** Hashing a password writes nothing, but it may fail. */
    method HashPassword() returns (err: Option<Error>)
      modifies `calls
      ensures calls == old(calls) + 1
      ensures err == if env(old(calls)).fails then Some(Unavailable) else None
    {
      var a := NextAnswer();
      return if a.fails then Some(Unavailable) else None;
    }
  }
}
