/** Ownership of provider identities under every interleaving, and the laws of attach and remove. */
module IdentityLinks {
  import opened Text
  import opened Domain
  import opened Store
  import opened Requests
  import opened Sequential
  import opened Interleavings

  /** At every moment of every run each external account has one owner and each user one account per provider; an
      identity row seen at two moments is the same row, owner included. */
  lemma OwnersAreFixed(w: World, schedule: seq<Label>, k: nat, m: nat)
    requires Coherent(w) && k <= m <= |schedule|
    ensures var early, late := Exec(w, schedule[..k]).store, Exec(w, schedule[..m]).store;
            && OneOwnerEach(late.identities)
            && (forall x :: x in early.identities && x in late.identities ==> late.identities[x] == early.identities[x])
  {
    var run := schedule[..m];
    ExecKeeps(w, run[..k]);
    assert run[..k] == schedule[..k];
    ExecSplit(w, run, k);
    ExecKeeps(Exec(w, run[..k]), run[k..]);
    LinksAreUnique(Exec(w, run).store);
  }

  /** Two rows for one provider are for different accounts and different users. */
  ghost predicate OneOwnerEach(identities: map<Id, IdentityRow>) {
    forall x, y :: x in identities && y in identities && x != y ==>
      || identities[x].provider != identities[y].provider
      || (identities[x].providerUserId != identities[y].providerUserId && identities[x].userId != identities[y].userId)
  }

  lemma LinksAreUnique(s: Store)
    ensures UniqueLinks(s) <==> OneOwnerEach(s.identities)
  {
    if UniqueLinks(s) {
      forall x, y | x in s.identities && y in s.identities && x != y ensures !Clash(s.identities[x], s.identities[y]) {}
    }
  }

  /** An identity row disappears only when its owner's own removal of that very account deletes it, or with the
      owner's user row when a failed create is undone; then exactly those rows go. */
  lemma LinksAreLostOnlyByTheirOwner(w: World, i: nat, a: Answer)
    requires Coherent(w) && i < |w.procs|
    ensures var before, after, p := w.store.identities, Apply(w, Run(i, a)).store.identities, w.procs[i];
            forall x :: x in before && x !in after ==>
              var row := before[x];
              && !a.fails
              && (p == Removing(row.userId, row.provider, row.providerUserId, DDelete(row)) ||
                  (p.Creating? && p.c.CUndo? && p.c.id == row.userId))
    ensures var before, after, p := w.store.identities, Apply(w, Run(i, a)).store.identities, w.procs[i];
            p.Removing? ==> forall x, y :: x in before && x !in after && y in before && y !in after ==> x == y
  {
    assert PcOk(w.store, w.procs[i]);
    match w.procs[i]
    case Handling(id, email, h) =>
    case Creating(c) => CreateLosesLinks(w.store, c, a);
    case Updating(id, req, u) =>
    case Restating(id, st, q) =>
    case Granting(id, role, q) =>
    case Attaching(l, q) =>
    case Removing(id, pr, pid, q) => RemoveLosesLink(w.store, id, pr, pid, q, a);
    case Editing(id, name, fid, q) =>
  }

  lemma CreateLosesLinks(s: Store, c: CreatePc, a: Answer)
    ensures forall x :: x in s.identities && x !in CreateStep(s, c, a).0.identities ==>
                          !a.fails && c.CUndo? && c.id == s.identities[x].userId
  {
  }

  lemma RemoveLosesLink(s: Store, id: Id, provider: Provider, pid: string, q: RemovePc, a: Answer)
    requires Consistent(s) && PcOk(s, Removing(id, provider, pid, q))
    ensures forall x :: x in s.identities && x !in RemoveStep(s, id, provider, pid, q, a).0.identities ==>
                          var row := s.identities[x];
                          !a.fails && row.userId == id && row.provider == provider && row.providerUserId == pid
                          && q == DDelete(row)
  {
  }

  /** Attaching an account that is linked already, to whomever, leaves the whole store as it was, whatever fails. */
  lemma AttachOfLinkedAccountWritesNothing(s: Store, l: LinkRequest, env: nat -> Answer, n: nat)
    requires Consistent(s) && LinkIds(s, l.provider, l.providerUserId) != {}
    ensures AttachRun(s, l, env, n).0 == s
  {
    var x :| x in LinkIds(s, l.provider, l.providerUserId);
    assert Clash(s.identities[x], NewIdentity(l));
  }

  /** At most the user's profile has changed, and there only the display name. */
  ghost predicate OnlyRenames(s: Store, s': Store, l: LinkRequest) {
    && s'.users == s.users && s'.roles == s.roles && s'.profiles.Keys == s.profiles.Keys
    && forall k :: k in s.profiles ==>
         s'.profiles[k] == s.profiles[k] ||
         (s.profiles[k].userId == l.userId && Edited(s.profiles[k], s'.profiles[k], l.displayName, None))
  }

  /** The row of a new link, field by field. */
  function LinkRow(l: LinkRequest, id: Id): IdentityRow {
    IdentityRow(id, l.userId, l.provider, l.providerUserId, ToLower(l.email), l.displayName, l.avatarUrl)
  }

  ghost predicate AddsLink(s: Store, s': Store, l: LinkRequest, x: Id) {
    x !in s.issued && s'.identities == s.identities[x := LinkRow(l, x)]
  }

  /** The account has an owner, or the user has an account of that provider. */
  ghost predicate Occupied(s: Store, l: LinkRequest) {
    exists k :: k in s.identities && s.identities[k].provider == l.provider &&
                (s.identities[k].providerUserId == l.providerUserId || s.identities[k].userId == l.userId)
  }

  /** The calls of the rename at the end of an attach, in order: profile, save. */
  ghost predicate Renames(s: Store, l: LinkRequest, env: nat -> Answer, n: nat) {
    !env(n).fails && !env(n + 1).fails && ProfileIdsOf(s, l.userId) != {}
  }

  /** The user's profile has its new display name, and no other profile has changed. */
  ghost predicate Renamed(s: Store, s': Store, l: LinkRequest) {
    exists k, after :: && k in s.profiles && s.profiles[k].userId == l.userId
                       && Edited(s.profiles[k], after, l.displayName, None)
                       && s'.profiles == s.profiles[k := after]
  }

  lemma RenameKeepsLinks(s: Store, l: LinkRequest, identity: IdentityRow, env: nat -> Answer, n: nat)
    requires Consistent(s)
    ensures var (s', reply, _) := RenameRun(s, l, identity, env, n);
            && s' == s.(profiles := s'.profiles) && OnlyRenames(s, s', l)
            && (reply.Ok? <==> Renames(s, l, env, n))
            && (if reply.Ok? then reply.value.0 == identity && Renamed(s, s', l) else s' == s)
            && (reply.Ok? ==> reply.value.1.Some? && ShowsProfile(s', l.userId, reply.value.1))
  {
    var found := ProfileByUser(s, l.userId);
    if found.Ok? {
      FoundProfile(s, l.userId);
      OwnProfileOnly(s, l.userId);
      UpdatedIsTheEdit(found.value, Updated(found.value, l.displayName, None), l.displayName, None);
      assert s.profiles[found.value.id] == found.value;
    }
  }

  /** The user is there, has the account's email, and the first call gets through. */
  ghost predicate PassesChecks(s: Store, l: LinkRequest, env: nat -> Answer, n: nat) {
    !env(n).fails && l.userId in s.users && EqualFold(s.users[l.userId].email, l.email)
  }

  /** The attach gets as far as storing the identity; the look-up before it may fail without harm. */
  ghost predicate Inserts(s: Store, l: LinkRequest, env: nat -> Answer, n: nat) {
    && PassesChecks(s, l, env, n)
    && !env(n + 2).fails && env(n + 2).newId !in s.issued && !Occupied(s, l)
  }

  /** The account is linked already, to the user who asks. */
  ghost predicate Repeats(s: Store, l: LinkRequest, env: nat -> Answer, n: nat) {
    && PassesChecks(s, l, env, n) && !env(n + 1).fails
    && exists x :: x in LinkIds(s, l.provider, l.providerUserId) && s.identities[x].userId == l.userId
  }

  lemma LinkedAccountIsTaken(s: Store, l: LinkRequest)
    requires Consistent(s) && LinkIds(s, l.provider, l.providerUserId) != {}
    ensures LinkTaken(s, NewIdentity(l)) && Occupied(s, l)
    ensures var found := IdentityByLink(s, l.provider, l.providerUserId);
            found.Ok? && forall x :: x in LinkIds(s, l.provider, l.providerUserId) ==> s.identities[x] == found.value
  {
    FoundIdentity(s, l.provider, l.providerUserId);
    var found := IdentityByLink(s, l.provider, l.providerUserId).value;
    assert Clash(s.identities[found.id], NewIdentity(l));
    forall x | x in LinkIds(s, l.provider, l.providerUserId) ensures s.identities[x] == found {
      assert Clash(s.identities[x], s.identities[found.id]);
    }
  }

  /** What attaching does, exactly.  The identity table changes if and only if the attach gets as far as its insert, and
      then by exactly the one new row, whatever happens afterwards; otherwise nothing is written at all.  It succeeds
      if and only if that row is stored and the rename goes through, or the account was the user's already.  The only
      other change is the owner's display name. */
  lemma AttachAddsOneRow(s: Store, l: LinkRequest, env: nat -> Answer, n: nat)
    requires Consistent(s)
    ensures var (s', reply, _) := AttachRun(s, l, env, n);
            && OnlyRenames(s, s', l)
            && (s'.identities != s.identities <==> Inserts(s, l, env, n))
            && (if Inserts(s, l, env, n) then AddsLink(s, s', l, env(n + 2).newId) else s' == s)
            && (reply.Ok? <==> (Inserts(s, l, env, n) && Renames(s, l, env, n + 3)) || Repeats(s, l, env, n))
            && (reply.Ok? ==> reply.value.0.userId == l.userId && reply.value.0.id in s'.identities
                              && reply.value.0 == s'.identities[reply.value.0.id]
                              && reply.value.0.provider == l.provider && reply.value.0.providerUserId == l.providerUserId
                              && ShowsProfile(s', l.userId, reply.value.1))
            && (Inserts(s, l, env, n) ==>
                  if reply.Ok? then reply.value.0.id == env(n + 2).newId && Renamed(s, s', l)
                  else s'.profiles == s.profiles)
  {
    if LinkIds(s, l.provider, l.providerUserId) != {} {
      LinkedAccountIsTaken(s, l);
      ProfileIsShown(s, l.userId);
      AttachOfLinkedAccountWritesNothing(s, l, env, n);
    } else if PassesChecks(s, l, env, n) {
      AttachOfNewAccount(s, l, env, n);
    }
  }

  lemma AttachOfNewAccount(s: Store, l: LinkRequest, env: nat -> Answer, n: nat)
    requires Consistent(s) && LinkIds(s, l.provider, l.providerUserId) == {} && PassesChecks(s, l, env, n)
    ensures var (s', reply, _) := AttachRun(s, l, env, n);
            && OnlyRenames(s, s', l)
            && (reply.Ok? <==> Inserts(s, l, env, n) && Renames(s, l, env, n + 3))
            && (if Inserts(s, l, env, n)
                then && AddsLink(s, s', l, env(n + 2).newId)
                     && (if reply.Ok?
                         then reply.value.0 == LinkRow(l, env(n + 2).newId) && Renamed(s, s', l)
                              && ShowsProfile(s', l.userId, reply.value.1)
                         else s'.profiles == s.profiles)
                else s' == s)
  {
    var (s3, identity) := InsertIdentity(s, NewIdentity(l), env(n + 2));
    if identity.Ok? {
      assert AttachRun(s, l, env, n) == RenameRun(s3, l, identity.value, env, n + 3);
      InsertIdentityKeeps(s, NewIdentity(l), env(n + 2));
      assert ProfileIdsOf(s3, l.userId) == ProfileIdsOf(s, l.userId);
      RenameKeepsLinks(s3, l, identity.value, env, n + 3);
    } else {
      assert AttachRun(s, l, env, n) == (s, Err(identity.error), n + 3);
    }
  }

  /** An attach that reports an error has nevertheless linked the account exactly when it got as far as its insert and
      the rename did not go through. */
  lemma FailedAttachLinksExactly(s: Store, l: LinkRequest, env: nat -> Answer, n: nat)
    requires Consistent(s)
    ensures var (s', reply, _) := AttachRun(s, l, env, n);
            reply.Err? && s' != s <==> Inserts(s, l, env, n) && !Renames(s, l, env, n + 3)
  {
    AttachAddsOneRow(s, l, env, n);
    if Inserts(s, l, env, n) {
      InsertsExcludesRepeats(s, l, env, n);
      assert env(n + 2).newId !in s.identities;
    }
  }

  lemma InsertsExcludesRepeats(s: Store, l: LinkRequest, env: nat -> Answer, n: nat)
    requires Consistent(s) && Inserts(s, l, env, n)
    ensures !Repeats(s, l, env, n)
  {
    if LinkIds(s, l.provider, l.providerUserId) != {} {
      LinkedAccountIsTaken(s, l);
    }
  }

  /** One such input: a user without a profile.  No call fails, the reply is an error, and the account is linked. */
  lemma AttachWithoutProfileFailsAndLinks()
    ensures var row := UserRow("u", "a@b", Active, true);
            var s := Store(map["u" := row], map[], map[], map[], map[]);
            var l := LinkRequest("u", GitHub, "7", "a@b", None, None);
            var (s', reply, _) := AttachRun(s, l, k => Answer(false, "x"), 0);
            Consistent(s) && reply == Err(NotFound)
            && s'.identities == map["x" := IdentityRow("x", "u", GitHub, "7", "a@b", None, None)]
  {
    assert ToLower("a@b") == "a@b";
  }

  /** Removal deletes the one row of that account if the requester owns it; otherwise the store stays as it was. */
  lemma RemoveDeletesOwnLink(s: Store, id: Id, provider: Provider, pid: string, env: nat -> Answer, n: nat)
    requires Consistent(s)
    ensures var (s', reply, _) := RemoveRun(s, id, provider, pid, env, n);
            && (reply.Err? ==> s' == s)
            && (reply.Ok? <==> !env(n).fails && !env(n + 1).fails &&
                               exists x :: x in LinkIds(s, provider, pid) && s.identities[x].userId == id)
            && (reply.Ok? ==> exists x :: x in LinkIds(s, provider, pid) && s.identities[x].userId == id
                                          && s' == s.(identities := s.identities - {x}))
  {
    if IdentityByLink(s, provider, pid).Ok? {
      FoundIdentity(s, provider, pid);
      var found := IdentityByLink(s, provider, pid).value;
      assert found.id in LinkIds(s, provider, pid);
      forall x | x in LinkIds(s, provider, pid) ensures x == found.id {
        assert Clash(s.identities[x], s.identities[found.id]);
      }
    }
  }

  /** Attach followed by a successful removal restores the identity table. */
  lemma AttachThenRemoveRestores(s: Store, l: LinkRequest, env: nat -> Answer, n: nat, env': nat -> Answer, n': nat)
    requires Consistent(s) && LinkIds(s, l.provider, l.providerUserId) == {}
    ensures var s1 := AttachRun(s, l, env, n).0;
            var (s2, reply, _) := RemoveRun(s1, l.userId, l.provider, l.providerUserId, env', n');
            reply.Ok? ==> s2 == s1.(identities := s.identities)
  {
    AttachAddsOneRow(s, l, env, n);
    var s1 := AttachRun(s, l, env, n).0;
    AttachRunsAlone(s, l, env, n);
    AloneKeeps(s, Attaching(l, AFind), env, n);
    RemoveDeletesOwnLink(s1, l.userId, l.provider, l.providerUserId, env', n');
    RemovingTheAddedLink(s, s1, l);
  }

  lemma RemovingTheAddedLink(s: Store, s1: Store, l: LinkRequest)
    requires Consistent(s) && LinkIds(s, l.provider, l.providerUserId) == {}
    requires s1.identities == s.identities || exists x :: AddsLink(s, s1, l, x)
    ensures forall y :: y in LinkIds(s1, l.provider, l.providerUserId) ==> s1.identities - {y} == s.identities
  {
    forall y | y in LinkIds(s1, l.provider, l.providerUserId) ensures s1.identities - {y} == s.identities {
      assert y !in LinkIds(s, l.provider, l.providerUserId);
    }
  }
}
