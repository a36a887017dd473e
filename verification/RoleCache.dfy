/** The caching role client under concurrency: a shared map, loads outside the lock, a monotone clock, and a role
    service whose answers may change at any moment. */
module RoleCache {
  import opened Text
  import opened CacheKeys

  datatype Value = Name(text: string) | Names(texts: seq<string>) | Flag(yes: bool)

  /** The type the caller of this question asserts the cached value to have. */
  predicate Fits(q: Query, v: Value) {
    match q
    case RoleOf(_) => v.Name?
    case PermissionsOf(_) => v.Names?
    case HasPermission(_, _) => v.Flag?
    case HasRole(_, _) => v.Flag?
  }

  datatype Entry = Entry(value: Value, expiresAt: int)

  /** All answers the role service would give at one moment. */
  type Backend = Query -> Value

  ghost predicate Proper(b: Backend) {
    forall q :: Fits(q, b(q))
  }

  /* ---- one cached call on its own ---- */

  /** What a call meets: its first clock reading, the delegate's answer (None: it fails), the clock at the store. */
  datatype CallEnv = CallEnv(now: int, answer: Option<Value>, storedAt: int)

  function Cached(cache: map<string, Entry>, key: string, ttl: int, e: CallEnv): (map<string, Entry>, Option<Value>) {
    if key in cache && e.now < cache[key].expiresAt then (cache, Some(cache[key].value))
    else if e.answer.None? then (cache, None)
    else (cache[key := Entry(e.answer.value, e.storedAt + ttl)], e.answer)
  }

  ghost predicate WellTyped(cache: map<string, Entry>) {
    forall q :: Key(q) in cache ==> Fits(q, cache[Key(q)].value)
  }

  lemma CachedKeepsTypes(cache: map<string, Entry>, q: Query, ttl: int, e: CallEnv)
    requires WellTyped(cache) && (e.answer.Some? ==> Fits(q, e.answer.value))
    ensures var (cache', r) := Cached(cache, Key(q), ttl, e);
            WellTyped(cache') && (r.Some? ==> Fits(q, r.value))
  {
    var cache' := Cached(cache, Key(q), ttl, e).0;
    forall r | Key(r) in cache' ensures Fits(r, cache'[Key(r)].value) {
      if Key(r) == Key(q) {
        KindsNeverCollide(q, r);
      }
    }
  }

  class CachingClient {
    const ttl: int
    var cache: map<string, Entry>
    var calls: nat
    const env: nat -> CallEnv

    constructor (ttl: int, env: nat -> CallEnv)
      ensures this.ttl == ttl && this.env == env && cache == map[] && calls == 0
    {
      this.ttl, this.env := ttl, env;
      cache, calls := map[], 0;
    }

    /** The delegate's methods are typed: the next answer fits the question. */
    ghost predicate Ready(q: Query)
      reads this
    {
      WellTyped(cache) && (env(calls).answer.Some? ==> Fits(q, env(calls).answer.value))
    }

    method WithCache(key: string) returns (value: Option<Value>)
      modifies this`cache, this`calls
      ensures calls == old(calls) + 1
      ensures (cache, value) == Cached(old(cache), key, ttl, env(old(calls)))
    {
      var e := env(calls);
      calls := calls + 1;
      if key in cache && e.now < cache[key].expiresAt {
        return Some(cache[key].value);
      }
      if e.answer.None? {
        return None;
      }
      cache := cache[key := Entry(e.answer.value, e.storedAt + ttl)];
      return e.answer;
    }

    /** Each typed read: its type assertion always succeeds. */
    method GetRoleByUserID(user: string) returns (role: Option<string>)
      requires Ready(RoleOf(user))
      modifies this`cache, this`calls
      ensures calls == old(calls) + 1 && WellTyped(cache)
      ensures var r := Cached(old(cache), Key(RoleOf(user)), ttl, env(old(calls)));
              cache == r.0 && r.1 == if role.None? then None else Some(Name(role.value))
    {
      CachedKeepsTypes(cache, RoleOf(user), ttl, env(calls));
      var value := WithCache(Key(RoleOf(user)));
      return if value.None? then None else Some(value.value.text);
    }

    /** The delegate alone decides; the cached answers about the user stay. */
    method AssignRole(user: string, role: string) returns (ok: bool)
      modifies this`calls
      ensures calls == old(calls) + 1 && cache == old(cache) && ok == env(old(calls)).answer.Some?
    {
      ok := env(calls).answer.Some?;
      calls := calls + 1;
    }

    method GetPermissionsByUserID(user: string) returns (permissions: Option<seq<string>>)
      requires Ready(PermissionsOf(user))
      modifies this`cache, this`calls
      ensures calls == old(calls) + 1 && WellTyped(cache)
      ensures var r := Cached(old(cache), Key(PermissionsOf(user)), ttl, env(old(calls)));
              cache == r.0 && r.1 == if permissions.None? then None else Some(Names(permissions.value))
    {
      CachedKeepsTypes(cache, PermissionsOf(user), ttl, env(calls));
      var value := WithCache(Key(PermissionsOf(user)));
      return if value.None? then None else Some(value.value.texts);
    }

    method CheckPermission(user: string, permission: string) returns (allowed: Option<bool>)
      requires Ready(HasPermission(user, permission))
      modifies this`cache, this`calls
      ensures calls == old(calls) + 1 && WellTyped(cache)
      ensures var r := Cached(old(cache), Key(HasPermission(user, permission)), ttl, env(old(calls)));
              cache == r.0 && r.1 == if allowed.None? then None else Some(Flag(allowed.value))
    {
      CachedKeepsTypes(cache, HasPermission(user, permission), ttl, env(calls));
      var value := WithCache(Key(HasPermission(user, permission)));
      return if value.None? then None else Some(value.value.yes);
    }

    method CheckRole(user: string, role: string) returns (allowed: Option<bool>)
      requires Ready(HasRole(user, role))
      modifies this`cache, this`calls
      ensures calls == old(calls) + 1 && WellTyped(cache)
      ensures var r := Cached(old(cache), Key(HasRole(user, role)), ttl, env(old(calls)));
              cache == r.0 && r.1 == if allowed.None? then None else Some(Flag(allowed.value))
    {
      CachedKeepsTypes(cache, HasRole(user, role), ttl, env(calls));
      var value := WithCache(Key(HasRole(user, role)));
      return if value.None? then None else Some(value.value.yes);
    }
  }

  /* ---- many calls at once ---- */

  datatype Result = Hit(value: Value) | Fetched(value: Value, begun: nat, answered: nat) | Failed

  /** `begun` and `answered` number the state of the role service at the begin and at the answer of a load. */
  datatype Progress =
    | Invoked
    | Sampled(now: int)
    | Missed(now: int)  // the map has been read
    | Loading(now: int, begun: nat)
    | Answered(now: int, begun: nat, answered: nat, value: Value)
    | Done(now: int, result: Result)

  /** `since`: the state of the role service when the call was made. */
  datatype Call = Call(query: Query, since: nat, at: Progress)

  datatype Load = Load(query: Query, begun: nat, answered: nat, value: Value, storedAt: int)

  /** `versions` are the successive states of the role service; `stores` the successful loads, in store order. */
  datatype World = World(ttl: int, clock: int, versions: seq<Backend>, cache: map<string, Entry>,
                         calls: seq<Call>, stores: seq<Load>)

  datatype Label =
    | Tick(d: nat)
    | Assign(after: Backend)      // an AssignRole takes effect, or the roles change otherwise; the cache is left alone
    | Invoke(query: Query)
    | Move(i: nat, fails: bool)   // call i performs its next step; a load may fail

  function Advance(w: World, c: Call, fails: bool): (World, Progress)
    requires |w.versions| > 0
  {
    var latest := |w.versions| - 1;
    match c.at
    case Invoked => (w, Sampled(w.clock))
    case Sampled(now) =>
      var key := Key(c.query);
      (w, if key in w.cache && now < w.cache[key].expiresAt then Done(now, Hit(w.cache[key].value))
          else Missed(now))
    case Missed(now) => (w, Loading(now, latest))
    case Loading(now, begun) =>
      (w, if fails then Done(now, Failed) else Answered(now, begun, latest, w.versions[latest](c.query)))
    case Answered(now, begun, answered, value) =>
      (w.(cache := w.cache[Key(c.query) := Entry(value, w.clock + w.ttl)],
          stores := w.stores + [Load(c.query, begun, answered, value, w.clock)]),
       Done(now, Fetched(value, begun, answered)))
    case Done(_, _) => (w, c.at)
  }

  function Apply(w: World, l: Label): World
    requires |w.versions| > 0
    ensures |Apply(w, l).versions| > 0
  {
    match l
    case Tick(d) => w.(clock := w.clock + d)
    case Assign(after) => w.(versions := w.versions + [after])
    case Invoke(q) => w.(calls := w.calls + [Call(q, |w.versions| - 1, Invoked)])
    case Move(i, fails) =>
      if i < |w.calls| then
        var (w', at') := Advance(w, w.calls[i], fails);
        w'.(calls := w.calls[i := w.calls[i].(at := at')])
      else w
  }

  function Exec(w: World, schedule: seq<Label>): (w': World)
    requires |w.versions| > 0
    ensures |w'.versions| > 0
  {
    if schedule == [] then w else Apply(Exec(w, schedule[..|schedule| - 1]), schedule[|schedule| - 1])
  }

  function Initial(ttl: int, clock: int, b: Backend): World {
    World(ttl, clock, [b], map[], [], [])
  }

  /* ---- what every schedule keeps ---- */

  /** The map is what the successful loads stored, the last one per key; nothing else ever changes it. */
  function Replayed(ttl: int, stores: seq<Load>): map<string, Entry> {
    if stores == [] then map[]
    else
      var l := stores[|stores| - 1];
      Replayed(ttl, stores[..|stores| - 1])[Key(l.query) := Entry(l.value, l.storedAt + ttl)]
  }

  ghost predicate Truthful(w: World, l: Load) {
    && l.begun <= l.answered < |w.versions| && l.storedAt <= w.clock
    && l.value == w.versions[l.answered](l.query)
  }

  /** A load under the question's key gave this value and was stored less than ttl before `now`. */
  ghost predicate StoredBy(w: World, l: Load, q: Query, v: Value, now: int) {
    l in w.stores && Key(l.query) == Key(q) && l.value == v && now < l.storedAt + w.ttl
  }

  ghost predicate CallOk(w: World, c: Call) {
    match c.at
    case Invoked => c.since < |w.versions|
    case Sampled(now) => c.since < |w.versions| && now <= w.clock
    case Missed(now) => c.since < |w.versions| && now <= w.clock
    case Loading(now, begun) => c.since <= begun < |w.versions| && now <= w.clock
    case Answered(now, begun, answered, value) =>
      && c.since <= begun <= answered < |w.versions| && now <= w.clock
      && value == w.versions[answered](c.query)
    case Done(now, Hit(v)) => exists l :: StoredBy(w, l, c.query, v, now)
    case Done(now, Fetched(v, begun, answered)) =>
      && c.since <= begun <= answered < |w.versions| && v == w.versions[answered](c.query)
      && exists l :: l in w.stores && l.query == c.query && l.value == v && l.begun == begun
                     && l.answered == answered && now <= l.storedAt
    case Done(_, Failed) => true
  }

  ghost predicate Invariant(w: World) {
    && |w.versions| > 0
    && w.cache == Replayed(w.ttl, w.stores)
    && (forall l :: l in w.stores ==> Truthful(w, l))
    && (forall i :: 0 <= i < |w.calls| ==> CallOk(w, w.calls[i]))
  }

  lemma {:induction false} EntryHasStore(ttl: int, stores: seq<Load>, key: string)
    requires key in Replayed(ttl, stores)
    ensures exists l :: l in stores && Key(l.query) == key && Replayed(ttl, stores)[key] == Entry(l.value, l.storedAt + ttl)
  {
    var l := stores[|stores| - 1];
    if Key(l.query) != key {
      EntryHasStore(ttl, stores[..|stores| - 1], key);
    }
  }

  ghost predicate Grows(w: World, w': World) {
    w'.ttl == w.ttl && w.clock <= w'.clock && w.versions <= w'.versions && w.stores <= w'.stores
  }

  lemma CallStaysOk(w: World, w': World, c: Call)
    requires Grows(w, w') && CallOk(w, c)
    ensures CallOk(w', c)
  {
    if c.at.Done? && c.at.result.Hit? {
      var l :| StoredBy(w, l, c.query, c.at.result.value, c.at.now);
      assert StoredBy(w', l, c.query, c.at.result.value, c.at.now);
    }
  }

  lemma HitIsStored(w: World, q: Query, now: int)
    requires Invariant(w) && Key(q) in w.cache && now < w.cache[Key(q)].expiresAt
    ensures exists l :: StoredBy(w, l, q, w.cache[Key(q)].value, now)
  {
    EntryHasStore(w.ttl, w.stores, Key(q));
    var l :| l in w.stores && Key(l.query) == Key(q) && w.cache[Key(q)] == Entry(l.value, l.storedAt + w.ttl);
    assert StoredBy(w, l, q, w.cache[Key(q)].value, now);
  }

  lemma LoggedStoreExplains(w: World, c: Call, l: Load)
    requires CallOk(w, c) && c.at.Answered?
    requires l == Load(c.query, c.at.begun, c.at.answered, c.at.value, w.clock) && l in w.stores
    ensures CallOk(w, c.(at := Done(c.at.now, Fetched(l.value, l.begun, l.answered))))
  {
  }

  lemma LastStoreWins(ttl: int, stores: seq<Load>, l: Load)
    ensures Replayed(ttl, stores + [l]) == Replayed(ttl, stores)[Key(l.query) := Entry(l.value, l.storedAt + ttl)]
  {
    assert (stores + [l])[..|stores|] == stores;
  }

  lemma StoreIsTruthful(w: World, w': World, l: Load)
    requires Invariant(w) && w'.versions == w.versions && w'.clock == w.clock
    requires w'.stores == w.stores + [l] && Truthful(w, l)
    ensures l in w'.stores && forall k :: k in w'.stores ==> Truthful(w', k)
  {
    forall k | k in w'.stores ensures Truthful(w', k) {
      assert k == l || (k in w.stores && Truthful(w, k));
    }
  }

  /** The world after the store of load `l`. */
  function Stored(w: World, l: Load): World {
    w.(cache := w.cache[Key(l.query) := Entry(l.value, w.clock + w.ttl)], stores := w.stores + [l])
  }

  lemma StoreIsLogged(w: World, l: Load)
    requires Invariant(w) && Truthful(w, l) && l.storedAt == w.clock
    ensures var w' := Stored(w, l);
            && w'.cache == Replayed(w'.ttl, w'.stores) && l in w'.stores
            && (forall k :: k in w'.stores ==> Truthful(w', k))
  {
    LastStoreWins(w.ttl, w.stores, l);
    StoreIsTruthful(w, Stored(w, l), l);
  }

  lemma AdvanceKeeps(w: World, c: Call, fails: bool)
    requires Invariant(w) && CallOk(w, c)
    ensures var (w', at') := Advance(w, c, fails);
            && Grows(w, w') && w'.calls == w.calls && CallOk(w', c.(at := at'))
            && w'.cache == Replayed(w'.ttl, w'.stores)
            && (forall l :: l in w'.stores ==> Truthful(w', l))
  {
    if c.at.Answered? {
      var l := Load(c.query, c.at.begun, c.at.answered, c.at.value, w.clock);
      StoreIsLogged(w, l);
      LoggedStoreExplains(Stored(w, l), c, l);
    } else if c.at.Sampled? && Key(c.query) in w.cache && c.at.now < w.cache[Key(c.query)].expiresAt {
      HitIsStored(w, c.query, c.at.now);
    }
  }

  lemma ApplyKeeps(w: World, l: Label)
    requires Invariant(w)
    ensures Invariant(Apply(w, l)) && Grows(w, Apply(w, l))
  {
    var w' := Apply(w, l);
    if l.Move? && l.i < |w.calls| {
      AdvanceKeeps(w, w.calls[l.i], l.fails);
      MovedCallsOk(w, l.i, l.fails);
    } else {
      forall k | 0 <= k < |w'.calls| ensures CallOk(w', w'.calls[k]) {
        if k < |w.calls| {
          CallStaysOk(w, w', w.calls[k]);
        }
      }
    }
  }

  lemma MovedCallsOk(w: World, i: nat, fails: bool)
    requires Invariant(w) && i < |w.calls|
    ensures var w' := Apply(w, Move(i, fails));
            forall k :: 0 <= k < |w'.calls| ==> CallOk(w', w'.calls[k])
  {
    var (v, at') := Advance(w, w.calls[i], fails);
    AdvanceKeeps(w, w.calls[i], fails);
    var moved := w.calls[i].(at := at');
    OthersStayOk(w, v, v.(calls := w.calls[i := moved]), i, moved);
  }

  lemma OthersStayOk(w: World, v: World, w': World, i: nat, moved: Call)
    requires Invariant(w) && i < |w.calls| && Grows(w, v) && CallOk(v, moved)
    requires w' == v.(calls := w.calls[i := moved])
    ensures forall k :: 0 <= k < |w'.calls| ==> CallOk(w', w'.calls[k])
  {
    forall k | 0 <= k < |w'.calls| ensures CallOk(w', w'.calls[k]) {
      if k == i {
        CallStaysOk(v, w', moved);
      } else {
        CallStaysOk(w, w', w.calls[k]);
      }
    }
  }

  lemma {:induction false} ExecKeeps(w: World, schedule: seq<Label>)
    requires Invariant(w)
    ensures Invariant(Exec(w, schedule)) && Grows(w, Exec(w, schedule))
  {
    if schedule != [] {
      ExecKeeps(w, schedule[..|schedule| - 1]);
      ApplyKeeps(Exec(w, schedule[..|schedule| - 1]), schedule[|schedule| - 1]);
    }
  }

  /* ---- the guarantees ---- */

  /** Some schedule leads here from an empty cache. */
  ghost predicate Reachable(w: World) {
    exists clock: int, b: Backend, schedule: seq<Label> :: w == Exec(Initial(w.ttl, clock, b), schedule)
  }

  lemma ReachableIsInvariant(w: World)
    requires Reachable(w)
    ensures Invariant(w)
  {
    var clock: int, b: Backend, schedule: seq<Label> :| w == Exec(Initial(w.ttl, clock, b), schedule);
    ExecKeeps(Initial(w.ttl, clock, b), schedule);
  }

  /** Bounded staleness over every schedule: a hit with clock sample `now` returns what the role service answered to a
      question under the same key in a load whose store time s has now < s + ttl.  The map holds nothing but the
      values of successful loads, even where an older load overwrote a newer one. */
  lemma StalenessIsBounded(w: World, i: nat)
    requires Reachable(w) && i < |w.calls| && w.calls[i].at.Done? && w.calls[i].at.result.Hit?
    ensures w.cache == Replayed(w.ttl, w.stores)
    ensures var c := w.calls[i];
            exists l :: StoredBy(w, l, c.query, c.at.result.value, c.at.now) && l.storedAt <= w.clock &&
                        l.answered < |w.versions| && l.value == w.versions[l.answered](l.query)
  {
    ReachableIsInvariant(w);
    assert CallOk(w, w.calls[i]);
    var l :| StoredBy(w, l, w.calls[i].query, w.calls[i].at.result.value, w.calls[i].at.now);
    assert Truthful(w, l);
  }

  /** The call was answered by a load that began when the role service was in state `a` or a later one. */
  ghost predicate AnsweredSince(w: World, c: Call, a: nat) {
    c.at.Done? &&
    match c.at.result
    case Hit(v) => exists l :: StoredBy(w, l, c.query, v, c.at.now) && l.begun >= a && Truthful(w, l)
    case Fetched(v, begun, answered) => a <= begun <= answered < |w.versions| && v == w.versions[answered](c.query)
    case Failed => true
  }

  /** Catching up with an assignment: the cache is left alone, but once ttl has passed since the last store (`last`) of
      any load begun before state `a`, every call made since then is answered by a load begun in state `a` or later. */
  lemma CallsCatchUp(w: World, a: nat, last: int, i: nat)
    requires Reachable(w) && (forall l :: l in w.stores && l.begun < a ==> l.storedAt <= last)
    requires i < |w.calls| && w.calls[i].at.Done? && w.calls[i].since >= a && w.calls[i].at.now >= last + w.ttl
    ensures AnsweredSince(w, w.calls[i], a)
  {
    ReachableIsInvariant(w);
    var c := w.calls[i];
    assert CallOk(w, c);
    if c.at.result.Hit? {
      var l :| StoredBy(w, l, c.query, c.at.result.value, c.at.now);
      assert l.begun >= a && Truthful(w, l);
    }
  }

  /** Every value a call returns has the type its caller asserts. */
  lemma AssertionsSucceed(ttl: int, clock: int, b: Backend, schedule: seq<Label>, i: nat)
    requires Proper(b) && forall k :: 0 <= k < |schedule| && schedule[k].Assign? ==> Proper(schedule[k].after)
    requires var w := Exec(Initial(ttl, clock, b), schedule);
             i < |w.calls| && w.calls[i].at.Done? && !w.calls[i].at.result.Failed?
    ensures var c := Exec(Initial(ttl, clock, b), schedule).calls[i];
            Fits(c.query, c.at.result.value)
  {
    ExecKeeps(Initial(ttl, clock, b), schedule);
    AllProper(ttl, clock, b, schedule);
    var w := Exec(Initial(ttl, clock, b), schedule);
    var c := w.calls[i];
    assert CallOk(w, c);
    if c.at.result.Hit? {
      var l :| StoredBy(w, l, c.query, c.at.result.value, c.at.now);
      assert Truthful(w, l) && w.versions[l.answered] in w.versions;
      assert Fits(l.query, l.value);
      KindsNeverCollide(l.query, c.query);
    } else {
      assert w.versions[c.at.result.answered] in w.versions;
      assert Fits(c.query, c.at.result.value);
    }
  }

  lemma {:induction false} AllProper(ttl: int, clock: int, b: Backend, schedule: seq<Label>)
    requires Proper(b) && forall k :: 0 <= k < |schedule| && schedule[k].Assign? ==> Proper(schedule[k].after)
    ensures forall v :: v in Exec(Initial(ttl, clock, b), schedule).versions ==> Proper(v)
  {
    if schedule != [] {
      AllProper(ttl, clock, b, schedule[..|schedule| - 1]);
    }
  }

  /* ---- transparency ---- */

  predicate Quiet(schedule: seq<Label>) {
    forall k :: 0 <= k < |schedule| ==> !schedule[k].Assign?
  }

  lemma {:induction false} QuietKeepsVersions(w: World, schedule: seq<Label>)
    requires |w.versions| > 0 && Quiet(schedule)
    ensures Exec(w, schedule).versions == w.versions
  {
    if schedule != [] {
      QuietKeepsVersions(w, schedule[..|schedule| - 1]);
    }
  }

  /** Every successful call of every schedule without role changes returns what the role service would say. */
  ghost predicate Transparent(ttl: int, b: Backend) {
    forall clock: int, schedule: seq<Label>, i: nat ::
      Quiet(schedule) ==> AnswersRightly(Exec(Initial(ttl, clock, b), schedule), b, i)
  }

  ghost predicate AnswersRightly(w: World, b: Backend, i: nat) {
    i < |w.calls| && w.calls[i].at.Done? && !w.calls[i].at.result.Failed? ==>
      w.calls[i].at.result.value == b(w.calls[i].query)
  }

  /** Questions that share a key have one answer. */
  ghost predicate KeysSuffice(b: Backend) {
    forall q, r :: Key(q) == Key(r) ==> b(q) == b(r)
  }

  lemma QuietCallAnswer(ttl: int, clock: int, b: Backend, schedule: seq<Label>, i: nat)
    requires Quiet(schedule)
    requires var w := Exec(Initial(ttl, clock, b), schedule);
             i < |w.calls| && w.calls[i].at.Done? && !w.calls[i].at.result.Failed?
    ensures var c := Exec(Initial(ttl, clock, b), schedule).calls[i];
            exists q :: Key(q) == Key(c.query) && c.at.result.value == b(q) && AskedFor(ttl, clock, b, schedule, q)
  {
    ExecKeeps(Initial(ttl, clock, b), schedule);
    QuietKeepsVersions(Initial(ttl, clock, b), schedule);
    var w := Exec(Initial(ttl, clock, b), schedule);
    var c := w.calls[i];
    assert CallOk(w, c);
    assert c in w.calls;
    var q := c.query;
    if c.at.result.Hit? {
      var l :| StoredBy(w, l, c.query, c.at.result.value, c.at.now);
      assert Truthful(w, l);
      q := l.query;
      StoresWereAsked(Initial(ttl, clock, b), schedule, l);
    }
    assert AskedFor(ttl, clock, b, schedule, q);
  }

  ghost predicate AskedFor(ttl: int, clock: int, b: Backend, schedule: seq<Label>, q: Query) {
    exists c :: c in Exec(Initial(ttl, clock, b), schedule).calls && c.query == q
  }

  lemma {:induction false} StoresWereAsked(w: World, schedule: seq<Label>, l: Load)
    requires |w.versions| > 0 && w.stores == [] && l in Exec(w, schedule).stores
    ensures exists c :: c in Exec(w, schedule).calls && c.query == l.query
  {
    var n := |schedule| - 1;
    var v, step := Exec(w, schedule[..n]), schedule[n];
    var v' := Apply(v, step);
    if l in v.stores {
      StoresWereAsked(w, schedule[..n], l);
      var k :| 0 <= k < |v.calls| && v.calls[k].query == l.query;
      assert v'.calls[k].query == l.query && v'.calls[k] in v'.calls;
    } else {
      assert v'.calls[step.i].query == l.query && v'.calls[step.i] in v'.calls;
    }
  }

  /** With user ids that contain no space the cache is transparent: in every schedule without role changes, each
      successful call returns exactly the role service's answer. */
  lemma PlainCallsAreTransparent(ttl: int, clock: int, b: Backend, schedule: seq<Label>, i: nat)
    requires Quiet(schedule)
    requires var w := Exec(Initial(ttl, clock, b), schedule);
             forall c :: c in w.calls ==> PlainUser(c.query)
    ensures AnswersRightly(Exec(Initial(ttl, clock, b), schedule), b, i)
  {
    var w := Exec(Initial(ttl, clock, b), schedule);
    if i < |w.calls| && w.calls[i].at.Done? && !w.calls[i].at.result.Failed? {
      QuietCallAnswer(ttl, clock, b, schedule, i);
      var q :| Key(q) == Key(w.calls[i].query) && w.calls[i].at.result.value == b(q) && AskedFor(ttl, clock, b, schedule, q);
      assert w.calls[i] in w.calls;
      PlainKeysAreInjective(q, w.calls[i].query);
    }
  }

  /** For arbitrary ids: the cache is transparent exactly when the key determines the answer. */
  lemma TransparentExactlyWhenKeysSuffice(ttl: int, b: Backend)
    requires ttl > 0
    ensures Transparent(ttl, b) <==> KeysSuffice(b)
  {
    if KeysSuffice(b) {
      forall clock: int, schedule: seq<Label>, i: nat | Quiet(schedule)
        ensures AnswersRightly(Exec(Initial(ttl, clock, b), schedule), b, i)
      {
        var w := Exec(Initial(ttl, clock, b), schedule);
        if i < |w.calls| && w.calls[i].at.Done? && !w.calls[i].at.result.Failed? {
          QuietCallAnswer(ttl, clock, b, schedule, i);
        }
      }
    } else {
      var q, r :| Key(q) == Key(r) && b(q) != b(r);
      SecondQuestionHits(ttl, b, q, r);
      assert Quiet(TwoQuestions(q, r));
      assert !AnswersRightly(Exec(Initial(ttl, 0, b), TwoQuestions(q, r)), b, 1);
    }
  }

  function TwoQuestions(q: Query, r: Query): seq<Label> {
    [Invoke(q), Move(0, false), Move(0, false), Move(0, false), Move(0, false), Move(0, false),
     Invoke(r), Move(1, false), Move(1, false)]
  }

  lemma ExecStep(w: World, schedule: seq<Label>, k: nat)
    requires |w.versions| > 0 && k < |schedule|
    ensures Exec(w, schedule[..k + 1]) == Apply(Exec(w, schedule[..k]), schedule[k])
  {
    assert schedule[..k + 1][..k] == schedule[..k];
  }

  lemma FirstQuestionReads(ttl: int, b: Backend, q: Query, r: Query)
    ensures var w := Initial(ttl, 0, b);
            Exec(w, TwoQuestions(q, r)[..2]) == w.(calls := [Call(q, 0, Sampled(0))])
  {
    var w, s := Initial(ttl, 0, b), TwoQuestions(q, r);
    ExecStep(w, s, 0);
    assert Exec(w, s[..1]) == w.(calls := [Call(q, 0, Invoked)]);
    ExecStep(w, s, 1);
  }

  lemma FirstQuestionLoads(ttl: int, b: Backend, q: Query, r: Query)
    ensures var w := Initial(ttl, 0, b);
            Exec(w, TwoQuestions(q, r)[..4]) == w.(calls := [Call(q, 0, Loading(0, 0))])
  {
    var w, s := Initial(ttl, 0, b), TwoQuestions(q, r);
    FirstQuestionReads(ttl, b, q, r);
    ExecStep(w, s, 2);
    assert Exec(w, s[..3]) == w.(calls := [Call(q, 0, Missed(0))]);
    ExecStep(w, s, 3);
  }

  lemma FirstQuestionFetches(ttl: int, b: Backend, q: Query, r: Query)
    ensures var w := Exec(Initial(ttl, 0, b), TwoQuestions(q, r)[..6]);
            && w.clock == 0 && w.ttl == ttl && w.versions == [b] && |w.calls| == 1
            && w.cache == map[Key(q) := Entry(b(q), ttl)]
  {
    var w, s := Initial(ttl, 0, b), TwoQuestions(q, r);
    FirstQuestionLoads(ttl, b, q, r);
    ExecStep(w, s, 4);
    var c := Call(q, 0, Answered(0, 0, 0, b(q)));
    assert Exec(w, s[..5]) == w.(calls := [c]);
    ExecStep(w, s, 5);
    MoveLast(w.(calls := [c]), [], c, false);
  }

  lemma SecondQuestionHits(ttl: int, b: Backend, q: Query, r: Query)
    requires ttl > 0 && Key(q) == Key(r)
    ensures var w := Exec(Initial(ttl, 0, b), TwoQuestions(q, r));
            |w.calls| == 2 && w.calls[1] == Call(r, 0, Done(0, Hit(b(q))))
  {
    var w, s := Initial(ttl, 0, b), TwoQuestions(q, r);
    FirstQuestionFetches(ttl, b, q, r);
    ExecStep(w, s, 6);
    ExecStep(w, s, 7);
    ExecStep(w, s, 8);
    assert s[..9] == s;
    assert Exec(w, s[..7]).calls[1] == Call(r, 0, Invoked);
    assert Exec(w, s[..8]).calls[1] == Call(r, 0, Sampled(0));
  }

  /* ---- one call with nothing in between ---- */

  lemma ExecOn(w: World, schedule: seq<Label>, l: Label)
    requires |w.versions| > 0
    ensures Exec(w, schedule + [l]) == Apply(Exec(w, schedule), l)
  {
    assert (schedule + [l])[..|schedule|] == schedule;
  }

  lemma MoveLast(w: World, before: seq<Call>, c: Call, fails: bool)
    requires |w.versions| > 0 && w.calls == before + [c]
    ensures var (w', at') := Advance(w, c, fails);
            Apply(w, Move(|before|, fails)) == w'.(calls := before + [c.(at := at')])
  {
    assert w.calls[|before| := c.(at := Advance(w, c, fails).1)] == before + [c.(at := Advance(w, c, fails).1)];
  }

  /** A call is made, and moves until it begins its load. */
  function Reading(i: nat, q: Query, fails: bool): seq<Label> {
    [Invoke(q)] + [Move(i, fails)] + [Move(i, fails)] + [Move(i, fails)]
  }

  /** The load, during which the clock advances by `d`. */
  function LoadingToo(i: nat, q: Query, d: nat, fails: bool): seq<Label> {
    Reading(i, q, fails) + [Move(i, fails)] + [Tick(d)]
  }

  function OneCall(i: nat, q: Query, d: nat, fails: bool): seq<Label> {
    LoadingToo(i, q, d, fails) + [Move(i, fails)]
  }

  /** The next step of the last call, when that is not its store. */
  lemma CallSteps(w: World, schedule: seq<Label>, w1: World, c: Call, fails: bool) returns (c': Call)
    requires |w.versions| > 0 && |w1.versions| > 0 && !c.at.Answered?
    requires Exec(w, schedule) == w1.(calls := w.calls + [c])
    ensures c' == c.(at := Advance(w1, c, fails).1)
    ensures Exec(w, schedule + [Move(|w.calls|, fails)]) == w1.(calls := w.calls + [c'])
  {
    ExecOn(w, schedule, Move(|w.calls|, fails));
    var w' := w1.(calls := w.calls + [c]);
    MoveLast(w', w.calls, c, fails);
    c' := c.(at := Advance(w', c, fails).1);
  }

  lemma CallArrives(w: World, q: Query)
    requires |w.versions| > 0
    ensures Exec(w, [Invoke(q)]) == w.(calls := w.calls + [Call(q, |w.versions| - 1, Invoked)])
  {
    var s := [Invoke(q)];
    assert s[..|s| - 1] == [] && s[|s| - 1] == Invoke(q);
    assert Exec(w, s) == Apply(w, Invoke(q));
  }

  lemma CallReads(w: World, q: Query, fails: bool) returns (c: Call)
    requires |w.versions| > 0
    ensures var key, latest := Key(q), |w.versions| - 1;
            && Exec(w, Reading(|w.calls|, q, fails)) == w.(calls := w.calls + [c])
            && c == Call(q, latest, if key in w.cache && w.clock < w.cache[key].expiresAt
                                    then Done(w.clock, Hit(w.cache[key].value)) else Loading(w.clock, latest))
  {
    CallArrives(w, q);
    c := CallSteps(w, [Invoke(q)], w, Call(q, |w.versions| - 1, Invoked), fails);
    c := CallSteps(w, [Invoke(q)] + [Move(|w.calls|, fails)], w, c, fails);
    c := CallSteps(w, [Invoke(q)] + [Move(|w.calls|, fails)] + [Move(|w.calls|, fails)], w, c, fails);
  }

  lemma CallEnds(w: World, schedule: seq<Label>, w1: World, c: Call, fails: bool) returns (w': World)
    requires |w.versions| > 0 && Exec(w, schedule) == w1.(calls := w.calls + [c]) && |w1.versions| > 0
    requires c.at.Done? || c.at.Answered?
    ensures var i := |w.calls|;
            && w' == Exec(w, schedule + [Move(i, fails)]) && |w'.calls| == i + 1
            && (c.at.Done? ==> w'.calls[i] == c && w'.cache == w1.cache)
            && (c.at.Answered? ==>
                  && w'.calls[i].at == Done(c.at.now, Fetched(c.at.value, c.at.begun, c.at.answered))
                  && w'.cache == w1.cache[Key(c.query) := Entry(c.at.value, w1.clock + w1.ttl)])
  {
    ExecOn(w, schedule, Move(|w.calls|, fails));
    MoveLast(w1.(calls := w.calls + [c]), w.calls, c, fails);
    w' := Exec(w, schedule + [Move(|w.calls|, fails)]);
  }

  lemma CallLoads(w: World, q: Query, d: nat, fails: bool) returns (c: Call)
    requires |w.versions| > 0
    ensures var key, latest := Key(q), |w.versions| - 1;
            && Exec(w, LoadingToo(|w.calls|, q, d, fails)) == w.(clock := w.clock + d, calls := w.calls + [c])
            && c == Call(q, latest,
                         if key in w.cache && w.clock < w.cache[key].expiresAt
                         then Done(w.clock, Hit(w.cache[key].value))
                         else if fails then Done(w.clock, Failed)
                         else Answered(w.clock, latest, latest, w.versions[latest](q)))
  {
    c := CallReads(w, q, fails);
    c := CallSteps(w, Reading(|w.calls|, q, fails), w, c, fails);
    ExecOn(w, Reading(|w.calls|, q, fails) + [Move(|w.calls|, fails)], Tick(d));
  }

  /** Call `i`, finished, has left the map and the result that `Cached` says. */
  ghost predicate AsCached(w: World, w': World, i: nat, q: Query, e: CallEnv) {
    && i < |w'.calls| && w'.calls[i].at.Done?
    && w'.cache == Cached(w.cache, Key(q), w.ttl, e).0
    && Cached(w.cache, Key(q), w.ttl, e).1 ==
       if w'.calls[i].at.result.Failed? then None else Some(w'.calls[i].at.result.value)
  }

  lemma EndIsAsCached(w: World, w': World, q: Query, d: nat, fails: bool, c: Call)
    requires |w.versions| > 0 && |w'.calls| == |w.calls| + 1
    requires var key, latest := Key(q), |w.versions| - 1;
             c == Call(q, latest,
                       if key in w.cache && w.clock < w.cache[key].expiresAt
                       then Done(w.clock, Hit(w.cache[key].value))
                       else if fails then Done(w.clock, Failed)
                       else Answered(w.clock, latest, latest, w.versions[latest](q)))
    requires c.at.Done? ==> w'.calls[|w.calls|] == c && w'.cache == w.cache
    requires c.at.Answered? ==>
               && w'.calls[|w.calls|].at == Done(c.at.now, Fetched(c.at.value, c.at.begun, c.at.answered))
               && w'.cache == w.cache[Key(c.query) := Entry(c.at.value, w.clock + d + w.ttl)]
    ensures AsCached(w, w', |w.calls|, q,
                     CallEnv(w.clock, if fails then None else Some(w.versions[|w.versions| - 1](q)), w.clock + d))
  {
  }

  /** Run without interruption, a call of the concurrent model does what `WithCache` does. */
  lemma UninterruptedCallIsCached(w: World, q: Query, d: nat, fails: bool) returns (w': World)
    requires |w.versions| > 0
    ensures w' == Exec(w, OneCall(|w.calls|, q, d, fails))
    ensures AsCached(w, w', |w.calls|, q,
                     CallEnv(w.clock, if fails then None else Some(w.versions[|w.versions| - 1](q)), w.clock + d))
  {
    var c := CallLoads(w, q, d, fails);
    w' := CallEnds(w, LoadingToo(|w.calls|, q, d, fails), w.(clock := w.clock + d), c, fails);
    EndIsAsCached(w, w', q, d, fails, c);
  }
}
