/** The permission cache with calls interleaved at every cache access and database query
    (internal/services/rbac.go). */
module PermissionCache {
  import opened Prelude

  datatype User = User(id: nat)

  /** A user's row and the permissions its role grants. */
  datatype Account = Account(active: bool, perms: set<string>)

  type Accounts = map<User, Account>

  function PermsOf(db: Accounts, u: User): set<string> { if u in db then db[u].perms else {} }

  /** MySQL grants a user what its row says, and nothing without a row. */
  predicate Granted(db: Accounts, u: User, perms: set<string>) {
    (u in db ==> perms == db[u].perms) && (u !in db ==> perms == {})
  }

  /** A permission set, the moment MySQL held it (by clock and by place in the run), and when its fetch began. */
  datatype Fetch = Fetch(perms: set<string>, began: int, readAt: int, place: nat)

  datatype CacheEntry = CacheEntry(fetch: Fetch, fetchedAt: int)

  /** A call of GetUserPermissions, by what it does next. `fence` is the fence of its user when it began. */
  datatype Call =
    | CheckAge(user: User, entry: Option<CacheEntry>, fence: nat)
    | QueryStatus(user: User, entry: Option<CacheEntry>, fence: nat, began: int)
    | QueryPerms(user: User, entry: Option<CacheEntry>, fence: nat, began: int)
    | Store(user: User, fetch: Fetch, fence: nat)
    | Evict(user: User)
    | Stale(user: User, entry: Option<CacheEntry>, fence: nat)
    | Over

  /** A successful answer: what was read when, how long that fetch had taken until its cache write, the time, and
      the call that gave it. */
  datatype Answer = Answer(user: User, fetch: Fetch, took: int, at: int, fence: nat, call: nat)

  /** `past` lists the clock and the accounts after each step, oldest first. `fences[u]` is the place of the last
      invalidation of u at which no call for u stood between its permission query and its cache write. */
  datatype State = State(now: int, db: Accounts, cache: map<User, CacheEntry>, calls: seq<Call>, answers: seq<Answer>,
                         fences: map<User, nat>, past: seq<(int, Accounts)>)

  datatype Limits = Limits(ttl: int, maxStale: int)

  datatype Step =
    | Tick(span: nat)
    | Change(db: Accounts)
    | Invalidate(user: User)
    | Begin(user: User)
    | Go(c: nat, fails: bool)

  predicate InFlight(calls: seq<Call>, u: User) { exists c :: 0 <= c < |calls| && calls[c].Store? && calls[c].user == u }

  function FenceOf(s: State, u: User): nat { if u in s.fences then s.fences[u] else 0 }

  function Cached(s: State, u: User): Option<CacheEntry> { if u in s.cache then Some(s.cache[u]) else None }

  predicate Enabled(s: State, step: Step) { step.Go? ==> step.c < |s.calls| }

  function Served(s: State, u: User, entry: CacheEntry, fence: nat): Answer {
    Answer(u, entry.fetch, entry.fetchedAt - entry.fetch.began, s.now, fence, 0)
  }

  /** What one access or query of a call leaves of it: its next step, an answer, and what it writes to the cache. */
  datatype Effect = Effect(next: Call, answer: Option<Answer>, cache: map<User, CacheEntry>)

  function Quiet(s: State, next: Call): Effect { Effect(next, None, s.cache) }

  function Move(l: Limits, s: State, call: Call, fails: bool): Effect {
    match call
    case CheckAge(u, entry, fence) =>
      if entry.Some? && s.now - entry.value.fetchedAt < l.ttl then Effect(Over, Some(Served(s, u, entry.value, fence)), s.cache)
      else Quiet(s, QueryStatus(u, entry, fence, s.now))
    case QueryStatus(u, entry, fence, began) =>
      if fails then Quiet(s, Stale(u, entry, fence))
      else if u !in s.db || !s.db[u].active then Quiet(s, Evict(u))
      else Quiet(s, QueryPerms(u, entry, fence, began))
    case QueryPerms(u, entry, fence, began) =>
      if fails then Quiet(s, Stale(u, entry, fence))
      else Quiet(s, Store(u, Fetch(PermsOf(s.db, u), began, s.now, |s.past|), fence))
    case Store(u, fetch, fence) =>
      var entry := CacheEntry(fetch, s.now);
      Effect(Over, Some(Served(s, u, entry, fence)), s.cache[u := entry])
    case Evict(u) => Effect(Over, None, s.cache - {u})
    case Stale(u, entry, fence) =>
      if entry.Some? && s.now - entry.value.fetchedAt < l.maxStale then Effect(Over, Some(Served(s, u, entry.value, fence)), s.cache)
      else Quiet(s, Over)
    case Over => Quiet(s, Over)
  }

  function Moved(s: State, c: nat, e: Effect): State
    requires c < |s.calls|
  {
    s.(calls := s.calls[c := e.next], cache := e.cache,
       answers := if e.answer.Some? then s.answers + [e.answer.value.(call := c)] else s.answers)
  }

  function Changed(l: Limits, s: State, step: Step): State
    requires Enabled(s, step)
  {
    match step
    case Tick(span) => s.(now := s.now + span)
    case Change(db) => s.(db := db)
    case Invalidate(u) =>
      s.(cache := s.cache - {u}, fences := if InFlight(s.calls, u) then s.fences else s.fences[u := |s.past|])
    case Begin(u) => s.(calls := s.calls + [CheckAge(u, Cached(s, u), FenceOf(s, u))])
    case Go(c, fails) => Moved(s, c, Move(l, s, s.calls[c], fails))
  }

  function Apply(l: Limits, s: State, step: Step): State
    requires Enabled(s, step)
  {
    var t := Changed(l, s, step);
    t.(past := t.past + [(t.now, t.db)])
  }

  function Start(now: int, db: Accounts): State { State(now, db, map[], [], [], map[], [(now, db)]) }

  // ------------------------------------------------------------- what every step keeps

  /** MySQL held this set for the user at that time: it is the state some step left, at that clock. */
  predicate Held(past: seq<(int, Accounts)>, u: User, f: Fetch) {
    1 <= f.place <= |past| && past[f.place - 1].0 == f.readAt && PermsOf(past[f.place - 1].1, u) == f.perms
  }

  predicate FetchOk(s: State, u: User, f: Fetch) { Held(s.past, u, f) && f.began <= f.readAt <= s.now }

  predicate EntryOk(s: State, u: User, e: CacheEntry, fence: nat) {
    FetchOk(s, u, e.fetch) && e.fetch.readAt <= e.fetchedAt <= s.now && e.fetch.place >= fence
  }

  predicate MaybeOk(s: State, u: User, e: Option<CacheEntry>, fence: nat) { e.Some? ==> EntryOk(s, u, e.value, fence) }

  predicate CallOk(s: State, call: Call) {
    match call
    case CheckAge(u, e, fence) => MaybeOk(s, u, e, fence) && fence <= FenceOf(s, u)
    case QueryStatus(u, e, fence, began) => MaybeOk(s, u, e, fence) && began <= s.now && fence <= FenceOf(s, u)
    case QueryPerms(u, e, fence, began) => MaybeOk(s, u, e, fence) && began <= s.now && fence <= FenceOf(s, u)
    case Store(u, fetch, fence) => FetchOk(s, u, fetch) && fetch.place >= FenceOf(s, u) >= fence
    case Stale(u, e, fence) => MaybeOk(s, u, e, fence)
    case Evict(_) => true
    case Over => true
  }

  /** Fresh: no older than the larger limit plus its own fetch. Fenced: not read before the call's fence. */
  predicate AnswerOk(l: Limits, s: State, a: Answer) {
    && Held(s.past, a.user, a.fetch)
    && 0 <= a.took
    && (a.at - a.fetch.readAt <= a.took || a.at - a.fetch.readAt < (if l.ttl > l.maxStale then l.ttl else l.maxStale) + a.took)
    && a.fetch.place >= a.fence
  }

  predicate Inv(l: Limits, s: State) {
    && s.past != [] && s.past[|s.past| - 1] == (s.now, s.db)
    && (forall u :: u in s.fences ==> s.fences[u] <= |s.past|)
    && (forall u :: u in s.cache ==> EntryOk(s, u, s.cache[u], FenceOf(s, u)))
    && (forall c :: 0 <= c < |s.calls| ==> CallOk(s, s.calls[c]))
    && forall k :: 0 <= k < |s.answers| ==> AnswerOk(l, s, s.answers[k]) && s.answers[k].call < |s.calls|
  }

  /** The clock and the past only grow, and a fence of a call only matters to its own user. */
  predicate Later(s: State, t: State) { s.now <= t.now && s.past <= t.past && forall u :: u in s.fences ==> u in t.fences && s.fences[u] <= t.fences[u] }

  lemma LaterFetch(s: State, t: State, u: User, f: Fetch)
    requires FetchOk(s, u, f) && Later(s, t)
    ensures FetchOk(t, u, f)
  {
    assert t.past[f.place - 1] == s.past[f.place - 1];
  }

  lemma LaterCall(s: State, t: State, call: Call)
    requires CallOk(s, call) && Later(s, t) && (call.Store? ==> FenceOf(t, call.user) == FenceOf(s, call.user))
    ensures CallOk(t, call)
  {
    hide Held;
    match call
    case Store(u, fetch, _) => LaterFetch(s, t, u, fetch);
    case CheckAge(u, e, fence) => if e.Some? { LaterFetch(s, t, u, e.value.fetch); }
    case QueryStatus(u, e, fence, _) => if e.Some? { LaterFetch(s, t, u, e.value.fetch); }
    case QueryPerms(u, e, fence, _) => if e.Some? { LaterFetch(s, t, u, e.value.fetch); }
    case Stale(u, e, fence) => if e.Some? { LaterFetch(s, t, u, e.value.fetch); }
    case _ =>
  }

  lemma LaterAnswer(l: Limits, s: State, t: State, a: Answer)
    requires AnswerOk(l, s, a) && Later(s, t)
    ensures AnswerOk(l, t, a)
  {
    assert t.past[a.fetch.place - 1] == s.past[a.fetch.place - 1];
  }

  /** It is enough that what a step adds is right. */
  lemma InvLater(l: Limits, s: State, t: State)
    requires Inv(l, s) && Later(s, t) && |s.calls| <= |t.calls|
    requires t.past != [] && t.past[|t.past| - 1] == (t.now, t.db)
    requires forall u :: u in t.fences ==> t.fences[u] <= |t.past|
    requires forall u :: u in t.cache ==> (u in s.cache && t.cache[u] == s.cache[u] && FenceOf(t, u) == FenceOf(s, u)) || EntryOk(t, u, t.cache[u], FenceOf(t, u))
    requires forall c :: 0 <= c < |t.calls| ==>
      (c < |s.calls| && t.calls[c] == s.calls[c] && (t.calls[c].Store? ==> FenceOf(t, t.calls[c].user) == FenceOf(s, t.calls[c].user))) || CallOk(t, t.calls[c])
    requires forall k :: 0 <= k < |t.answers| ==> (k < |s.answers| && t.answers[k] == s.answers[k]) || (AnswerOk(l, t, t.answers[k]) && t.answers[k].call < |t.calls|)
    ensures Inv(l, t)
  {
    hide CallOk, AnswerOk, FetchOk, Later, FenceOf;
    forall c | 0 <= c < |t.calls| ensures CallOk(t, t.calls[c]) {
      if c < |s.calls| && t.calls[c] == s.calls[c] && (t.calls[c].Store? ==> FenceOf(t, t.calls[c].user) == FenceOf(s, t.calls[c].user)) {
        LaterCall(s, t, s.calls[c]);
      }
    }
    forall k | 0 <= k < |t.answers| ensures AnswerOk(l, t, t.answers[k]) && t.answers[k].call < |t.calls| {
      if k < |s.answers| && t.answers[k] == s.answers[k] { LaterAnswer(l, s, t, s.answers[k]); }
    }
    forall u | u in t.cache ensures EntryOk(t, u, t.cache[u], FenceOf(t, u)) {
      if u in s.cache && t.cache[u] == s.cache[u] && FenceOf(t, u) == FenceOf(s, u) { LaterEntry(s, t, u, s.cache[u], FenceOf(s, u)); }
    }
  }

  lemma LaterEntry(s: State, t: State, u: User, e: CacheEntry, fence: nat)
    requires EntryOk(s, u, e, fence) && Later(s, t)
    ensures EntryOk(t, u, e, fence)
  {
    LaterFetch(s, t, u, e.fetch);
  }

  lemma KeepsInv(l: Limits, s: State, step: Step)
    requires Inv(l, s) && Enabled(s, step)
    ensures Inv(l, Apply(l, s, step))
  {
    match step
    case Go(c, fails) => MoveKeeps(l, s, c, fails);
    case Invalidate(u) => InvalidateKeeps(l, s, u);
    case Begin(u) =>
      hide CallOk, AnswerOk, EntryOk;
      BeginOk(s, Apply(l, s, step), u);
      InvLater(l, s, Apply(l, s, step));
    case _ =>
      hide CallOk, AnswerOk, EntryOk;
      InvLater(l, s, Apply(l, s, step));
  }

  lemma BeginOk(s: State, t: State, u: User)
    requires Later(s, t) && FenceOf(t, u) == FenceOf(s, u) && (u in s.cache ==> EntryOk(s, u, s.cache[u], FenceOf(s, u)))
    ensures CallOk(t, CheckAge(u, Cached(s, u), FenceOf(s, u)))
  {
    if u in s.cache { LaterEntry(s, t, u, s.cache[u], FenceOf(s, u)); }
  }

  lemma InvalidateKeeps(l: Limits, s: State, u: User)
    requires Inv(l, s)
    ensures Inv(l, Apply(l, s, Invalidate(u)))
  {
    hide CallOk, AnswerOk, EntryOk;
    InvLater(l, s, Apply(l, s, Invalidate(u)));
  }

  lemma MoveKeeps(l: Limits, s: State, c: nat, fails: bool)
    requires Inv(l, s) && c < |s.calls|
    ensures Inv(l, Apply(l, s, Go(c, fails)))
  {
    var e := Move(l, s, s.calls[c], fails);
    MoveOk(l, s, s.calls[c], fails);
    hide CallOk, AnswerOk, EntryOk, Move;
    var mid := Moved(s, c, e);
    var t := mid.(past := mid.past + [(mid.now, mid.db)]);
    SamePast(l, s, mid, e);
    InvLater(l, s, mid);
    InvLater(l, mid, t);
  }

  /** What one move adds is right. */
  lemma MoveOk(l: Limits, s: State, call: Call, fails: bool)
    requires CallOk(s, call) && s.past != [] && s.past[|s.past| - 1] == (s.now, s.db)
    requires forall u :: u in s.fences ==> s.fences[u] <= |s.past|
    ensures var e := Move(l, s, call, fails);
            && CallOk(s, e.next)
            && (e.answer.Some? ==> AnswerOk(l, s, e.answer.value))
            && (forall u :: u in e.cache ==> (u in s.cache && e.cache[u] == s.cache[u]) || EntryOk(s, u, e.cache[u], FenceOf(s, u)))
  {
  }

  /** Being right does not depend on calls, answers or the cache. */
  lemma SamePast(l: Limits, s: State, t: State, e: Effect)
    requires t == s.(calls := t.calls, answers := t.answers, cache := t.cache)
    ensures CallOk(s, e.next) ==> CallOk(t, e.next)
    ensures e.answer.Some? && AnswerOk(l, s, e.answer.value) ==> forall c :: AnswerOk(l, t, e.answer.value.(call := c))
    ensures forall u, x: CacheEntry, f: nat :: EntryOk(s, u, x, f) ==> EntryOk(t, u, x, f)
  {
  }

  // ------------------------------------------------------------- over whole runs

  predicate Runs(l: Limits, s: State, steps: seq<Step>)
    decreases |steps|
  {
    steps == [] || (Enabled(s, steps[0]) && Runs(l, Apply(l, s, steps[0]), steps[1..]))
  }

  function Final(l: Limits, s: State, steps: seq<Step>): State
    requires Runs(l, s, steps)
    decreases |steps|
  {
    if steps == [] then s else Final(l, Apply(l, s, steps[0]), steps[1..])
  }

  lemma {:induction false} InvRuns(l: Limits, s: State, steps: seq<Step>)
    requires Inv(l, s) && Runs(l, s, steps)
    ensures Inv(l, Final(l, s, steps))
    decreases |steps|
  {
    hide Inv, Apply;
    if steps != [] {
      KeepsInv(l, s, steps[0]);
      InvRuns(l, Apply(l, s, steps[0]), steps[1..]);
    }
  }

  /** In every interleaving, every successful answer is a set MySQL held for that user, at most as long ago as the
      larger of the two limits plus the time its fetch took; and it was not read before the last invalidation that
      came before the call and met no finished, unwritten fetch of that user. */
  lemma AnswersAreFresh(l: Limits, now: int, db: Accounts, steps: seq<Step>, k: nat)
    requires Runs(l, Start(now, db), steps) && k < |Final(l, Start(now, db), steps).answers|
    ensures var s := Final(l, Start(now, db), steps);
            var a := s.answers[k];
            && 1 <= a.fetch.place <= |s.past|
            && Granted(s.past[a.fetch.place - 1].1, a.user, a.fetch.perms) && s.past[a.fetch.place - 1].0 == a.fetch.readAt
            && (a.at - a.fetch.readAt <= a.took || a.at - a.fetch.readAt < (if l.ttl > l.maxStale then l.ttl else l.maxStale) + a.took)
            && a.fence <= a.fetch.place
  {
    InvRuns(l, Start(now, db), steps);
    assert AnswerOk(l, Final(l, Start(now, db), steps), Final(l, Start(now, db), steps).answers[k]);
  }

  // ------------------------------------------------------------- after an invalidation

  function FenceOfCall(call: Call): nat { if call.Evict? || call.Over? then 0 else call.fence }

  predicate Answers(call: Call, u: User) { !call.Evict? && !call.Over? && call.user == u }

  /** Calls of this user from place n on, and their answers, carry at least this fence. */
  predicate FencedFrom(s: State, u: User, n: nat, fence: nat) {
    && FenceOf(s, u) >= fence
    && (forall c :: n <= c < |s.calls| && Answers(s.calls[c], u) ==> FenceOfCall(s.calls[c]) >= fence)
    && forall k :: 0 <= k < |s.answers| && s.answers[k].user == u && s.answers[k].call >= n ==> s.answers[k].fence >= fence
  }

  lemma KeepsFenced(l: Limits, s: State, step: Step, u: User, n: nat, fence: nat)
    requires Enabled(s, step) && FencedFrom(s, u, n, fence)
    requires forall v :: v in s.fences ==> s.fences[v] <= |s.past|
    ensures FencedFrom(Apply(l, s, step), u, n, fence)
  {
    if step.Go? { MoveFence(l, s, s.calls[step.c], step.fails); }
    hide Move;
  }

  lemma MoveFence(l: Limits, s: State, call: Call, fails: bool)
    ensures var e := Move(l, s, call, fails);
            && (!e.next.Evict? && !e.next.Over? ==> !call.Evict? && !call.Over? && e.next.user == call.user && e.next.fence == call.fence)
            && (e.answer.Some? ==> !call.Evict? && !call.Over? && e.answer.value.user == call.user && e.answer.value.fence == call.fence)
  {
  }

  lemma {:induction false} FencedRuns(l: Limits, s: State, steps: seq<Step>, u: User, n: nat, fence: nat)
    requires Inv(l, s) && FencedFrom(s, u, n, fence) && Runs(l, s, steps)
    ensures FencedFrom(Final(l, s, steps), u, n, fence)
    decreases |steps|
  {
    if steps != [] {
      KeepsInv(l, s, steps[0]);
      KeepsFenced(l, s, steps[0], u, n, fence);
      hide Inv, FencedFrom, Apply;
      FencedRuns(l, Apply(l, s, steps[0]), steps[1..], u, n, fence);
    }
  }

  /** Whatever happens before and after, if at an invalidation no call of that user stands between its permission query
      and its cache write, calls begun later never answer with data read before it. */
  lemma InvalidationIsFinal(l: Limits, now: int, db: Accounts, before: seq<Step>, u: User, after: seq<Step>, k: nat)
    requires Runs(l, Start(now, db), before) && !InFlight(Final(l, Start(now, db), before).calls, u)
    requires var s := Final(l, Start(now, db), before);
             Runs(l, Apply(l, s, Invalidate(u)), after) && k < |Final(l, Apply(l, s, Invalidate(u)), after).answers|
    ensures var s := Final(l, Start(now, db), before);
            var a := Final(l, Apply(l, s, Invalidate(u)), after).answers[k];
            a.user == u && a.call >= |s.calls| ==> a.fetch.place >= |s.past|
  {
    InvRuns(l, Start(now, db), before);
    var s := Final(l, Start(now, db), before);
    var t := Apply(l, s, Invalidate(u));
    AnswersOfCalls(l, s);
    KeepsInv(l, s, Invalidate(u));
    hide Inv, Final, Runs, InFlight;
    FenceRaised(l, s, u);
    FencedRuns(l, t, after, u, |s.calls|, |s.past|);
    InvRuns(l, t, after);
    FencedAnswer(l, Final(l, t, after), u, |s.calls|, |s.past|, k);
  }

  lemma AnswersOfCalls(l: Limits, s: State)
    requires Inv(l, s)
    ensures forall k :: 0 <= k < |s.answers| ==> s.answers[k].call < |s.calls|
  {
  }

  lemma FencedAnswer(l: Limits, s: State, u: User, n: nat, fence: nat, k: nat)
    requires Inv(l, s) && FencedFrom(s, u, n, fence) && k < |s.answers|
    ensures s.answers[k].user == u && s.answers[k].call >= n ==> s.answers[k].fetch.place >= fence
  {
    assert AnswerOk(l, s, s.answers[k]);
  }

  lemma FenceRaised(l: Limits, s: State, u: User)
    requires !InFlight(s.calls, u) && forall k :: 0 <= k < |s.answers| ==> s.answers[k].call < |s.calls|
    ensures FencedFrom(Apply(l, s, Invalidate(u)), u, |s.calls|, |s.past|)
  {
  }

  /** Every unwritten fetch was read before now. */
  predicate ReadEarlier(s: State) { forall c :: 0 <= c < |s.calls| && s.calls[c].Store? ==> s.calls[c].fetch.place < |s.past| }

  lemma KeepsReadEarlier(l: Limits, s: State, step: Step)
    requires Enabled(s, step) && ReadEarlier(s)
    ensures ReadEarlier(Apply(l, s, step))
  {
    if step.Go? { StoreIsNew(l, s, s.calls[step.c], step.fails); }
    hide Move;
  }

  lemma StoreIsNew(l: Limits, s: State, call: Call, fails: bool)
    ensures Move(l, s, call, fails).next.Store? ==> Move(l, s, call, fails).next.fetch.place == |s.past|
  {
  }

  lemma {:induction false} ReadEarlierRuns(l: Limits, s: State, steps: seq<Step>)
    requires ReadEarlier(s) && Runs(l, s, steps)
    ensures ReadEarlier(Final(l, s, steps))
    decreases |steps|
  {
    hide ReadEarlier, Apply, Enabled;
    if steps != [] {
      KeepsReadEarlier(l, s, steps[0]);
      ReadEarlierRuns(l, Apply(l, s, steps[0]), steps[1..]);
    }
  }

  /** And if one does, in any run, that call's write can undo the invalidation: the next call can be answered, within
      the time to live, with what was read before the invalidation. */
  lemma WriteUndoesInvalidation(l: Limits, now: int, db: Accounts, before: seq<Step>, c: nat, u: User)
    requires Runs(l, Start(now, db), before) && l.ttl > 0
    requires var s := Final(l, Start(now, db), before); c < |s.calls| && s.calls[c].Store? && s.calls[c].user == u
    ensures var s := Final(l, Start(now, db), before);
            var t := Apply(l, s, Invalidate(u));
            var after := [Go(c, false), Begin(u), Go(|s.calls|, false)];
            && Runs(l, t, after)
            && var answers := Final(l, t, after).answers;
            && |answers| == |s.answers| + 2
            && var late := answers[|s.answers| + 1];
            && late.user == u && late.call == |s.calls| && late.fetch == s.calls[c].fetch && late.fetch.place < |s.past|
  {
    ReadEarlierRuns(l, Start(now, db), before);
    hide Runs, Final, Apply;
    WriteThenRead(l, Final(l, Start(now, db), before), c, u);
  }

  lemma WriteThenRead(l: Limits, s: State, c: nat, u: User)
    requires c < |s.calls| && s.calls[c].Store? && s.calls[c].user == u && l.ttl > 0
    ensures var t := Apply(l, s, Invalidate(u));
            var after := [Go(c, false), Begin(u), Go(|s.calls|, false)];
            && Runs(l, t, after)
            && var answers := Final(l, t, after).answers;
            && |answers| == |s.answers| + 2
            && answers[|s.answers| + 1].user == u && answers[|s.answers| + 1].call == |s.calls|
            && answers[|s.answers| + 1].fetch == s.calls[c].fetch
  {
    var t := Apply(l, s, Invalidate(u));
    var after := [Go(c, false), Begin(u), Go(|s.calls|, false)];
    var t1 := Apply(l, t, after[0]);
    assert t1.cache[u] == CacheEntry(s.calls[c].fetch, s.now);
    var t2 := Apply(l, t1, after[1]);
    assert t2.calls[|s.calls|] == CheckAge(u, Some(t1.cache[u]), FenceOf(t1, u));
    var t3 := Apply(l, t2, after[2]);
    assert after[1..] == [after[1], after[2]] && after[1..][1..] == [after[2]];
    assert Runs(l, t2, [after[2]]) && Final(l, t2, [after[2]]) == t3;
    assert Runs(l, t1, after[1..]) && Final(l, t1, after[1..]) == t3;
  }

  // ------------------------------------------------------------- one call, uninterrupted

  datatype Resolution = Found(perms: set<string>) | Refused | Unreachable

  /** The shared cache as one call at a time uses it. A refusal (no such user, or disabled) is never papered over by
      the cache; a failure to reach MySQL is, up to the stale limit. */
  class RbacCache {
    var permCache: map<User, CacheEntry>

    constructor ()
      ensures permCache == map[]
    {
      permCache := map[];
    }

    method GetUserPermissions(l: Limits, u: User, answer: Resolution, began: int, readAt: int, ended: int) returns (r: Option<set<string>>)
      requires began <= readAt <= ended
      modifies this
      ensures var hit := u in old(permCache) && began - old(permCache)[u].fetchedAt < l.ttl;
              && (hit ==> r == Some(old(permCache)[u].fetch.perms) && permCache == old(permCache))
              && (!hit && answer.Found? ==>
                    r == Some(answer.perms) && permCache == old(permCache)[u := CacheEntry(Fetch(answer.perms, began, readAt, 0), ended)])
              && (!hit && answer.Refused? ==> r == None && permCache == old(permCache) - {u})
              && (!hit && answer.Unreachable? ==>
                    && permCache == old(permCache)
                    && r == if u in permCache && ended - permCache[u].fetchedAt < l.maxStale then Some(permCache[u].fetch.perms) else None)
      ensures (r, permCache) == Alone(l, old(permCache), u, answer, began, readAt, ended)
    {
      if u in permCache && began - permCache[u].fetchedAt < l.ttl {
        return Some(permCache[u].fetch.perms);
      }
      match answer {
        case Refused =>
          permCache := permCache - {u};
          r := None;
        case Unreachable =>
          if u in permCache && ended - permCache[u].fetchedAt < l.maxStale {
            r := Some(permCache[u].fetch.perms);
          } else {
            r := None;
          }
        case Found(perms) =>
          permCache := permCache[u := CacheEntry(Fetch(perms, began, readAt, 0), ended)];
          r := Some(perms);
      }
    }

    method InvalidateUserPermissions(u: User)
      modifies this
      ensures permCache == old(permCache) - {u}
    {
      permCache := permCache - {u};
    }
  }

  /** One call alone: its answer and the cache it leaves. */
  function Alone(l: Limits, cache: map<User, CacheEntry>, u: User, answer: Resolution, began: int, readAt: int, ended: int):
    (Option<set<string>>, map<User, CacheEntry>)
  {
    if u in cache && began - cache[u].fetchedAt < l.ttl then (Some(cache[u].fetch.perms), cache)
    else
      match answer
      case Found(perms) => (Some(perms), cache[u := CacheEntry(Fetch(perms, began, readAt, 0), ended)])
      case Refused => (None, cache - {u})
      case Unreachable =>
        (if u in cache && ended - cache[u].fetchedAt < l.maxStale then Some(cache[u].fetch.perms) else None, cache)
  }

  /** The cache without the places of its reads in the run, which only the steps record. */
  function Unplaced(cache: map<User, CacheEntry>): map<User, CacheEntry> {
    map u | u in cache :: cache[u].(fetch := cache[u].fetch.(place := 0))
  }

  /** MySQL answers so: a failure can come at either query. */
  predicate AnswersWith(db: Accounts, u: User, answer: Resolution) {
    match answer
    case Found(perms) => u in db && db[u].active && perms == db[u].perms
    case Refused => u !in db || !db[u].active
    case Unreachable => true
  }

  /** The steps of one call with nothing in between but time: until the permission query, and until the end. */
  function CallSteps(s: State, l: Limits, u: User, answer: Resolution, toRead: nat, toEnd: nat): seq<Step> {
    var n := |s.calls|;
    if u in s.cache && s.now - s.cache[u].fetchedAt < l.ttl then [Begin(u), Go(n, false)]
    else
      match answer
      case Found(_) => [Begin(u), Go(n, false), Go(n, false), Tick(toRead), Go(n, false), Tick(toEnd), Go(n, false)]
      case Refused => [Begin(u), Go(n, false), Go(n, false), Go(n, false)]
      case Unreachable => [Begin(u), Go(n, false), Go(n, true), Tick(toRead), Tick(toEnd), Go(n, false)]
  }

  lemma RunsCons(l: Limits, s: State, step: Step, rest: seq<Step>)
    requires Enabled(s, step) && Runs(l, Apply(l, s, step), rest)
    ensures Runs(l, s, [step] + rest) && Final(l, s, [step] + rest) == Final(l, Apply(l, s, step), rest)
  {
    hide Enabled, Apply;
    assert ([step] + rest)[1..] == rest;
  }

  lemma NoRun(l: Limits, s: State)
    ensures Runs(l, s, []) && Final(l, s, []) == s
  {
  }

  /** What the first step and the age check leave of the call. */
  lemma Begun(l: Limits, s: State, u: User) returns (s1: State, s2: State)
    ensures var n := |s.calls|;
            && s1 == Apply(l, s, Begin(u)) && Enabled(s1, Go(n, false)) && s2 == Apply(l, s1, Go(n, false)) && |s2.calls| == n + 1
            && s2.now == s.now && s2.db == s.db && s2.cache == s.cache
            && if u in s.cache && s.now - s.cache[u].fetchedAt < l.ttl then
                 s2.calls[n] == Over && |s2.answers| == |s.answers| + 1 && s2.answers[|s.answers|].fetch.perms == s.cache[u].fetch.perms
               else s2.calls[n] == QueryStatus(u, Cached(s, u), FenceOf(s, u), s.now) && s2.answers == s.answers
  {
    s1 := Apply(l, s, Begin(u));
    s2 := Apply(l, s1, Go(|s.calls|, false));
  }

  lemma FoundAlone(l: Limits, s: State, n: nat, u: User, entry: Option<CacheEntry>, fence: nat, began: int, toRead: nat, toEnd: nat)
    requires n < |s.calls| && s.calls[n] == QueryStatus(u, entry, fence, began) && u in s.db && s.db[u].active
    ensures var steps := [Go(n, false), Tick(toRead), Go(n, false), Tick(toEnd), Go(n, false)];
            && Runs(l, s, steps)
            && var t := Final(l, s, steps);
            && |t.answers| == |s.answers| + 1 && t.answers[|s.answers|].fetch.perms == PermsOf(s.db, u)
            && t.cache == s.cache[u := CacheEntry(Fetch(PermsOf(s.db, u), began, s.now + toRead, |s.past| + 2), s.now + toRead + toEnd)]
  {
    var s1 := Apply(l, s, Go(n, false));
    var s2 := Apply(l, s1, Tick(toRead));
    var s3 := Apply(l, s2, Go(n, false));
    var s4 := Apply(l, s3, Tick(toEnd));
    var s5 := Apply(l, s4, Go(n, false));
    assert |s2.past| == |s.past| + 2;
    assert s3.calls[n] == Store(u, Fetch(PermsOf(s.db, u), began, s.now + toRead, |s2.past|), fence);
    assert s5.cache == s.cache[u := CacheEntry(Fetch(PermsOf(s.db, u), began, s.now + toRead, |s2.past|), s.now + toRead + toEnd)];
    hide Apply, Runs, Final;
    NoRun(l, s5);
    RunsCons(l, s4, Go(n, false), []);
    RunsCons(l, s3, Tick(toEnd), [Go(n, false)]);
    RunsCons(l, s2, Go(n, false), [Tick(toEnd), Go(n, false)]);
    RunsCons(l, s1, Tick(toRead), [Go(n, false), Tick(toEnd), Go(n, false)]);
    RunsCons(l, s, Go(n, false), [Tick(toRead), Go(n, false), Tick(toEnd), Go(n, false)]);
  }

  lemma RefusedAlone(l: Limits, s: State, n: nat, u: User, entry: Option<CacheEntry>, fence: nat, began: int)
    requires n < |s.calls| && s.calls[n] == QueryStatus(u, entry, fence, began) && (u !in s.db || !s.db[u].active)
    ensures var steps := [Go(n, false), Go(n, false)];
            Runs(l, s, steps) && Final(l, s, steps).answers == s.answers && Final(l, s, steps).cache == s.cache - {u}
  {
    var s1 := Apply(l, s, Go(n, false));
    var s2 := Apply(l, s1, Go(n, false));
    NoRun(l, s2);
    RunsCons(l, s1, Go(n, false), []);
    RunsCons(l, s, Go(n, false), [Go(n, false)]);
  }

  lemma UnreachableAlone(l: Limits, s: State, n: nat, u: User, entry: Option<CacheEntry>, fence: nat, began: int, toRead: nat, toEnd: nat)
    requires n < |s.calls| && s.calls[n] == QueryStatus(u, entry, fence, began)
    ensures var steps := [Go(n, true), Tick(toRead), Tick(toEnd), Go(n, false)];
            && Runs(l, s, steps)
            && var t := Final(l, s, steps);
            && t.cache == s.cache
            && if entry.Some? && s.now + toRead + toEnd - entry.value.fetchedAt < l.maxStale then
                 |t.answers| == |s.answers| + 1 && t.answers[|s.answers|].fetch.perms == entry.value.fetch.perms
               else t.answers == s.answers
  {
    var s1 := Apply(l, s, Go(n, true));
    var s2 := Apply(l, s1, Tick(toRead));
    var s3 := Apply(l, s2, Tick(toEnd));
    var s4 := Apply(l, s3, Go(n, false));
    NoRun(l, s4);
    RunsCons(l, s3, Go(n, false), []);
    RunsCons(l, s2, Tick(toEnd), [Go(n, false)]);
    RunsCons(l, s1, Tick(toRead), [Tick(toEnd), Go(n, false)]);
    RunsCons(l, s, Go(n, true), [Tick(toRead), Tick(toEnd), Go(n, false)]);
  }

  predicate AnsweredSo(s: State, t: State, r: Option<set<string>>) {
    match r
    case Some(perms) => |t.answers| == |s.answers| + 1 && t.answers[|s.answers|].fetch.perms == perms
    case None => t.answers == s.answers
  }

  /** From any state, a call whose steps nothing interrupts answers as RbacCache.GetUserPermissions does, and leaves the
      cache it leaves. */
  lemma UninterruptedCall(l: Limits, s: State, u: User, answer: Resolution, toRead: nat, toEnd: nat)
    requires AnswersWith(s.db, u, answer)
    ensures var steps := CallSteps(s, l, u, answer, toRead, toEnd);
            && Runs(l, s, steps)
            && var (r, cache) := Alone(l, Unplaced(s.cache), u, answer, s.now, s.now + toRead, s.now + toRead + toEnd);
            AnsweredSo(s, Final(l, s, steps), r) && Unplaced(Final(l, s, steps).cache) == cache
  {
    var n := |s.calls|;
    var s1, s2 := Begun(l, s, u);
    var steps := CallSteps(s, l, u, answer, toRead, toEnd);
    hide Apply, Runs, Final;
    if u in s.cache && s.now - s.cache[u].fetchedAt < l.ttl {
      NoRun(l, s2);
    } else {
      match answer {
        case Found(_) => FoundAlone(l, s2, n, u, Cached(s, u), FenceOf(s, u), s.now, toRead, toEnd);
        case Refused => RefusedAlone(l, s2, n, u, Cached(s, u), FenceOf(s, u), s.now);
        case Unreachable => UnreachableAlone(l, s2, n, u, Cached(s, u), FenceOf(s, u), s.now, toRead, toEnd);
      }
    }
    assert steps == [Begin(u)] + ([Go(n, false)] + steps[2..]);
    RunsCons(l, s1, Go(n, false), steps[2..]);
    RunsCons(l, s, Begin(u), [Go(n, false)] + steps[2..]);
  }
}
