/** The admin panel's user update and its last-admin guard (internal/services/admin.go). */
module AdminGuard {
  import opened Prelude
  import Cache = PermissionCache

  type User = Cache.User

  /** A users row with the name of its one role, "" without one. */
  datatype Account = Account(status: string, role: string)

  type Users = map<User, Account>

  datatype Call = Call(actor: User, target: User, role: string, status: string)

  datatype Outcome = Updated | NotFound | OwnAccount | LastAdmin | Failed

  function ActiveSuperAdmins(users: Users): set<User> { set u | u in users && users[u] == Account("ACTIVE", "SUPER_ADMIN") }

  /** What the checks let through, given what the tables accept: a known role, a status of the enumeration. */
  predicate Allowed(users: Users, roles: set<string>, c: Call) {
    && c.target in users && c.target != c.actor
    && !(users[c.target] == Account("ACTIVE", "SUPER_ADMIN") && |ActiveSuperAdmins(users)| <= 1 && (c.role != "SUPER_ADMIN" || c.status != "ACTIVE"))
    && (c.role != users[c.target].role ==> c.role in roles)
    && (c.status != users[c.target].status ==> c.status in ["ACTIVE", "DISABLED"])
  }

  function Patched(users: Users, c: Call): Users { users[c.target := Account(c.status, c.role)] }

  class AdminPanel {
    var users: Users
    const roles: set<string>
    const cache: Cache.RbacCache

    constructor (users: Users, roles: set<string>, cache: Cache.RbacCache)
      ensures this.users == users && this.roles == roles && this.cache == cache
    {
      this.users, this.roles, this.cache := users, roles, cache;
    }

    /** Every call is answered by the first check that stops it, given what MySQL answers. An update that is committed patches
        the target and evicts it from the cache; otherwise nothing changes. */
    method UpdateUser(c: Call, mysql: Statement -> bool) returns (o: Outcome)
      modifies this, cache
      ensures o == if !mysql(Lookup) then Failed
                   else if c.target !in old(users) then NotFound
                   else if c.target == c.actor then OwnAccount
                   else if !mysql(CountAdmins) then Failed
                   else if ActiveSuperAdmins(old(users)) == {c.target} && Demotes(c) then LastAdmin
                   else if Committed(mysql, old(users), roles, c) then Updated else Failed
      ensures o == Updated ==> Allowed(old(users), roles, c) && users == Patched(old(users), c) && cache.permCache == old(cache.permCache) - {c.target}
      ensures o != Updated ==> users == old(users) && cache.permCache == old(cache.permCache)
      ensures ActiveSuperAdmins(old(users)) != {} ==> ActiveSuperAdmins(users) != {}
      ensures c.actor in old(users) ==> c.actor in users && users[c.actor] == old(users)[c.actor]
    {
      if !mysql(Lookup) { return Failed; }
      if c.target !in users { return NotFound; }
      var target := users[c.target];
      if c.target == c.actor { return OwnAccount; }
      if !mysql(CountAdmins) { return Failed; }
      var active := |ActiveSuperAdmins(users)|;
      if target.role == "SUPER_ADMIN" && target.status == "ACTIVE" && active <= 1 && (c.role != "SUPER_ADMIN" || c.status != "ACTIVE") {
        OnlyOne(ActiveSuperAdmins(users), c.target);
        return LastAdmin;
      }
      if !mysql(BeginTx) { return Failed; }
      var tx := users;
      if c.role != target.role {
        if c.role !in roles { return Failed; }
        if !mysql(AssignRole) { return Failed; }
        tx := tx[c.target := tx[c.target].(role := c.role)];
      }
      if c.status != target.status {
        if c.status !in ["ACTIVE", "DISABLED"] { return Failed; }
        if !mysql(SetStatus) { return Failed; }
        tx := tx[c.target := tx[c.target].(status := c.status)];
      }
      if !mysql(Commit) { return Failed; }
      if ActiveSuperAdmins(users) != {} { AdminRemains(users, roles, c); }
      users := tx;
      cache.InvalidateUserPermissions(c.target);
      o := Updated;
    }
  }

  datatype Statement = Lookup | CountAdmins | BeginTx | AssignRole | SetStatus | Commit

  /** The transaction of an update commits: what it changes is accepted, a known role and a status of the enumeration. */
  predicate Committed(mysql: Statement -> bool, users: Users, roles: set<string>, c: Call)
    requires c.target in users
  {
    && mysql(BeginTx)
    && (c.role != users[c.target].role ==> c.role in roles && mysql(AssignRole))
    && (c.status != users[c.target].status ==> c.status in ["ACTIVE", "DISABLED"] && mysql(SetStatus))
    && mysql(Commit)
  }

  lemma OnlyOne(s: set<User>, x: User)
    requires x in s && |s| <= 1
    ensures s == {x}
  {
    assert |s - {x}| == |s| - 1;
    assert s == (s - {x}) + {x};
  }

  /** An update that passes the checks leaves an active super admin if there was one. */
  lemma AdminRemains(users: Users, roles: set<string>, c: Call)
    requires Allowed(users, roles, c) && ActiveSuperAdmins(users) != {}
    ensures ActiveSuperAdmins(Patched(users, c)) != {}
  {
    var before := ActiveSuperAdmins(users);
    var after := ActiveSuperAdmins(Patched(users, c));
    assert before - {c.target} <= after;
    if c.target in before && (c.role != "SUPER_ADMIN" || c.status != "ACTIVE") {
      assert |before - {c.target}| == |before| - 1;
    } else if c.target in before {
      assert c.target in after;
    } else {
      assert before - {c.target} == before;
    }
  }

  /** One call at a time: each state is the one before, or the update of it that its call was allowed. */
  predicate Sequential(states: seq<Users>, roles: set<string>, calls: seq<Call>) {
    |states| == |calls| + 1 &&
    forall i :: 0 <= i < |calls| ==>
      states[i + 1] == states[i] || (Allowed(states[i], roles, calls[i]) && states[i + 1] == Patched(states[i], calls[i]))
  }

  /** Over any sequence of calls an active super admin remains, and nobody's own row changes by their own call. */
  lemma {:induction false} AdminSurvives(states: seq<Users>, roles: set<string>, calls: seq<Call>)
    requires Sequential(states, roles, calls) && ActiveSuperAdmins(states[0]) != {}
    ensures forall i :: 0 <= i <= |calls| ==> ActiveSuperAdmins(states[i]) != {}
    ensures forall i :: 0 <= i < |calls| && calls[i].actor in states[i] ==>
      calls[i].actor in states[i + 1] && states[i + 1][calls[i].actor] == states[i][calls[i].actor]
  {
    hide ActiveSuperAdmins;
    if calls != [] {
      var n := |calls| - 1;
      AdminSurvives(states[..n + 1], roles, calls[..n]);
      assert ActiveSuperAdmins(states[..n + 1][n]) != {};
      if states[n + 1] != states[n] { AdminRemains(states[n], roles, calls[n]); }
    }
  }

  predicate Demotes(c: Call) { c.role != "SUPER_ADMIN" || c.status != "ACTIVE" }

  /** The count is read before the transaction, so two calls can both be checked on the same users before either
      commits. With some active super admin there, they leave none exactly when they take the only two, one each. */
  lemma TwoChecksTogether(users: Users, roles: set<string>, a: Call, b: Call)
    requires Allowed(users, roles, a) && Allowed(users, roles, b) && ActiveSuperAdmins(users) != {}
    ensures ActiveSuperAdmins(Patched(Patched(users, a), b)) == {} <==>
            a.target != b.target && ActiveSuperAdmins(users) == {a.target, b.target} && Demotes(a) && Demotes(b)
  {
    var before, after := ActiveSuperAdmins(users), ActiveSuperAdmins(Patched(Patched(users, a), b));
    assert forall u :: u in after <==>
      if u == b.target then !Demotes(b) else if u == a.target then !Demotes(a) else u in before;
    if after == {} {
      assert a.target !in after && b.target !in after;
      assert before - {a.target, b.target} <= after;
      if a.target == b.target {
        OnlyTarget(before, b.target);
      } else {
        if a.target !in before { OnlyTarget(before, b.target); }
        if b.target !in before { OnlyTarget(before, a.target); }
      }
    }
  }

  /** The last active super admin is refused. */
  lemma OnlyTarget(s: set<User>, x: User)
    requires s <= {x}
    ensures |s| <= 1
  {
    if s != {} { assert s == {x}; }
  }
}
