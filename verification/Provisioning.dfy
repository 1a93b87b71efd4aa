/** Resolving a subject to a user, creating one on first sight (internal/services/rbac.go:252-341). */
module Provisioning {
  import opened Prelude
  import opened JitLimiter

  datatype Person = Person(id: nat, email: string, status: string, role: string)

  const PLACEHOLDER := "@jit.invalid"

  function EmailOf(sub: string): string { if '@' in sub then sub else sub + PLACEHOLDER }

  /** Two subjects get one e-mail address exactly when one is the other's placeholder address. */
  lemma WhenEmailsCollide(a: string, b: string)
    requires a != b
    ensures EmailOf(a) == EmailOf(b) <==> ('@' !in a && b == a + PLACEHOLDER) || ('@' !in b && a == b + PLACEHOLDER)
  {
    assert '@' in PLACEHOLDER by { assert PLACEHOLDER[0] == '@'; }
    if '@' !in a && '@' !in b && a + PLACEHOLDER == b + PLACEHOLDER {
      SameFront(a, b);
    }
  }

  lemma SameFront(a: string, b: string)
    requires a + PLACEHOLDER == b + PLACEHOLDER
    ensures a == b
  {
    assert |a| == |b|;
    assert a == (a + PLACEHOLDER)[..|a|] && b == (b + PLACEHOLDER)[..|b|];
  }

  predicate EmailTaken(users: map<string, Person>, email: string) { exists s :: s in users && users[s].email == email }

  /** The unique keys, and a role for everybody: no user is ever seen half provisioned. */
  predicate Consistent(users: map<string, Person>) {
    && (forall s, t :: s in users && t in users && s != t ==> users[s].id != users[t].id && users[s].email != users[t].email)
    && forall s :: s in users ==> users[s].role != ""
  }

  class Directory {
    /** users by external_subject, each with its role. */
    var users: map<string, Person>
    var nextId: nat
    const limiter: Limiter

    ghost predicate Valid()
      reads this
    {
      Consistent(users) && forall s :: s in users ==> users[s].id < nextId
    }

    constructor (limiter: Limiter)
      ensures Valid() && users == map[] && this.limiter == limiter
    {
      users, nextId, this.limiter := map[], 0, limiter;
    }

    /** A known subject is answered as it is and never counted. An unknown one is counted, and becomes an active analyst
        exactly when the limiter admits it, its placeholder address is free and MySQL accepts the transaction. */
    method GetOrProvision(sub: string, ip: string, now: int, mysql: Statement -> bool) returns (r: Option<(nat, string)>)
      requires Valid()
      modifies this, limiter
      ensures Valid()
      ensures !mysql(Lookup) ==> r == None && users == old(users) && limiter.Value() == old(limiter.Value())
      ensures mysql(Lookup) && sub in old(users) ==>
                r == Some((old(users)[sub].id, old(users)[sub].status)) && users == old(users) && limiter.Value() == old(limiter.Value())
      ensures mysql(Lookup) && sub !in old(users) ==>
                && limiter.Value() == Counted(old(limiter.Value()), ip, now, limiter.span)
                && r == (if Count(limiter.Value().counts, ip) <= limiter.limit && Provisions(mysql) && !EmailTaken(old(users), EmailOf(sub))
                         then Some((old(nextId), "ACTIVE")) else None)
                && users == if r.Some? then old(users)[sub := Person(old(nextId), EmailOf(sub), "ACTIVE", "READ_ONLY_ANALYST")] else old(users)
    {
      r := None;
      if !mysql(Lookup) { return; }
      if sub in users {
        return Some((users[sub].id, users[sub].status));
      }
      var limited := limiter.Limited(ip, now);
      if limited { return; }
      if !mysql(BeginTx) || !mysql(InsertUser) { return; }
      var id := nextId;
      nextId := nextId + 1;
      if exists s :: s in users && users[s].email == EmailOf(sub) { return; }
      if !mysql(DefaultRole) || !mysql(AssignRole) || !mysql(Commit) { return; }
      users := users[sub := Person(id, EmailOf(sub), "ACTIVE", "READ_ONLY_ANALYST")];
      r := Some((id, "ACTIVE"));
    }
  }

  datatype Statement = Lookup | BeginTx | InsertUser | DefaultRole | AssignRole | Commit

  /** Every statement of the provisioning transaction is accepted. */
  predicate Provisions(mysql: Statement -> bool) {
    mysql(BeginTx) && mysql(InsertUser) && mysql(DefaultRole) && mysql(AssignRole) && mysql(Commit)
  }
}
