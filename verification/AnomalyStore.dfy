/** The bounded store of recent anomalies (internal/services/anomaly_consumer.go:20-67). */
module AnomalyStore {

  /** `ruleId` is "" when absent or not text; `body` stands for every other field. */
  datatype Anomaly = Anomaly(ruleId: string, body: int)

  predicate Matches(e: Anomaly, rule: string) { rule == "" || e.ruleId == rule }

  /** The events of a rule, in arrival order. */
  function OfRule(events: seq<Anomaly>, rule: string): seq<Anomaly> {
    if events == [] then []
    else OfRule(events[..|events| - 1], rule) + (if Matches(events[|events| - 1], rule) then [events[|events| - 1]] else [])
  }

  function LastOf<T>(s: seq<T>, n: int): seq<T> { if n <= 0 then [] else if n >= |s| then s else s[|s| - n..] }

  function Reversed<T>(s: seq<T>): (r: seq<T>)
    ensures |r| == |s| && forall i :: 0 <= i < |s| ==> r[i] == s[|s| - 1 - i]
  {
    seq(|s|, i requires 0 <= i < |s| => s[|s| - 1 - i])
  }

  lemma NoneOfRule(rule: string)
    ensures OfRule([], rule) == []
  {
  }

  lemma OfRuleSnoc(events: seq<Anomaly>, i: nat, rule: string)
    requires i < |events|
    ensures OfRule(events[..i + 1], rule) == OfRule(events[..i], rule) + (if Matches(events[i], rule) then [events[i]] else [])
  {
    assert events[..i + 1][..i] == events[..i];
  }

  /** A suffix that has reached n, or has nothing before it, is the last n. */
  lemma SuffixIsLast<T>(front: seq<T>, back: seq<T>, n: int)
    requires |back| <= (if n < 0 then 0 else n) && (front == [] || |back| >= n)
    ensures LastOf(front + back, n) == back
  {
  }

  class AnomalyStore {
    var events: seq<Anomaly>
    const maxLen: nat
    /** Every event ever added. */
    ghost var history: seq<Anomaly>

    ghost predicate Valid()
      reads this
    {
      events == LastOf(history, maxLen)
    }

    constructor (maxLen: nat)
      ensures Valid() && history == [] && this.maxLen == maxLen
    {
      this.maxLen := maxLen;
      events, history := [], [];
    }

    method Add(event: Anomaly)
      requires Valid()
      modifies this
      ensures Valid() && history == old(history) + [event]
    {
      events := events + [event];
      if |events| > maxLen {
        events := events[|events| - maxLen..];
      }
      history := history + [event];
    }

    /** The last n events of a rule among the last maxLen ever added, in arrival order. */
    method GetRecent(rule: string, n: int) returns (recent: array<Anomaly>)
      requires Valid()
      ensures fresh(recent) && recent[..] == LastOf(OfRule(LastOf(history, maxLen), rule), n)
    {
      hide OfRule, LastOf;
      NoneOfRule(rule);
      var result: seq<Anomaly> := [];
      var i := |events|;
      assert events[..i] == events && Reversed(result) == [];
      while i > 0 && |result| < n
        invariant 0 <= i <= |events| && |result| <= (if n < 0 then 0 else n)
        invariant OfRule(events[..i], rule) + Reversed(result) == OfRule(events, rule)
      {
        i := i - 1;
        var evt := events[i];
        OfRuleSnoc(events, i, rule);
        if rule != "" && evt.ruleId != rule { continue; }
        assert Reversed(result + [evt]) == [evt] + Reversed(result);
        result := result + [evt];
      }
      assert events[..0] == [];
      SuffixIsLast(OfRule(events[..i], rule), Reversed(result), n);
      recent := new Anomaly[|result|](k requires 0 <= k < |result| => result[k]);
      ReverseInPlace(recent);
    }

    method ReverseInPlace(a: array<Anomaly>)
      modifies a
      ensures a[..] == Reversed(old(a[..]))
    {
      var i, j := 0, a.Length - 1;
      while i < j
        invariant 0 <= i <= a.Length && j == a.Length - 1 - i
        invariant forall k :: 0 <= k < i || j < k < a.Length ==> a[k] == old(a[a.Length - 1 - k])
        invariant forall k :: i <= k <= j ==> a[k] == old(a[k])
      {
        a[i], a[j] := a[j], a[i];
        i, j := i + 1, j - 1;
      }
    }

    /** After any sequence of adds, a read is the read of the full history. */
    method AddAll(added: seq<Anomaly>)
      requires Valid()
      modifies this
      ensures Valid() && history == old(history) + added
    {
      for i := 0 to |added|
        invariant Valid() && history == old(history) + added[..i]
      {
        Add(added[i]);
      }
    }
  }
}
