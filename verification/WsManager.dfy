/** The connection manager as objects: each method does to its entries what the fan-out's steps do, run without
    interruption (internal/services/wsmanager.go). */
module WsManager {
  import opened FanoutEntry
  import opened Fanout

  class WsEntry {
    const conn: Conn
    var ruleIDs: set<string>
    var outbox: seq<Msg>
    var closed: bool
    ghost var log: seq<Offer>
    ghost var pump: Pump
    ghost var written: seq<Msg>

    ghost function Value(): Entry
      reads this
    {
      Entry(conn, ruleIDs, outbox, closed, pump, written, log)
    }

    constructor (conn: Conn, ruleIDs: set<string>)
      ensures Value() == NewEntry(conn, ruleIDs)
    {
      this.conn, this.ruleIDs := conn, ruleIDs;
      outbox, closed, log, pump, written := [], false, [], Idle, [];
    }

    /** Never blocks. With room in a closed entry's outbox the select may take either branch. */
    method Enqueue(m: Msg) returns (ok: bool)
      modifies this`outbox, this`log
      ensures MayOffer(old(Value()), ok) && Value() == Offered(old(Value()), m, ok)
    {
      if |outbox| >= OUTBOX_SIZE {
        ok := false;
      } else if closed {
        ok := *;
      } else {
        ok := true;
      }
      if ok { outbox := outbox + [m]; }
      log := log + [Offer(m, ok)];
    }

    method Stop()
      modifies this`closed
      ensures Value() == old(Value()).(closed := true)
    {
      closed := true;
    }
  }

  class WSManager {
    var conns: map<Conn, WsEntry>

    ghost predicate Valid()
      reads this, conns.Values
    {
      forall c :: c in conns ==> conns[c].conn == c
    }

    constructor ()
      ensures Valid() && conns == map[]
    {
      conns := map[];
    }

    /** A second subscribe of a connection only changes its rules; a first one makes a new entry. */
    method Connect(conn: Conn, ids: seq<string>)
      requires Valid()
      modifies this, conns.Values
      ensures Valid()
      ensures conn in old(conns) ==> conns == old(conns) && conns[conn].Value() == old(conns[conn].Value()).(subs := IdSet(ids))
      ensures conn !in old(conns) ==>
        conn in conns && fresh(conns[conn]) && conns == old(conns)[conn := conns[conn]] && conns[conn].Value() == NewEntry(conn, IdSet(ids))
      ensures forall c :: c in old(conns) && c != conn ==> old(conns)[c].Value() == old(conns[c].Value())
    {
      var idSet: set<string> := {};
      for i := 0 to |ids|
        invariant idSet == IdSet(ids[..i])
      {
        assert ids[..i + 1] == ids[..i] + [ids[i]];
        idSet := idSet + {ids[i]};
      }
      assert ids[..|ids|] == ids;
      if conn in conns {
        conns[conn].ruleIDs := idSet;
      } else {
        var entry := new WsEntry(conn, idSet);
        conns := conns[conn := entry];
      }
    }

    /** Safe to call again: only a registered entry is stopped. */
    method Disconnect(conn: Conn)
      requires Valid()
      modifies this, conns.Values
      ensures Valid() && conns == old(conns) - {conn}
      ensures conn in old(conns) ==> old(conns)[conn].Value() == old(conns[conn].Value()).(closed := true)
      ensures forall c :: c in conns ==> conns[c].Value() == old(conns[c].Value())
    {
      if conn in conns {
        var entry := conns[conn];
        conns := conns - {conn};
        entry.Stop();
      }
    }

    /** An unknown connection is no error and changes nothing. */
    method WriteToConn(conn: Conn, m: Msg) returns (ok: bool)
      requires Valid()
      modifies conns.Values
      ensures Valid()
      ensures conn !in conns ==> ok
      ensures conn in conns ==> MayOffer(old(conns[conn].Value()), ok) && conns[conn].Value() == Offered(old(conns[conn].Value()), m, ok)
      ensures forall c :: c in conns && c != conn ==> conns[c].Value() == old(conns[c].Value())
    {
      if conn !in conns { return true; }
      ok := conns[conn].Enqueue(m);
    }

    method Subscribers(rule: string) returns (targets: set<Conn>)
      ensures targets <= conns.Keys && forall c :: c in conns ==> (c in targets <==> rule in conns[c].ruleIDs)
    {
      targets := {};
      var pending := conns.Keys;
      while pending != {}
        invariant pending <= conns.Keys && targets <= conns.Keys
        invariant forall c :: c in conns ==> (c in targets <==> c !in pending && rule in conns[c].ruleIDs)
        decreases |pending|
      {
        var c :| c in pending;
        if rule in conns[c].ruleIDs { targets := targets + {c}; }
        pending := pending - {c};
      }
    }

    /** Every entry subscribed to the rule is offered the message exactly once; no other entry changes. `dropped`
        counts the rejections. */
    method Broadcast(rule: string, m: Msg) returns (dropped: nat, ghost lost: set<Conn>)
      requires Valid()
      modifies conns.Values
      ensures Valid() && lost <= conns.Keys && dropped == |lost|
      ensures forall c :: c in conns && rule !in old(conns[c].ruleIDs) ==> conns[c].Value() == old(conns[c].Value())
      ensures forall c :: c in conns && rule in old(conns[c].ruleIDs) ==>
        MayOffer(old(conns[c].Value()), c !in lost) && conns[c].Value() == Offered(old(conns[c].Value()), m, c !in lost)
    {
      hide MayOffer, Offered, WsEntry.Value;
      var targets := Subscribers(rule);
      dropped, lost := OfferAll(targets, m);
    }

    method OfferAll(targets: set<Conn>, m: Msg) returns (dropped: nat, ghost lost: set<Conn>)
      requires Valid() && targets <= conns.Keys
      modifies conns.Values
      ensures Valid() && lost <= targets && dropped == |lost|
      ensures forall c :: c in conns && c !in targets ==> conns[c].Value() == old(conns[c].Value())
      ensures forall c :: c in targets ==>
        MayOffer(old(conns[c].Value()), c !in lost) && conns[c].Value() == Offered(old(conns[c].Value()), m, c !in lost)
    {
      hide MayOffer, Offered, WsEntry.Value;
      dropped, lost := 0, {};
      var left := targets;
      while left != {}
        invariant left <= targets && lost <= targets - left && dropped == |lost|
        invariant forall c :: c in conns && (c !in targets || c in left) ==> conns[c].Value() == old(conns[c].Value())
        invariant forall c :: c in targets && c !in left ==>
          MayOffer(old(conns[c].Value()), c !in lost) && conns[c].Value() == Offered(old(conns[c].Value()), m, c !in lost)
        decreases |left|
      {
        var c :| c in left;
        var ok := conns[c].Enqueue(m);
        if !ok {
          dropped := dropped + 1;
          lost := lost + {c};
        }
        left := left - {c};
      }
    }
  }
}
