/** The manager of WebSocket connections and its sweep of stale ones, with nobody else running. */
module ConnectionManagers {
  import opened Numbers

  type Id = string

  datatype Life = Active | Closing | Closed

  /** Ten minutes, in nanoseconds. */
  const STALE_AFTER := 600_000_000_000

  class WsConnection {
    const id: Id
    const lastPing: int
    var life: Life
    var closeRan: bool
    var notified: nat
    var channelCloses: nat

    constructor (id: Id, now: int)
      ensures this.id == id && lastPing == now && life == Active && !closeRan
      ensures notified == channelCloses == 0
    {
      this.id := id;
      lastPing := now;
      life, closeRan := Active, false;
      notified, channelCloses := 0, 0;
    }

    /** The body runs at most once; it ends by leaving the manager. */
    method Close(cm: ConnectionManager)
      requires cm.Valid()
      modifies this, cm
      ensures cm.Valid() && closeRan
      ensures old(closeRan) ==> unchanged(this) && unchanged(cm)
      ensures !old(closeRan) ==>
                && life == Closed
                && notified == old(notified) + 1 && channelCloses == old(channelCloses) + 1
                && cm.connections == old(cm.connections) - {id}
    {
      if !closeRan {
        closeRan := true;
        life := Closing;
        notified := notified + 1;
        channelCloses := channelCloses + 1;
        life := Closed;
        cm.Remove(this);
      }
    }
  }

  class ConnectionManager {
    const maxConns: int
    var connections: map<Id, WsConnection>
    var activeConns: int

    ghost predicate Valid()
      reads this
    {
      && activeConns == |connections|
      && forall id | id in connections :: connections[id].id == id
    }

    constructor (maxConns: int)
      ensures Valid() && connections == map[] && this.maxConns == maxConns
    {
      this.maxConns := maxConns;
      connections := map[];
      activeConns := 0;
    }

    /** Counts a connection as new even if another is stored under its id already: then, and only
        then, the counter is no longer the number of connections. */
    method Add(conn: WsConnection) returns (added: bool)
      requires Valid()
      modifies this
      ensures added == (old(|connections|) < maxConns)
      ensures connections == if added then old(connections)[conn.id := conn] else old(connections)
      ensures activeConns == old(activeConns) + Bit(added)
      ensures Valid() <==> !added || conn.id !in old(connections)
      ensures old(|connections|) <= maxConns ==> |connections| <= maxConns
    {
      var currentConns := activeConns;
      if currentConns >= maxConns {
        return false;
      }
      connections := connections[conn.id := conn];
      activeConns := activeConns + 1;
      added := true;
    }

    method Remove(conn: WsConnection)
      requires Valid()
      modifies this
      ensures Valid() && connections == old(connections) - {conn.id}
      ensures activeConns == if conn.id in old(connections) then old(activeConns) - 1 else old(activeConns)
    {
      if conn.id in connections {
        connections := connections - {conn.id};
        activeConns := activeConns - 1;
      }
    }

    predicate Stale(conn: WsConnection, now: int) {
      now - conn.lastPing > STALE_AFTER
    }

    ghost function StaleIds(table: map<Id, WsConnection>, now: int): set<Id> {
      set id | id in table && Stale(table[id], now)
    }

    /** Closes a connection and removes it, which its close may have done already: it is
        taken out of the table, and off the counter, once. */
    method Evict(conn: WsConnection)
      requires Valid() && conn.id in connections && connections[conn.id] == conn
      modifies this, conn
      ensures Valid() && connections == old(connections) - {conn.id}
      ensures activeConns == old(activeConns) - 1
      ensures conn.closeRan && conn.notified == old(conn.notified) + Bit(!old(conn.closeRan))
    {
      conn.Close(this);
      Remove(conn);
      assert |old(connections) - {conn.id}| == old(|connections|) - 1 by {
        CardinalityAfterRemoval(old(connections), conn.id);
      }
    }

    /** In the middle of a sweep: `gone` of the connections there were `before` have been evicted. */
    ghost predicate Sweeping(before: map<Id, WsConnection>, gone: set<Id>)
      reads this, set id | id in before :: before[id]
    {
      && Valid()
      && gone <= before.Keys
      && (forall id | id in before :: before[id].id == id)
      && (forall id | id in before :: id in connections <==> id !in gone)
      && (forall id | id in connections :: id in before && connections[id] == before[id])
      && (forall id | id in gone :: before[id].closeRan)
    }

    method EvictOne(id: Id, ghost before: map<Id, WsConnection>, ghost gone: set<Id>)
      requires Sweeping(before, gone) && id in connections
      modifies this, before[id]
      ensures Sweeping(before, gone + {id})
    {
      Evict(connections[id]);
    }

    lemma SweptTable(before: map<Id, WsConnection>, gone: set<Id>)
      requires Sweeping(before, gone)
      ensures connections == before - gone
      ensures activeConns == |before| - |gone|
    {
      assert connections.Keys == before.Keys - gone;
      assert |before.Keys - gone| == |before.Keys| - |gone|;
    }

    /** Evicts a connection if it is stale. */
    method SweepOne(id: Id, now: int, ghost before: map<Id, WsConnection>, ghost gone: set<Id>) returns (stale: bool)
      requires Sweeping(before, gone) && id in connections
      modifies this, if Stale(before[id], now) then {before[id]} else {}
      ensures stale == Stale(before[id], now)
      ensures Sweeping(before, if stale then gone + {id} else gone)
    {
      stale := Stale(connections[id], now);
      if stale {
        EvictOne(id, before, gone);
      }
    }

    /** Closes and removes exactly the stale connections, touches no other, and lowers the counter
        by the number it returns. */
    method CleanupStaleConnections(now: int) returns (staleCount: nat)
      requires Valid()
      modifies this, set id | id in StaleIds(connections, now) :: connections[id]
      ensures Valid()
      ensures connections == old(connections) - StaleIds(old(connections), now)
      ensures staleCount == |StaleIds(old(connections), now)|
      ensures activeConns == old(activeConns) - staleCount
      ensures forall id | id in StaleIds(old(connections), now) :: old(connections)[id].closeRan
      ensures forall id | id in old(connections) ::
                id in connections <==> now - old(connections)[id].lastPing <= 600_000_000_000
    {
      staleCount := 0;
      var todo := connections.Keys;
      ghost var before := connections;
      ghost var gone: set<Id> := {};
      while todo != {}
        invariant todo <= before.Keys && todo !! gone
        invariant forall id :: id in gone <==> id in before && id !in todo && Stale(before[id], now)
        invariant Sweeping(before, gone)
        invariant staleCount == |gone|
        decreases todo
      {
        var id :| id in todo;
        todo := todo - {id};
        var stale := SweepOne(id, now, before, gone);
        if stale {
          staleCount := staleCount + 1;
          gone := gone + {id};
        }
      }
      assert gone == StaleIds(before, now);
      SweptTable(before, gone);
    }
  }

  lemma CardinalityAfterRemoval<K, V>(m: map<K, V>, k: K)
    requires k in m
    ensures |m - {k}| == |m| - 1
  {
    assert (m - {k}).Keys == m.Keys - {k};
  }
}
