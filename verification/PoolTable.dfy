/** The connection table of internal/ssh/pool.go and the critical sections that change it.

    A client stands for its pool entry too: each entry is made for one client and keeps it. */
module PoolTable {

  /** A connection key starts with the canonical host, which names the rate limiter's bucket. */
  datatype Key = Key(host: string, identity: string)

  /** `key` is the key the entry was made for. */
  datatype Entry = Entry(key: Key, active: int, lastUsed: int)

  datatype Table = Table(
    connections: map<Key, nat>,
    entries: map<nat, Entry>,
    closed: bool,
    shut: set<nat>)                  // clients that were closed

  function WithEntry(t: Table, c: nat, e: Entry): Table {
    t.(entries := t.entries[c := e])
  }

  /** A caller joins the entry of a client. */
  function Join(t: Table, c: nat): Table
    requires c in t.entries
  {
    WithEntry(t, c, t.entries[c].(active := t.entries[c].active + 1))
  }

  function Touch(t: Table, c: nat, now: int): Table
    requires c in t.entries
  {
    WithEntry(t, c, t.entries[c].(lastUsed := now))
  }

  /** A caller leaves the entry of a client. */
  function Leave(t: Table, c: nat): Table
    requires c in t.entries
  {
    WithEntry(t, c, t.entries[c].(active := t.entries[c].active - 1))
  }

  /** A connection that failed its probe is dropped. */
  function Drop(t: Table, key: Key, c: nat): Table
    requires c in t.entries
  {
    Leave(t, c).(connections := t.connections - {key}, shut := t.shut + {c})
  }

  /** A new connection enters the table, or is closed when the pool is. */
  function Insert(t: Table, key: Key, c: nat, now: int): Table {
    if t.closed then t.(shut := t.shut + {c})
    else WithEntry(t, c, Entry(key, 1, now)).(connections := t.connections[key := c])
  }

  predicate WellFormed(t: Table) {
    forall k :: k in t.connections ==> t.connections[k] in t.entries && t.entries[t.connections[k]].key == k
  }

  /** Remove: a connection other callers still use is left alone. */
  function Remove(t: Table, key: Key): Table
    requires WellFormed(t)
  {
    if key in t.connections && t.entries[t.connections[key]].active <= 1 then
      t.(connections := t.connections - {key}, shut := t.shut + {t.connections[key]})
    else t
  }

  /** The entry of `key` has no caller and was not used for longer than the timeout. */
  predicate Idle(t: Table, key: Key, now: int, timeout: int)
    requires WellFormed(t)
  {
    key in t.connections &&
    var e := t.entries[t.connections[key]];
    e.active == 0 && now - e.lastUsed > timeout
  }

  /** One turn of the reaper's loop. */
  function Reap(t: Table, key: Key, now: int, timeout: int): Table
    requires WellFormed(t)
  {
    if Idle(t, key, now, timeout) then
      t.(connections := t.connections - {key}, shut := t.shut + {t.connections[key]})
    else t
  }

  function Close(t: Table): Table {
    t.(connections := map[], closed := true, shut := t.shut + t.connections.Values)
  }

  class Pool {
    var connections: map<Key, nat>
    var entries: map<nat, Entry>
    var closed: bool
    var shut: set<nat>
    const idleTimeout: int

    ghost function View(): Table
      reads this
    {
      Table(connections, entries, closed, shut)
    }

    constructor (idleTimeout: int)
      ensures View() == Table(map[], map[], false, {}) && WellFormed(View())
      ensures this.idleTimeout == if idleTimeout == 0 then 5 * 60 * 1_000_000_000 else idleTimeout
    {
      connections, entries, closed, shut := map[], map[], false, {};
      this.idleTimeout := if idleTimeout == 0 then 300_000_000_000 else idleTimeout;
    }

    /** The lookup of Get: joins the entry of the key, if there is one. */
    method Lookup(key: Key) returns (refused: bool, client: nat, found: bool, shared: bool)
      requires WellFormed(View())
      modifies this`entries
      ensures WellFormed(View()) && refused == closed
      ensures !refused ==> found == (key in connections)
      ensures if !refused && found
              then client == connections[key] && View() == Join(old(View()), client) && shared == (entries[client].active > 1)
              else View() == old(View())
    {
      client, found, shared := 0, false, false;
      refused := closed;
      if !closed && key in connections {
        client, found := connections[key], true;
        entries := entries[client := entries[client].(active := entries[client].active + 1)];
        shared := entries[client].active > 1;
      }
    }

    /** Removes a connection that failed its probe. */
    method DropDead(key: Key, client: nat)
      requires WellFormed(View()) && client in entries
      modifies this`connections, this`entries, this`shut
      ensures WellFormed(View()) && View() == Drop(old(View()), key, client)
    {
      connections := connections - {key};
      entries := entries[client := entries[client].(active := entries[client].active - 1)];
      shut := shut + {client};
    }

    method Add(key: Key, client: nat, now: int) returns (refused: bool)
      requires WellFormed(View()) && client !in entries
      modifies this`connections, this`entries, this`shut
      ensures WellFormed(View()) && refused == closed && View() == Insert(old(View()), key, client, now)
    {
      if closed {
        shut := shut + {client};
        return true;
      }
      entries := entries[client := Entry(key, 1, now)];
      connections := connections[key := client];
      refused := false;
    }

    /** The release of a lease, but for its slot. */
    method Release(client: nat, now: int)
      requires WellFormed(View()) && client in entries
      modifies this`entries
      ensures WellFormed(View()) && View() == Touch(Leave(old(View()), client), client, now)
    {
      entries := entries[client := entries[client].(active := entries[client].active - 1)];
      entries := entries[client := entries[client].(lastUsed := now)];
    }

    method RemoveKey(key: Key)
      requires WellFormed(View())
      modifies this`connections, this`shut
      ensures WellFormed(View()) && View() == Remove(old(View()), key)
    {
      if key in connections {
        var client := connections[key];
        if entries[client].active > 1 {
          return;
        }
        shut := shut + {client};
        connections := connections - {key};
      }
    }

    /** Closes every idle connection, in whatever order the map is ranged over. */
    method ReapIdle(now: int) returns (done: bool)
      requires WellFormed(View())
      modifies this`connections, this`shut
      ensures WellFormed(View()) && done == closed
      ensures forall k :: k in connections <==>
                k in old(connections) && (closed || !old(Idle(View(), k, now, idleTimeout)))
      ensures forall k :: k in connections ==> connections[k] == old(connections)[k]
      ensures shut == old(shut) +
                set k | k in old(connections) && k !in connections :: old(connections)[k]
    {
      if closed {
        return true;
      }
      var keys := connections.Keys;
      ghost var was := View();
      while keys != {}
        invariant WellFormed(View()) && keys <= was.connections.Keys && !closed && entries == was.entries
        invariant forall k :: k in connections <==> k in was.connections && (k in keys || !Idle(was, k, now, idleTimeout))
        invariant forall k :: k in connections ==> connections[k] == was.connections[k]
        invariant shut == was.shut + set k | k in was.connections && k !in connections :: was.connections[k]
        decreases |keys|
      {
        var key :| key in keys;
        keys := keys - {key};
        var client := connections[key];
        if entries[client].active == 0 && now - entries[client].lastUsed > idleTimeout {
          shut := shut + {client};
          connections := connections - {key};
        }
      }
      done := false;
    }

    method CloseAll()
      requires WellFormed(View())
      modifies this`connections, this`closed, this`shut
      ensures WellFormed(View()) && View() == Close(old(View()))
    {
      closed := true;
      ghost var was := old(View());
      while connections != map[]
        invariant WellFormed(View()) && closed && entries == was.entries
        invariant forall k :: k in connections ==> k in was.connections && connections[k] == was.connections[k]
        invariant shut == was.shut + set k | k in was.connections && k !in connections :: was.connections[k]
        decreases |connections|
      {
        var host :| host in connections;
        shut := shut + {connections[host]};
        connections := connections - {host};
      }
      assert was.connections.Values == set k | k in was.connections :: was.connections[k];
    }
  }
}
