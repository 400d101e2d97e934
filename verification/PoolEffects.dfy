/** What the pool's steps on its table do, in every reachable state, told by who uses a connection.

    The counts of the entries are not mentioned: a connection is in use when some caller uses it. */
module PoolEffects {
  import opened PoolTable
  import opened ConnectionPool
  import opened PoolSafety

  /** Some caller other than `t` uses the connection `c`. */
  ghost predicate UsedBesides(s: Sys, t: nat, c: nat) {
    exists u :: u != t && InUseBy(s, u, c)
  }

  ghost predicate IsUsed(s: Sys, c: nat) {
    exists u :: InUseBy(s, u, c)
  }

  /** Only the connection of `key` left the table, and it was closed. */
  predicate Closes(x: Table, key: Key, y: Table) {
    && key in x.connections
    && y.connections.Keys == x.connections.Keys - {key} && (forall k :: k in y.connections ==> y.connections[k] == x.connections[k])
    && y.shut == x.shut + {x.connections[key]} && y.closed == x.closed
  }

  lemma UsersAre(s: Sys, c: nat)
    requires CountInv(s) && c in s.table.entries
    ensures s.table.entries[c].active == 0 <==> !IsUsed(s, c)
  {
    var users := Users(s.callers, c);
    if IsUsed(s, c) {
      var u :| InUseBy(s, u, c);
      assert u in users;
    }
    if users != {} {
      var u :| u in users;
      assert InUseBy(s, u, c);
    }
  }

  lemma UsersBesides(s: Sys, t: nat, c: nat)
    requires CountInv(s) && c in s.table.entries && InUseBy(s, t, c)
    ensures s.table.entries[c].active > 1 <==> UsedBesides(s, t, c)
  {
    var users := Users(s.callers, c);
    assert t in users;
    var others := users - {t};
    assert users == others + {t};
    if UsedBesides(s, t, c) {
      var u :| u != t && InUseBy(s, u, c);
      assert u in others;
    }
    if others != {} {
      var u :| u in others;
      assert u != t && InUseBy(s, u, c);
    }
  }

  /** What reachable states keep, and the step that is taken. */
  lemma Reached(states: seq<Sys>, events: seq<Event>, limit: string -> nat, n: nat)
    requires Run(states, events, limit) && n < |events|
    ensures TableInv(states[n]) && CallersInv(states[n]) && CountInv(states[n])
    ensures Sound(states[n]) && Enabled(states[n], events[n], limit) && states[n + 1] == Apply(states[n], events[n], limit)
  {
    RunKeepsInv(states, events, limit, n);
    hide TableInv, CallersInv, CountInv, SlotInv, KeptInv, Sound, Enabled, Apply;
  }

  lemma ActorIsOk(s: Sys, t: nat)
    requires CallersInv(s) && t in s.callers
    ensures CallerOk(s, t)
  {
    hide PairOk, LockOk, MappedOk;
  }

  /** Main result on Remove: it closes the connection of its key exactly when nobody else uses it. */
  lemma RemoveCloses(states: seq<Sys>, events: seq<Event>, limit: string -> nat, n: nat)
    requires Run(states, events, limit) && n < |events| && events[n].RemoveNow?
    ensures var (s, z, t) := (states[n], states[n + 1], events[n].t);
            && t in s.callers
            && var key := s.callers[t].key;
               if key in s.table.connections && !UsedBesides(s, t, s.table.connections[key])
               then Closes(s.table, key, z.table) && z.table.entries == s.table.entries
               else z.table == s.table
  {
    Reached(states, events, limit, n);
    var (s, t) := (states[n], events[n].t);
    hide Run, CallersInv, CountInv, UsedBesides, Occupied;
    ActorIsOk(s, t);
    var key := s.callers[t].key;
    if key in s.table.connections {
      UsersBesides(s, t, s.table.connections[key]);
    }
  }

  /** The lookup of Get joins the connection of its key, and probes it exactly when nobody uses it. */
  lemma LookUpJoins(states: seq<Sys>, events: seq<Event>, limit: string -> nat, n: nat)
    requires Run(states, events, limit) && n < |events| && events[n].LookUp?
    ensures var (s, z, t) := (states[n], states[n + 1], events[n].t);
            && t in s.callers && t in z.callers
            && var (key, q) := (s.callers[t].key, z.callers[t]);
               && q.key == key && z.table.connections == s.table.connections && z.table.shut == s.table.shut && z.table.closed == s.table.closed
               && if s.table.closed then q.kind == Failing
                  else if key !in s.table.connections then q.kind == Dialing
                  else
                    var c := s.table.connections[key];
                    q.client == c && q.kind == (if IsUsed(s, c) then Reusing else Probing)
  {
    Reached(states, events, limit, n);
    var (s, t) := (states[n], events[n].t);
    hide Run, CallersInv, CountInv, IsUsed, Occupied;
    var key := s.callers[t].key;
    if key in s.table.connections {
      UsersAre(s, s.table.connections[key]);
      CountsUp(s, s.table.connections[key]);
    }
  }

  lemma CountsUp(s: Sys, c: nat)
    requires CountInv(s) && c in s.table.entries
    ensures s.table.entries[c].active >= 0
  {
  }

  /** A connection that failed its probe leaves the table and is closed; its caller leaves it, and dials
      unless it was cancelled. */
  lemma DropCloses(states: seq<Sys>, events: seq<Event>, limit: string -> nat, n: nat)
    requires Run(states, events, limit) && n < |events| && events[n].DropDead?
    ensures var (s, z, t) := (states[n], states[n + 1], events[n].t);
            && t in s.callers && t in z.callers && !InUseBy(z, t, s.callers[t].client)
            && var (key, c) := (s.callers[t].key, s.callers[t].client);
               && key !in z.table.connections && c in z.table.shut
               && z.callers[t].kind == (if events[n].cancelled then Failing else Dialing)
               && (!s.table.closed ==> Closes(s.table, key, z.table) && s.table.connections[key] == c)
  {
    Reached(states, events, limit, n);
    var (s, t) := (states[n], events[n].t);
    hide Run, CallersInv, CountInv, Occupied;
    ActorIsOk(s, t);
  }

  /** A new connection becomes that of its key; in a closed pool it is closed instead and the call fails. */
  lemma AddEnters(states: seq<Sys>, events: seq<Event>, limit: string -> nat, n: nat)
    requires Run(states, events, limit) && n < |events| && events[n].Add?
    ensures var (s, z, t) := (states[n], states[n + 1], events[n].t);
            && t in s.callers && t in z.callers
            && var (key, c) := (s.callers[t].key, s.callers[t].client);
               && (forall k :: k != key ==> (k in z.table.connections <==> k in s.table.connections) &&
                                            (k in s.table.connections ==> z.table.connections[k] == s.table.connections[k]))
               && if s.table.closed
                  then z.callers[t].kind == Failing && c in z.table.shut && key !in z.table.connections
                  else z.callers[t].kind == Returning && key in z.table.connections && z.table.connections[key] == c && c !in z.table.shut
                       && c in z.table.entries && z.table.entries[c].lastUsed == events[n].now
  {
    Reached(states, events, limit, n);
    var (s, t) := (states[n], events[n].t);
    hide Run, CallersInv, CountInv, Occupied;
    ActorIsOk(s, t);
  }

  /** A release leaves the connection to the others: it is still in the table, with the time noted. */
  lemma ReleaseLeaves(states: seq<Sys>, events: seq<Event>, limit: string -> nat, n: nat)
    requires Run(states, events, limit) && n < |events| && events[n].Release?
    ensures var (s, z, t) := (states[n], states[n + 1], events[n].t);
            && t in s.callers && !InUseBy(z, t, s.callers[t].client)
            && z.table.connections == s.table.connections && z.table.shut == s.table.shut && z.table.closed == s.table.closed
            && var c := s.callers[t].client; c in z.table.entries && z.table.entries[c].lastUsed == events[n].now
  {
    Reached(states, events, limit, n);
    var (s, t) := (states[n], events[n].t);
    hide Run, CallersInv, CountInv, Occupied;
    ActorIsOk(s, t);
  }

  /** The reaper closes exactly the connections nobody uses and nobody used within the timeout. */
  lemma ReapCloses(states: seq<Sys>, events: seq<Event>, limit: string -> nat, n: nat)
    requires Run(states, events, limit) && n < |events| && events[n].ReapKey?
    ensures var (s, z, e) := (states[n], states[n + 1], events[n]);
            && WellFormed(s.table)
            && if e.key in s.table.connections && !IsUsed(s, s.table.connections[e.key]) &&
                  e.now - s.table.entries[s.table.connections[e.key]].lastUsed > e.timeout
               then Closes(s.table, e.key, z.table) && z.callers == s.callers
               else z == s
  {
    Reached(states, events, limit, n);
    var (s, e) := (states[n], events[n]);
    hide Run, CallersInv, CountInv, IsUsed, Occupied;
    if e.key in s.table.connections {
      UsersAre(s, s.table.connections[e.key]);
    }
  }

  /** Close closes every connection of the table, and no lookup finds one afterwards. */
  lemma CloseClosesAll(states: seq<Sys>, events: seq<Event>, limit: string -> nat, n: nat)
    requires Run(states, events, limit) && n < |events| && events[n].ClosePool?
    ensures var (s, z) := (states[n], states[n + 1]);
            && z.table.closed && z.table.connections == map[] && z.callers == s.callers
            && forall c :: c in z.table.shut <==> c in s.table.shut || exists k :: k in s.table.connections && s.table.connections[k] == c
  {
    Reached(states, events, limit, n);
    hide Run, CallersInv, CountInv, Occupied;
  }
}
