/** Callers of the connection pool as interleaved steps over its slots, key locks and table.

    Each step is one atomic operation of internal/ssh/pool.go, internal/ssh/ratelimit.go or the
    lease protocol of internal/ssh/client.go: a channel operation, a critical section of the pool's
    mutex, or the return of dial or keepalive, which may succeed, fail or be cancelled. */
module ConnectionPool {
  import opened PoolTable

  /** Where a caller is. The source lines are those of Get unless said otherwise. */
  datatype Kind =
    | WantSlot      // in Acquire, before it has a slot
    | Sleeping      // in Acquire, waiting for its time
    | WantKey       // waiting for the key lock
    | HasKey        // before the lookup
    | Probing       // in keepalive
    | ProbeFailed   // keepalive failed, the entry is not dropped yet
    | Reusing       // about to return a connection of the table
    | Dialing
    | Dialed        // holds a new connection that is not in the table
    | Returning     // the lease exists, the key lock is still held
    | Leased
    | WantRemove    // in Remove, waiting for the key lock
    | Removing      // in Remove, before the table changes
    | RemoveDone    // in Remove, the key lock is still held
    | Removed       // after Remove, the lease is not released yet
    | Releasing     // the entry is left, the slot is still held
    | Failing       // about to give the slot back and fail
    | Exiting       // failed, the key lock is still held

  datatype Phase = Phase(kind: Kind, key: Key, client: nat) {
    predicate HasSlot() {
      !kind.WantSlot? && !kind.Exiting?
    }

    predicate HasLock() {
      || kind.HasKey? || kind.Probing? || kind.ProbeFailed? || kind.Reusing? || kind.Dialing? || kind.Dialed?
      || kind.Returning? || kind.Removing? || kind.RemoveDone? || kind.Failing? || kind.Exiting?
    }

    /** Counted in the entry's `active`. */
    predicate Uses() {
      kind.Probing? || kind.ProbeFailed? || Leases()
    }

    /** Get returned the client, or is about to, and the caller has not released it. */
    predicate Leases() {
      || kind.Reusing? || kind.Returning? || kind.Leased? || kind.WantRemove?
      || kind.Removing? || kind.RemoveDone? || kind.Removed?
    }

    /** The client cannot have left the table under this caller. */
    predicate Binds() {
      Uses() && !kind.RemoveDone? && !kind.Removed?
    }

    /** The pool has not given up the client. */
    predicate Trusts() {
      Binds() && !kind.ProbeFailed?
    }
  }

  datatype Sys = Sys(
    table: Table,
    callers: map<nat, Phase>,
    locks: map<Key, nat>,              // who holds a key lock
    slots: map<string, nat>,           // occupied semaphore slots
    made: set<nat>)                  // every client dial returned

  /** The steps. `t` is the caller. */
  datatype Event =
    | Call(t: nat, key: Key)
    | AcquireSlot(t: nat)
    | CancelWait(t: nat)
    | Wake(t: nat)
    | CancelSleep(t: nat)
    | LockKey(t: nat)
    | CancelKey(t: nat)
    | LookUp(t: nat)
    | ProbeOk(t: nat)
    | ProbeFails(t: nat, closes: bool)
    | Reuse(t: nat, now: int)
    | DropDead(t: nat, cancelled: bool)
    | DialOk(t: nat, client: nat)
    | DialFails(t: nat)
    | Add(t: nat, now: int)
    | Return(t: nat)
    | CallRemove(t: nat)
    | LockRemove(t: nat)
    | RemoveNow(t: nat)
    | UnlockRemove(t: nat)
    | Release(t: nat, now: int)
    | FreeSlot(t: nat)
    | Fail(t: nat)
    | Exit(t: nat)
    | ReapKey(key: Key, now: int, timeout: int)
    | ClosePool

  predicate ByCaller(e: Event) {
    !e.ReapKey? && !e.ClosePool?
  }

  const EMPTY := Sys(Table(map[], map[], false, {}), map[], map[], map[], {})

  function Occupied(s: Sys, host: string): nat {
    if host in s.slots then s.slots[host] else 0
  }

  predicate At(s: Sys, t: nat, kind: Kind) {
    t in s.callers && s.callers[t].kind == kind
  }

  function Go(s: Sys, t: nat, kind: Kind): Sys
    requires t in s.callers
  {
    s.(callers := s.callers[t := s.callers[t].(kind := kind)])
  }

  function Gone(s: Sys, t: nat): Sys {
    s.(callers := s.callers - {t})
  }

  function TakeSlot(s: Sys, host: string): Sys {
    s.(slots := s.slots[host := Occupied(s, host) + 1])
  }

  function GiveSlot(s: Sys, host: string): Sys {
    s.(slots := s.slots[host := if Occupied(s, host) > 0 then Occupied(s, host) - 1 else 0])
  }

  function Lock(s: Sys, key: Key, t: nat): Sys {
    s.(locks := s.locks[key := t])
  }

  function WithTable(s: Sys, table: Table): Sys {
    s.(table := table)
  }

  function Unlock(s: Sys, key: Key): Sys {
    s.(locks := s.locks - {key})
  }

  /** The step `e` can be taken in `s`. `limit` gives MaxConns of a host. */
  predicate Enabled(s: Sys, e: Event, limit: string -> nat) {
    match e
    case Call(t, _) => t !in s.callers
    case AcquireSlot(t) => At(s, t, WantSlot) && Occupied(s, s.callers[t].key.host) < limit(s.callers[t].key.host)
    case CancelWait(t) => At(s, t, WantSlot)
    case Wake(t) => At(s, t, Sleeping)
    case CancelSleep(t) => At(s, t, Sleeping)
    case LockKey(t) => At(s, t, WantKey) && s.callers[t].key !in s.locks
    case CancelKey(t) => At(s, t, WantKey)
    case LookUp(t) => At(s, t, HasKey)
    case ProbeOk(t) => At(s, t, Probing)
    case ProbeFails(t, _) => At(s, t, Probing)
    case Reuse(t, _) => At(s, t, Reusing)
    case DropDead(t, _) => At(s, t, ProbeFailed)
    case DialOk(t, c) => At(s, t, Dialing) && c !in s.made
    case DialFails(t) => At(s, t, Dialing)
    case Add(t, _) => At(s, t, Dialed)
    case Return(t) => At(s, t, Returning)
    case CallRemove(t) => At(s, t, Leased)
    case LockRemove(t) => At(s, t, WantRemove) && s.callers[t].key !in s.locks
    case RemoveNow(t) => At(s, t, Removing)
    case UnlockRemove(t) => At(s, t, RemoveDone)
    case Release(t, _) => At(s, t, Leased) || At(s, t, Removed)
    case FreeSlot(t) => At(s, t, Releasing)
    case Fail(t) => At(s, t, Failing)
    case Exit(t) => At(s, t, Exiting)
    case ReapKey(_, _, _) => !s.table.closed
    case ClosePool => true
  }

  predicate Sound(s: Sys) {
    && WellFormed(s.table)
    && forall t :: t in s.callers && s.callers[t].Uses() ==>
         s.callers[t].client in s.table.entries && s.table.entries[s.callers[t].client].key == s.callers[t].key
  }

  /** The steps that touch the table, inside the pool's mutex or an entry's. */
  predicate OnTable(e: Event) {
    e.LookUp? || e.ProbeFails? || e.Reuse? || e.DropDead? || e.Add? || e.RemoveNow? || e.Release? || e.ReapKey? || e.ClosePool?
  }

  /** The steps on slots and key locks, and the returns that change neither. */
  function ApplyWait(s: Sys, e: Event, limit: string -> nat): Sys
    requires Enabled(s, e, limit) && !OnTable(e)
  {
    match e
    case Call(t, key) => s.(callers := s.callers[t := Phase(WantSlot, key, 0)])
    case AcquireSlot(t) => TakeSlot(Go(s, t, Sleeping), s.callers[t].key.host)
    case CancelWait(t) => Gone(s, t)
    case Wake(t) => Go(s, t, WantKey)
    case CancelSleep(t) => GiveSlot(Gone(s, t), s.callers[t].key.host)
    case LockKey(t) => Lock(Go(s, t, HasKey), s.callers[t].key, t)
    case CancelKey(t) => GiveSlot(Gone(s, t), s.callers[t].key.host)
    case ProbeOk(t) => Go(s, t, Reusing)
    case DialOk(t, c) => s.(callers := s.callers[t := Phase(Dialed, s.callers[t].key, c)], made := s.made + {c})
    case DialFails(t) => Go(s, t, Failing)
    case Return(t) => Unlock(Go(s, t, Leased), s.callers[t].key)
    case CallRemove(t) => Go(s, t, WantRemove)
    case LockRemove(t) => Lock(Go(s, t, Removing), s.callers[t].key, t)
    case UnlockRemove(t) => Unlock(Go(s, t, Removed), s.callers[t].key)
    case FreeSlot(t) => GiveSlot(Gone(s, t), s.callers[t].key.host)
    case Fail(t) => GiveSlot(Go(s, t, Exiting), s.callers[t].key.host)
    case Exit(t) => Unlock(Gone(s, t), s.callers[t].key)
  }

  /** The lookup of Get joins the entry of the key; a caller that is alone with it probes it. */
  function Found(s: Sys, t: nat): Sys
    requires Sound(s) && At(s, t, HasKey)
  {
    var key := s.callers[t].key;
    if s.table.closed then Go(s, t, Failing)
    else if key in s.table.connections then
      var c := s.table.connections[key];
      var joined := Join(s.table, c);
      var shared := joined.entries[c].active > 1;
      s.(table := joined, callers := s.callers[t := Phase(if shared then Reusing else Probing, key, c)])
    else Go(s, t, Dialing)
  }

  function ApplyTable(s: Sys, e: Event, limit: string -> nat): Sys
    requires Sound(s) && Enabled(s, e, limit) && OnTable(e)
  {
    match e
    case LookUp(t) => Found(s, t)
    case ProbeFails(t, closes) =>
      WithTable(Go(s, t, ProbeFailed), if closes then s.table.(shut := s.table.shut + {s.callers[t].client}) else s.table)
    case Reuse(t, now) => WithTable(Go(s, t, Returning), Touch(s.table, s.callers[t].client, now))
    case DropDead(t, cancelled) =>
      WithTable(Go(s, t, if cancelled then Failing else Dialing), Drop(s.table, s.callers[t].key, s.callers[t].client))
    case Add(t, now) =>
      WithTable(Go(s, t, if s.table.closed then Failing else Returning), Insert(s.table, s.callers[t].key, s.callers[t].client, now))
    case RemoveNow(t) => WithTable(Go(s, t, RemoveDone), Remove(s.table, s.callers[t].key))
    case Release(t, now) => WithTable(Go(s, t, Releasing), Touch(Leave(s.table, s.callers[t].client), s.callers[t].client, now))
    case ReapKey(key, now, timeout) => WithTable(s, Reap(s.table, key, now, timeout))
    case ClosePool => WithTable(s, Close(s.table))
  }

  function Apply(s: Sys, e: Event, limit: string -> nat): Sys
    requires Sound(s) && Enabled(s, e, limit)
  {
    if OnTable(e) then ApplyTable(s, e, limit) else ApplyWait(s, e, limit)
  }

  // ------------------------------------------------------ the invariants

  /** What holds of the table on its own. */
  predicate TableInv(s: Sys) {
    WellFormed(s.table) && (s.table.closed ==> s.table.connections == map[]) && Accounted(s.table, s.made)
  }

  predicate Accounted(x: Table, made: set<nat>) {
    x.entries.Keys <= made && x.shut <= made
  }

  /** What holds of one caller. While the pool is open an entry in use stays the entry of its key,
      and it is open until its holder removed it. A new connection is in nobody else's hands, and
      its key has no entry it could replace. */
  predicate CallerOk(s: Sys, t: nat)
    requires t in s.callers
  {
    var p, x := s.callers[t], s.table;
    && (p.HasLock() ==> p.key in s.locks && s.locks[p.key] == t)
    && (p.Uses() ==> p.client in x.entries && x.entries[p.client].key == p.key)
    && (p.Binds() && !x.closed ==> p.key in x.connections && x.connections[p.key] == p.client)
    && (p.Trusts() && !x.closed ==> p.client !in x.shut)
    && (p.kind.Dialing? || p.kind.Dialed? ==> p.key !in x.connections)
    && (p.kind.Dialed? ==> p.client in s.made && p.client !in x.entries && p.client !in x.shut)
  }

  /** A connection is probed only by a caller that is alone with it, and no two callers hold the
      same new connection. */
  predicate PairOk(s: Sys, t: nat, u: nat)
    requires t in s.callers && u in s.callers
  {
    var p, q := s.callers[t], s.callers[u];
    p.client == q.client && t != u ==>
      !((p.kind.Probing? || p.kind.ProbeFailed?) && q.Uses()) && !(p.kind.Dialed? && q.kind.Dialed?)
  }

  /** A key lock is held by the caller it is recorded for. */
  predicate LockOk(s: Sys, k: Key)
    requires k in s.locks
  {
    var t := s.locks[k];
    t in s.callers && s.callers[t].HasLock() && s.callers[t].key == k
  }

  /** A connection in the table is open, unless a caller that holds its key lock is about to drop it. */
  predicate MappedOk(s: Sys, k: Key)
    requires k in s.table.connections
  {
    s.table.connections[k] in s.table.shut ==>
      k in s.locks && At(s, s.locks[k], ProbeFailed) && s.callers[s.locks[k]].key == k
  }

  predicate CallersInv(s: Sys) {
    && (forall t :: t in s.callers ==> CallerOk(s, t))
    && (forall t, u :: t in s.callers && u in s.callers ==> PairOk(s, t, u))
    && (forall k :: k in s.locks ==> LockOk(s, k))
    && (forall k :: k in s.table.connections ==> MappedOk(s, k))
  }

  function SlotHolders(callers: map<nat, Phase>, host: string): set<nat> {
    set t | t in callers && callers[t].HasSlot() && callers[t].key.host == host
  }

  /** A host's occupied slots are its callers that hold one, and never more than MaxConns. */
  ghost predicate SlotInv(s: Sys, limit: string -> nat) {
    forall h: string :: Occupied(s, h) == |SlotHolders(s.callers, h)| <= limit(h)
  }

  function Users(callers: map<nat, Phase>, c: nat): set<nat> {
    set t | t in callers && callers[t].Uses() && callers[t].client == c
  }

  /** An entry's `active` is the number of its callers. */
  predicate CountInv(s: Sys) {
    forall c :: c in s.table.entries ==> s.table.entries[c].active == |Users(s.callers, c)|
  }

  /** A connection is in flight, in the table or closed. */
  predicate Kept(s: Sys, c: nat) {
    || c in s.table.shut
    || (exists k :: k in s.table.connections && s.table.connections[k] == c)
    || (exists t :: t in s.callers && s.callers[t].kind.Dialed? && s.callers[t].client == c)
  }

  /** No connection is lost. */
  predicate KeptInv(s: Sys) {
    forall c :: c in s.made ==> Kept(s, c)
  }

  ghost predicate Inv(s: Sys, limit: string -> nat) {
    TableInv(s) && CallersInv(s) && CountInv(s) && SlotInv(s, limit) && KeptInv(s)
  }

  // -------------------------------------------------- counting callers

  lemma SlotsOf(callers: map<nat, Phase>, t: nat, p: Phase, h: string)
    ensures SlotHolders(callers[t := p], h) ==
            if p.HasSlot() && p.key.host == h then SlotHolders(callers, h) + {t} else SlotHolders(callers, h) - {t}
  {
  }

  lemma SlotsWithout(callers: map<nat, Phase>, t: nat, h: string)
    ensures SlotHolders(callers - {t}, h) == SlotHolders(callers, h) - {t}
  {
  }

  lemma UsersOf(callers: map<nat, Phase>, t: nat, p: Phase, c: nat)
    ensures Users(callers[t := p], c) ==
            if p.Uses() && p.client == c then Users(callers, c) + {t} else Users(callers, c) - {t}
  {
  }

  lemma UsersWithout(callers: map<nat, Phase>, t: nat, c: nat)
    ensures Users(callers - {t}, c) == Users(callers, c) - {t}
  {
  }

  lemma Sizes(a: set<nat>, t: nat)
    ensures |a + {t}| == (if t in a then |a| else |a| + 1) && |a - {t}| == (if t in a then |a| - 1 else |a|)
  {
    if t in a {
      assert a + {t} == a;
    } else {
      assert a - {t} == a;
    }
  }
}
