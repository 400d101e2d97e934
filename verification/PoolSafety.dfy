/** Every step of the pool keeps its invariants, and what follows for whole runs. */
module PoolSafety {
  import opened PoolTable
  import opened ConnectionPool

  predicate InUseBy(s: Sys, u: nat, c: nat) {
    u in s.callers && s.callers[u].Uses() && s.callers[u].client == c
  }

  /** A caller counted alone is the only one. */
  lemma AloneWith(s: Sys, c: nat, t: nat, u: nat)
    requires CountInv(s) && c in s.table.entries && InUseBy(s, u, c)
    ensures s.table.entries[c].active > 0
    ensures s.table.entries[c].active == 1 && InUseBy(s, t, c) ==> t == u
  {
    var users := Users(s.callers, c);
    assert u in users;
    assert users == (users - {u}) + {u};
    if InUseBy(s, t, c) && t != u {
      assert t in users - {u};
    }
  }

  lemma InvIsSound(s: Sys, limit: string -> nat)
    requires TableInv(s) && CallersInv(s)
    ensures Sound(s)
  {
    forall t | t in s.callers && s.callers[t].Uses()
      ensures s.callers[t].client in s.table.entries && s.table.entries[s.callers[t].client].key == s.callers[t].key
    {
      assert CallerOk(s, t);
    }
  }

  /** The callers `u` and the one that takes the step are in order. */
  predicate Ready(s: Sys, e: Event, u: nat) {
    (u in s.callers ==> CallerOk(s, u)) && (ByCaller(e) && e.t in s.callers ==> CallerOk(s, e.t))
  }

  /** The steps that take or give back a key lock, and the start of a call. */
  predicate Locks(e: Event) {
    e.Call? || e.LockKey? || e.Return? || e.LockRemove? || e.UnlockRemove? || e.Exit?
  }

  lemma CallerLocks(s: Sys, e: Event, limit: string -> nat, u: nat)
    requires Ready(s, e, u) && Enabled(s, e, limit) && !OnTable(e) && u in ApplyWait(s, e, limit).callers && Locks(e)
    ensures CallerOk(ApplyWait(s, e, limit), u)
  {
    hide Occupied;
  }

  lemma CallerMoves(s: Sys, e: Event, limit: string -> nat, u: nat)
    requires Ready(s, e, u) && Enabled(s, e, limit) && !OnTable(e) && u in ApplyWait(s, e, limit).callers && !Locks(e)
    requires Accounted(s.table, s.made)
    ensures CallerOk(ApplyWait(s, e, limit), u)
  {
    hide Occupied;
  }

  lemma CallerWaits(s: Sys, e: Event, limit: string -> nat, u: nat)
    requires Ready(s, e, u) && Enabled(s, e, limit) && !OnTable(e) && u in ApplyWait(s, e, limit).callers
    requires Accounted(s.table, s.made)
    ensures CallerOk(ApplyWait(s, e, limit), u)
  {
    hide CallerOk, ApplyWait, Enabled, Occupied;
    if Locks(e) {
      CallerLocks(s, e, limit, u);
    } else {
      CallerMoves(s, e, limit, u);
    }
  }

  /** Who else uses the client a table step may close. */
  predicate Undisturbed(s: Sys, e: Event, u: nat)
    requires Sound(s)
  {
    && (e.RemoveNow? && e.t in s.callers && s.callers[e.t].key in s.table.connections ==>
          var c := s.table.connections[s.callers[e.t].key];
          u != e.t && InUseBy(s, u, c) && InUseBy(s, e.t, c) ==> s.table.entries[c].active > 1)
    && (e.ReapKey? && e.key in s.table.connections ==>
          var c := s.table.connections[e.key];
          InUseBy(s, u, c) ==> s.table.entries[c].active > 0)
  }

  lemma NobodyDisturbed(s: Sys, e: Event, u: nat)
    requires Sound(s) && CountInv(s)
    ensures Undisturbed(s, e, u)
  {
    hide CountInv;
    if e.RemoveNow? && e.t in s.callers && s.callers[e.t].key in s.table.connections {
      var c := s.table.connections[s.callers[e.t].key];
      if InUseBy(s, u, c) {
        AloneWith(s, c, e.t, u);
      }
    }
    if e.ReapKey? && e.key in s.table.connections {
      var c := s.table.connections[e.key];
      if InUseBy(s, u, c) {
        AloneWith(s, c, u, u);
      }
    }
  }

  /** The lookup of Get leaves the other callers in order. */
  lemma OtherAtLookUp(s: Sys, e: Event, limit: string -> nat, u: nat)
    requires Sound(s) && Ready(s, e, u) && Enabled(s, e, limit) && u in s.callers && e.LookUp? && u != e.t
    ensures CallerOk(ApplyTable(s, e, limit), u)
  {
    hide Occupied;
  }

  /** So does a probe that fails: nobody else uses the entry. */
  lemma OtherAtProbe(s: Sys, e: Event, limit: string -> nat, u: nat)
    requires Sound(s) && TableInv(s) && Ready(s, e, u) && Enabled(s, e, limit) && u in s.callers && e.ProbeFails?
    requires u != e.t && PairOk(s, e.t, u)
    ensures CallerOk(ApplyTable(s, e, limit), u)
  {
    hide Occupied, WellFormed;
  }

  /** So does a step that only changes an entry's count or time. */
  lemma OtherAtTouch(s: Sys, e: Event, limit: string -> nat, u: nat)
    requires Sound(s) && Ready(s, e, u) && Enabled(s, e, limit) && u in s.callers && (e.Reuse? || e.Release?) && u != e.t
    ensures CallerOk(ApplyTable(s, e, limit), u)
  {
    hide Occupied, WellFormed;
  }

  /** Steps of Get that change the map leave the other callers in order. */
  lemma OtherAtAdd(s: Sys, e: Event, limit: string -> nat, u: nat)
    requires Sound(s) && TableInv(s) && Ready(s, e, u) && Enabled(s, e, limit) && u in s.callers
    requires (e.DropDead? || e.Add?) && Undisturbed(s, e, u)
    requires ByCaller(e) ==> u != e.t && PairOk(s, e.t, u)
    ensures CallerOk(ApplyTable(s, e, limit), u)
  {
    hide Occupied;
  }

  /** Steps that only close leave the other callers in order. */
  lemma OtherAtRemove(s: Sys, e: Event, limit: string -> nat, u: nat)
    requires Sound(s) && TableInv(s) && Ready(s, e, u) && Enabled(s, e, limit) && u in s.callers
    requires (e.RemoveNow? || e.ReapKey? || e.ClosePool?) && Undisturbed(s, e, u)
    requires ByCaller(e) ==> u != e.t && PairOk(s, e.t, u)
    ensures CallerOk(ApplyTable(s, e, limit), u)
  {
    hide Occupied;
  }

  /** Steps on an entry leave the caller that takes them in order. */
  lemma ActorAtLookUp(s: Sys, e: Event, limit: string -> nat)
    requires Sound(s) && TableInv(s) && Enabled(s, e, limit) && e.LookUp? && e.t in s.callers && CallerOk(s, e.t)
    requires s.callers[e.t].key in s.table.connections ==> MappedOk(s, s.callers[e.t].key)
    ensures CallerOk(ApplyTable(s, e, limit), e.t)
  {
    hide Occupied;
  }

  lemma ActorAtJoin(s: Sys, e: Event, limit: string -> nat)
    requires Sound(s) && TableInv(s) && Enabled(s, e, limit) && ByCaller(e) && e.t in s.callers && CallerOk(s, e.t)
    requires e.ProbeFails? || e.Reuse? || e.Release?
    requires s.callers[e.t].key in s.table.connections ==> MappedOk(s, s.callers[e.t].key)
    ensures CallerOk(ApplyTable(s, e, limit), e.t)
  {
    hide Occupied;
  }

  /** Steps on the map leave the caller that takes them in order. */
  lemma ActorAtAdd(s: Sys, e: Event, limit: string -> nat)
    requires Sound(s) && TableInv(s) && Enabled(s, e, limit) && ByCaller(e) && e.t in s.callers && CallerOk(s, e.t)
    requires (e.DropDead? || e.Add? || e.RemoveNow?)
    requires s.callers[e.t].key in s.table.connections ==> MappedOk(s, s.callers[e.t].key)
    ensures CallerOk(ApplyTable(s, e, limit), e.t)
  {
    hide Occupied;
  }

  /** What a step has to know of a pair of callers, besides that they are in order. */
  lemma PairWaits(s: Sys, e: Event, limit: string -> nat, t: nat, u: nat)
    requires Ready(s, e, t) && Ready(s, e, u) && Enabled(s, e, limit) && !OnTable(e) && Accounted(s.table, s.made)
    requires t in s.callers && u in s.callers ==> PairOk(s, t, u)
    requires t in ApplyWait(s, e, limit).callers && u in ApplyWait(s, e, limit).callers
    ensures PairOk(ApplyWait(s, e, limit), t, u)
  {
    hide Occupied;
  }

  /** A caller that joins an entry alone finds nobody else there. */
  predicate JoinsAlone(s: Sys, e: Event, u: nat)
    requires Sound(s)
  {
    e.LookUp? && e.t in s.callers && s.callers[e.t].key in s.table.connections ==>
      var c := s.table.connections[s.callers[e.t].key];
      InUseBy(s, u, c) ==> s.table.entries[c].active > 0
  }

  lemma PairAtLookUp(s: Sys, e: Event, limit: string -> nat, t: nat, u: nat)
    requires Sound(s) && Ready(s, e, t) && Ready(s, e, u) && Enabled(s, e, limit) && e.LookUp?
    requires t in s.callers && u in s.callers && PairOk(s, t, u) && JoinsAlone(s, e, t) && JoinsAlone(s, e, u)
    ensures PairOk(ApplyTable(s, e, limit), t, u)
  {
    hide Occupied;
  }

  lemma PairAtAdd(s: Sys, e: Event, limit: string -> nat, t: nat, u: nat)
    requires Sound(s) && Ready(s, e, t) && Ready(s, e, u) && Enabled(s, e, limit) && e.Add?
    requires t in s.callers && u in s.callers && PairOk(s, t, u)
    ensures PairOk(ApplyTable(s, e, limit), t, u)
  {
    hide Occupied, WellFormed;
  }

  lemma PairAtTable(s: Sys, e: Event, limit: string -> nat, t: nat, u: nat)
    requires Sound(s) && Ready(s, e, t) && Ready(s, e, u) && Enabled(s, e, limit) && OnTable(e) && !e.LookUp? && !e.Add?
    requires t in s.callers && u in s.callers && PairOk(s, t, u)
    ensures PairOk(ApplyTable(s, e, limit), t, u)
  {
    hide Occupied, WellFormed, Touch, Leave, Join, Drop, Insert, Remove, Reap, Close, CallerOk;
  }

  lemma LockWaits(s: Sys, e: Event, limit: string -> nat, k: Key)
    requires Enabled(s, e, limit) && !OnTable(e) && k in ApplyWait(s, e, limit).locks
    requires (k in s.locks ==> LockOk(s, k)) && (ByCaller(e) && e.t in s.callers ==> CallerOk(s, e.t))
    ensures LockOk(ApplyWait(s, e, limit), k)
  {
    hide Occupied;
  }

  lemma LockAtTable(s: Sys, e: Event, limit: string -> nat, k: Key)
    requires Sound(s) && Enabled(s, e, limit) && OnTable(e) && k in s.locks && LockOk(s, k)
    ensures k in ApplyTable(s, e, limit).locks && LockOk(ApplyTable(s, e, limit), k)
  {
    hide Occupied, ApplyTable, Enabled, Sound;
    SameLocks(s, e, limit);
    MovesOnTable(s, e, limit);
    if ByCaller(e) {
      KeepsLockAndSlot(s, e, limit);
    }
  }

  /** A step on the table leaves its caller with the key it had, and with its lock and slot. */
  lemma KeepsLockAndSlot(s: Sys, e: Event, limit: string -> nat)
    requires Sound(s) && Enabled(s, e, limit) && OnTable(e) && ByCaller(e)
    ensures e.t in s.callers && e.t in ApplyTable(s, e, limit).callers
    ensures var (p, q) := (s.callers[e.t], ApplyTable(s, e, limit).callers[e.t]);
            q.key == p.key && q.HasLock() == p.HasLock() && q.HasSlot() == p.HasSlot()
  {
    hide Occupied, WellFormed, Touch, Leave, Join, Drop, Insert, Remove, Reap, Close;
  }

  lemma MappedWaits(s: Sys, e: Event, limit: string -> nat, k: Key)
    requires Enabled(s, e, limit) && !OnTable(e) && k in s.table.connections && MappedOk(s, k)
    requires ByCaller(e) && e.t in s.callers ==> CallerOk(s, e.t)
    ensures k in ApplyWait(s, e, limit).table.connections && MappedOk(ApplyWait(s, e, limit), k)
  {
    hide Occupied;
  }

  lemma MappedAtProbe(s: Sys, e: Event, limit: string -> nat, k: Key)
    requires Sound(s) && TableInv(s) && Enabled(s, e, limit) && e.ProbeFails?
    requires k in s.table.connections && MappedOk(s, k) && CallerOk(s, e.t)
    ensures k in ApplyTable(s, e, limit).table.connections && MappedOk(ApplyTable(s, e, limit), k)
  {
    hide Occupied;
  }

  lemma MappedAtLookUp(s: Sys, e: Event, limit: string -> nat, k: Key)
    requires Sound(s) && Enabled(s, e, limit) && e.LookUp?
    requires k in ApplyTable(s, e, limit).table.connections
    requires (k in s.table.connections ==> MappedOk(s, k)) && CallerOk(s, e.t)
    ensures MappedOk(ApplyTable(s, e, limit), k)
  {
    hide Occupied;
  }

  lemma MappedAtJoin(s: Sys, e: Event, limit: string -> nat, k: Key)
    requires Sound(s) && Enabled(s, e, limit) && (e.Reuse? || e.Release?)
    requires k in ApplyTable(s, e, limit).table.connections
    requires (k in s.table.connections ==> MappedOk(s, k)) && (ByCaller(e) && e.t in s.callers ==> CallerOk(s, e.t))
    ensures MappedOk(ApplyTable(s, e, limit), k)
  {
    hide Occupied;
  }

  lemma MappedAtAdd(s: Sys, e: Event, limit: string -> nat, k: Key)
    requires Sound(s) && Enabled(s, e, limit) && (e.DropDead? || e.Add?)
    requires k in ApplyTable(s, e, limit).table.connections
    requires (k in s.table.connections ==> MappedOk(s, k)) && (ByCaller(e) && e.t in s.callers ==> CallerOk(s, e.t))
    ensures MappedOk(ApplyTable(s, e, limit), k)
  {
    hide Occupied;
  }

  lemma MappedAtRemove(s: Sys, e: Event, limit: string -> nat, k: Key)
    requires Sound(s) && Enabled(s, e, limit) && (e.RemoveNow? || e.ReapKey? || e.ClosePool?)
    requires k in ApplyTable(s, e, limit).table.connections
    requires (k in s.table.connections ==> MappedOk(s, k)) && (ByCaller(e) && e.t in s.callers ==> CallerOk(s, e.t))
    ensures MappedOk(ApplyTable(s, e, limit), k)
  {
    hide Occupied;
  }

  // ------------------------------------------------- the invariants again

  lemma CallersStep(s: Sys, e: Event, limit: string -> nat)
    requires Inv(s, limit) && Sound(s) && Enabled(s, e, limit)
    ensures CallersInv(Apply(s, e, limit))
  {
    hide CountInv, SlotInv, KeptInv, CallerOk, PairOk, LockOk, MappedOk, InUseBy, Occupied, Apply, ApplyWait, ApplyTable, Enabled, WellFormed;
    var z := Apply(s, e, limit);
    SameCallers(s, e, limit);
    forall u | u in z.callers ensures CallerOk(z, u) {
      CallerStep(s, e, limit, u);
    }
    forall t, u | t in z.callers && u in z.callers ensures PairOk(z, t, u) {
      PairStep(s, e, limit, t, u);
    }
    forall k | k in z.locks ensures LockOk(z, k) {
      LockStep(s, e, limit, k);
    }
    forall k | k in z.table.connections ensures MappedOk(z, k) {
      MappedStep(s, e, limit, k);
    }
  }

  lemma SameCallers(s: Sys, e: Event, limit: string -> nat)
    requires Sound(s) && Enabled(s, e, limit)
    ensures ByCaller(e) && !e.Call? ==> e.t in s.callers
    ensures OnTable(e) ==> Apply(s, e, limit).callers.Keys == s.callers.Keys
  {
    hide Occupied, WellFormed, Touch, Leave, Join, Drop, Insert, Remove, Reap, Close;
  }

  lemma CallerStep(s: Sys, e: Event, limit: string -> nat, u: nat)
    requires Inv(s, limit) && Sound(s) && Enabled(s, e, limit) && u in Apply(s, e, limit).callers
    ensures CallerOk(Apply(s, e, limit), u)
  {
    hide SlotInv, KeptInv, CallerOk, PairOk, LockOk, MappedOk, InUseBy, Occupied, ApplyWait, ApplyTable, Enabled, WellFormed, CountInv;
    SameCallers(s, e, limit);
    if !OnTable(e) {
      CallerWaits(s, e, limit, u);
    } else {
      NobodyDisturbed(s, e, u);
      if ByCaller(e) && e.t == u {
        if e.DropDead? || e.Add? || e.RemoveNow? {
          ActorAtAdd(s, e, limit);
        } else if e.LookUp? {
          ActorAtLookUp(s, e, limit);
        } else {
          ActorAtJoin(s, e, limit);
        }
      } else if e.DropDead? || e.Add? {
        OtherAtAdd(s, e, limit, u);
      } else if e.RemoveNow? || e.ReapKey? || e.ClosePool? {
        OtherAtRemove(s, e, limit, u);
      } else if e.LookUp? {
        OtherAtLookUp(s, e, limit, u);
      } else if e.ProbeFails? {
        OtherAtProbe(s, e, limit, u);
      } else {
        OtherAtTouch(s, e, limit, u);
      }
    }
  }

  lemma NobodyToJoin(s: Sys, e: Event, u: nat)
    requires Sound(s) && CountInv(s)
    ensures JoinsAlone(s, e, u)
  {
    hide CountInv;
    if e.LookUp? && e.t in s.callers && s.callers[e.t].key in s.table.connections {
      var c := s.table.connections[s.callers[e.t].key];
      if InUseBy(s, u, c) {
        AloneWith(s, c, u, u);
      }
    }
  }

  lemma PairStep(s: Sys, e: Event, limit: string -> nat, t: nat, u: nat)
    requires Inv(s, limit) && Sound(s) && Enabled(s, e, limit)
    requires t in Apply(s, e, limit).callers && u in Apply(s, e, limit).callers
    ensures PairOk(Apply(s, e, limit), t, u)
  {
    hide SlotInv, KeptInv, CallerOk, PairOk, LockOk, MappedOk, InUseBy, Occupied, ApplyWait, ApplyTable, Enabled, WellFormed, CountInv;
    SameCallers(s, e, limit);
    if !OnTable(e) {
      PairWaits(s, e, limit, t, u);
    } else if e.LookUp? {
      NobodyToJoin(s, e, t);
      NobodyToJoin(s, e, u);
      PairAtLookUp(s, e, limit, t, u);
    } else if e.Add? {
      PairAtAdd(s, e, limit, t, u);
    } else {
      PairAtTable(s, e, limit, t, u);
    }
  }

  lemma LockStep(s: Sys, e: Event, limit: string -> nat, k: Key)
    requires Inv(s, limit) && Sound(s) && Enabled(s, e, limit) && k in Apply(s, e, limit).locks
    ensures LockOk(Apply(s, e, limit), k)
  {
    hide SlotInv, KeptInv, CallerOk, PairOk, LockOk, MappedOk, Occupied, ApplyWait, Enabled, WellFormed, CountInv;
    SameCallers(s, e, limit);
    if !OnTable(e) {
      LockWaits(s, e, limit, k);
    } else {
      SameLocks(s, e, limit);
      LockAtTable(s, e, limit, k);
    }
  }

  lemma SameLocks(s: Sys, e: Event, limit: string -> nat)
    requires Sound(s) && Enabled(s, e, limit) && OnTable(e)
    ensures ApplyTable(s, e, limit).locks == s.locks && ApplyTable(s, e, limit).slots == s.slots && ApplyTable(s, e, limit).made == s.made
  {
    hide Occupied, WellFormed, Touch, Leave, Join, Drop, Insert, Remove, Reap, Close;
  }

  lemma MappedStep(s: Sys, e: Event, limit: string -> nat, k: Key)
    requires Inv(s, limit) && Sound(s) && Enabled(s, e, limit) && k in Apply(s, e, limit).table.connections
    ensures MappedOk(Apply(s, e, limit), k)
  {
    hide SlotInv, KeptInv, CallerOk, PairOk, LockOk, MappedOk, Occupied, ApplyTable, Enabled, WellFormed, CountInv;
    SameCallers(s, e, limit);
    if !OnTable(e) {
      MappedWaits(s, e, limit, k);
    } else if e.DropDead? || e.Add? {
      MappedAtAdd(s, e, limit, k);
    } else if e.RemoveNow? || e.ReapKey? || e.ClosePool? {
      MappedAtRemove(s, e, limit, k);
    } else if e.ProbeFails? {
      SameConnections(s, e, limit);
      MappedAtProbe(s, e, limit, k);
    } else if e.LookUp? {
      MappedAtLookUp(s, e, limit, k);
    } else {
      MappedAtJoin(s, e, limit, k);
    }
  }

  lemma SameConnections(s: Sys, e: Event, limit: string -> nat)
    requires Sound(s) && Enabled(s, e, limit) && e.ProbeFails?
    ensures ApplyTable(s, e, limit).table.connections == s.table.connections
  {
    hide Occupied, WellFormed;
  }

  lemma TableWaits(s: Sys, e: Event, limit: string -> nat)
    requires TableInv(s) && Enabled(s, e, limit) && !OnTable(e)
    ensures TableInv(ApplyWait(s, e, limit))
  {
    hide Occupied, WellFormed;
  }

  lemma TableAtJoin(s: Sys, e: Event, limit: string -> nat)
    requires Sound(s) && TableInv(s) && Enabled(s, e, limit) && (e.LookUp? || e.ProbeFails? || e.Reuse? || e.Release?)
    requires ByCaller(e) && e.t in s.callers ==> CallerOk(s, e.t)
    ensures TableInv(ApplyTable(s, e, limit))
  {
    hide Occupied;
  }

  lemma TableAtAdd(s: Sys, e: Event, limit: string -> nat)
    requires Sound(s) && TableInv(s) && Enabled(s, e, limit) && (e.DropDead? || e.Add?)
    requires ByCaller(e) && e.t in s.callers ==> CallerOk(s, e.t)
    ensures TableInv(ApplyTable(s, e, limit))
  {
    hide Occupied;
  }

  lemma TableAtRemove(s: Sys, e: Event, limit: string -> nat)
    requires Sound(s) && TableInv(s) && Enabled(s, e, limit) && (e.RemoveNow? || e.ReapKey? || e.ClosePool?)
    requires ByCaller(e) && e.t in s.callers ==> CallerOk(s, e.t)
    ensures TableInv(ApplyTable(s, e, limit))
  {
    hide Occupied;
  }

  lemma TableStep(s: Sys, e: Event, limit: string -> nat)
    requires Inv(s, limit) && Sound(s) && Enabled(s, e, limit)
    ensures TableInv(Apply(s, e, limit))
  {
    hide SlotInv, KeptInv, PairOk, LockOk, MappedOk, CallerOk, TableInv, Enabled, Occupied, CountInv, ApplyWait, ApplyTable;
    if !OnTable(e) {
      TableWaits(s, e, limit);
    } else if e.DropDead? || e.Add? {
      TableAtAdd(s, e, limit);
    } else if e.RemoveNow? || e.ReapKey? || e.ClosePool? {
      TableAtRemove(s, e, limit);
    } else {
      TableAtJoin(s, e, limit);
    }
  }

  // ----------------------------------------------------------- counting

  /** A step changes its own caller's phase and no other's. */
  lemma OneCallerMoves(s: Sys, e: Event, limit: string -> nat)
    requires Sound(s) && Enabled(s, e, limit)
    ensures var z := Apply(s, e, limit);
            if !ByCaller(e) then z.callers == s.callers
            else if e.t in z.callers then z.callers == s.callers[e.t := z.callers[e.t]]
            else z.callers == s.callers - {e.t}
  {
    hide Occupied, WellFormed, Enabled, ApplyTable, ApplyWait;
    if OnTable(e) {
      MovesOnTable(s, e, limit);
    } else {
      MovesWaiting(s, e, limit);
    }
  }

  lemma MovesOnTable(s: Sys, e: Event, limit: string -> nat)
    requires Sound(s) && Enabled(s, e, limit) && OnTable(e)
    ensures var z := ApplyTable(s, e, limit);
            if !ByCaller(e) then z.callers == s.callers
            else e.t in z.callers && z.callers == s.callers[e.t := z.callers[e.t]]
  {
    hide Occupied, WellFormed, Touch, Leave, Join, Drop, Insert, Remove, Reap, Close;
  }

  lemma MovesWaiting(s: Sys, e: Event, limit: string -> nat)
    requires Enabled(s, e, limit) && !OnTable(e)
    ensures var z := ApplyWait(s, e, limit);
            if e.t in z.callers then z.callers == s.callers[e.t := z.callers[e.t]] else z.callers == s.callers - {e.t}
  {
    hide Occupied;
  }

  /** The number of users of `c` after a step. */
  lemma UsersAfter(s: Sys, e: Event, limit: string -> nat, c: nat)
    requires Sound(s) && Enabled(s, e, limit)
    ensures var z := Apply(s, e, limit);
            |Users(z.callers, c)| ==
              if !ByCaller(e) || InUseBy(s, e.t, c) == InUseBy(z, e.t, c) then |Users(s.callers, c)|
              else if InUseBy(z, e.t, c) then |Users(s.callers, c)| + 1
              else |Users(s.callers, c)| - 1
  {
    hide Enabled, Apply, Sound;
    OneCallerMoves(s, e, limit);
    var z := Apply(s, e, limit);
    if ByCaller(e) {
      Sizes(Users(s.callers, c), e.t);
      if e.t in z.callers {
        UsersOf(s.callers, e.t, z.callers[e.t], c);
      } else {
        UsersWithout(s.callers, e.t, c);
      }
    }
  }

  lemma CountWaits(s: Sys, e: Event, limit: string -> nat, c: nat)
    requires Sound(s) && Enabled(s, e, limit) && !OnTable(e)
    ensures InUseBy(s, e.t, c) == InUseBy(Apply(s, e, limit), e.t, c) && Apply(s, e, limit).table == s.table
  {
    hide Occupied, WellFormed, ApplyWait, Enabled, InUseBy;
    NothingShut(s, e, limit);
    if Locks(e) {
      UseStaysLocking(s, e, limit, c);
    } else {
      UseStaysMoving(s, e, limit, c);
    }
  }

  lemma UseStaysLocking(s: Sys, e: Event, limit: string -> nat, c: nat)
    requires Enabled(s, e, limit) && !OnTable(e) && Locks(e)
    ensures InUseBy(s, e.t, c) == InUseBy(ApplyWait(s, e, limit), e.t, c)
  {
    hide Occupied;
  }

  lemma UseStaysMoving(s: Sys, e: Event, limit: string -> nat, c: nat)
    requires Enabled(s, e, limit) && !OnTable(e) && !Locks(e)
    ensures InUseBy(s, e.t, c) == InUseBy(ApplyWait(s, e, limit), e.t, c)
  {
    hide Occupied;
  }

  lemma CountAtTable(s: Sys, e: Event, limit: string -> nat, c: nat)
    requires Sound(s) && Enabled(s, e, limit) && OnTable(e) && !e.Add? && c in Apply(s, e, limit).table.entries
    ensures c in s.table.entries
    ensures var z := Apply(s, e, limit);
            z.table.entries[c].active ==
              if !ByCaller(e) || InUseBy(s, e.t, c) == InUseBy(z, e.t, c) then s.table.entries[c].active
              else if InUseBy(z, e.t, c) then s.table.entries[c].active + 1
              else s.table.entries[c].active - 1
  {
    hide InUseBy, Apply, Enabled, Sound;
    if e.LookUp? {
      CountAtLookUp(s, e, limit, c);
    } else if e.Reuse? || e.Release? {
      CountAtTouch(s, e, limit, c);
    } else {
      CountAtRemove(s, e, limit, c);
    }
  }

  lemma CountAtTouch(s: Sys, e: Event, limit: string -> nat, c: nat)
    requires Sound(s) && Enabled(s, e, limit) && (e.Reuse? || e.Release?) && c in Apply(s, e, limit).table.entries
    ensures c in s.table.entries
    ensures var z := Apply(s, e, limit);
            z.table.entries[c].active ==
              if InUseBy(s, e.t, c) == InUseBy(z, e.t, c) then s.table.entries[c].active
              else if InUseBy(z, e.t, c) then s.table.entries[c].active + 1
              else s.table.entries[c].active - 1
  {
    hide Occupied, WellFormed;
  }

  /** Other steps change no count but that of the caller that drops a dead entry. */
  lemma CountAtRemove(s: Sys, e: Event, limit: string -> nat, c: nat)
    requires Sound(s) && Enabled(s, e, limit) && OnTable(e) && c in Apply(s, e, limit).table.entries
    requires !e.Add? && !e.LookUp? && !e.Reuse? && !e.Release?
    ensures c in s.table.entries
    ensures var z := Apply(s, e, limit);
            z.table.entries[c].active ==
              if !ByCaller(e) || InUseBy(s, e.t, c) == InUseBy(z, e.t, c) then s.table.entries[c].active
              else if InUseBy(z, e.t, c) then s.table.entries[c].active + 1
              else s.table.entries[c].active - 1
  {
    hide Occupied, WellFormed;
  }

  lemma CountAtLookUp(s: Sys, e: Event, limit: string -> nat, c: nat)
    requires Sound(s) && Enabled(s, e, limit) && e.LookUp? && c in Apply(s, e, limit).table.entries
    ensures c in s.table.entries
    ensures var z := Apply(s, e, limit);
            z.table.entries[c].active ==
              if InUseBy(s, e.t, c) == InUseBy(z, e.t, c) then s.table.entries[c].active
              else if InUseBy(z, e.t, c) then s.table.entries[c].active + 1
              else s.table.entries[c].active - 1
  {
    hide Occupied;
  }

  lemma CountAtAdd(s: Sys, e: Event, limit: string -> nat, c: nat)
    requires Sound(s) && Enabled(s, e, limit) && e.Add? && c in Apply(s, e, limit).table.entries
    requires s.callers[e.t].client !in s.table.entries
    ensures var z := Apply(s, e, limit);
            if c in s.table.entries
            then z.table.entries[c].active == s.table.entries[c].active && InUseBy(s, e.t, c) == InUseBy(z, e.t, c)
            else z.table.entries[c].active == 1 && InUseBy(z, e.t, c) && !InUseBy(s, e.t, c)
  {
    hide Occupied;
  }

  lemma NobodyUses(s: Sys, c: nat)
    requires Sound(s) && c !in s.table.entries
    ensures Users(s.callers, c) == {}
  {
  }

  lemma NewIsUnknown(s: Sys, e: Event, limit: string -> nat)
    requires CallersInv(s) && Enabled(s, e, limit) && e.Add?
    ensures s.callers[e.t].client !in s.table.entries
  {
    assert CallerOk(s, e.t);
  }

  lemma CountStep(s: Sys, e: Event, limit: string -> nat)
    requires Inv(s, limit) && Sound(s) && Enabled(s, e, limit)
    ensures CountInv(Apply(s, e, limit))
  {
    hide CallersInv, TableInv, SlotInv, KeptInv, Enabled, Apply, Sound, Users, InUseBy;
    var z := Apply(s, e, limit);
    if e.Add? {
      NewIsUnknown(s, e, limit);
    }
    forall c | c in z.table.entries ensures z.table.entries[c].active == |Users(z.callers, c)| {
      UsersAfter(s, e, limit, c);
      if e.Add? {
        CountAtAdd(s, e, limit, c);
        if c !in s.table.entries {
          NobodyUses(s, c);
        }
      } else if OnTable(e) {
        CountAtTable(s, e, limit, c);
      } else {
        CountWaits(s, e, limit, c);
      }
    }
  }

  // ------------------------------------------------------------ slots

  predicate HoldsSlot(s: Sys, t: nat, h: string) {
    t in s.callers && s.callers[t].HasSlot() && s.callers[t].key.host == h
  }

  lemma HoldersAfter(s: Sys, e: Event, limit: string -> nat, h: string)
    requires Sound(s) && Enabled(s, e, limit)
    ensures var z := Apply(s, e, limit);
            |SlotHolders(z.callers, h)| ==
              if !ByCaller(e) || HoldsSlot(s, e.t, h) == HoldsSlot(z, e.t, h) then |SlotHolders(s.callers, h)|
              else if HoldsSlot(z, e.t, h) then |SlotHolders(s.callers, h)| + 1
              else |SlotHolders(s.callers, h)| - 1
  {
    hide Enabled, Apply, Sound;
    OneCallerMoves(s, e, limit);
    var z := Apply(s, e, limit);
    if ByCaller(e) {
      Sizes(SlotHolders(s.callers, h), e.t);
      if e.t in z.callers {
        SlotsOf(s.callers, e.t, z.callers[e.t], h);
      } else {
        SlotsWithout(s.callers, e.t, h);
      }
    }
  }

  /** Only taking a slot and giving one back change a host's count, by the one the caller holds. */
  lemma SlotWaits(s: Sys, e: Event, limit: string -> nat, h: string)
    requires Enabled(s, e, limit) && !OnTable(e) && (HoldsSlot(s, e.t, h) ==> Occupied(s, h) > 0)
    ensures var z := ApplyWait(s, e, limit);
            Occupied(z, h) ==
              if HoldsSlot(s, e.t, h) == HoldsSlot(z, e.t, h) then Occupied(s, h)
              else if HoldsSlot(z, e.t, h) then Occupied(s, h) + 1
              else Occupied(s, h) - 1
    ensures Occupied(ApplyWait(s, e, limit), h) > Occupied(s, h) ==> Occupied(s, h) < limit(h)
  {
    hide HoldsSlot, Occupied, ApplyWait, Enabled;
    if e.AcquireSlot? || e.CancelSleep? || e.CancelKey? || e.FreeSlot? || e.Fail? {
      SlotMoves(s, e, limit, h);
    } else {
      SlotStays(s, e, limit, h);
      SameCount(s, ApplyWait(s, e, limit), h);
    }
  }

  lemma SlotMoves(s: Sys, e: Event, limit: string -> nat, h: string)
    requires (e.AcquireSlot? || e.CancelSleep? || e.CancelKey? || e.FreeSlot? || e.Fail?) && Enabled(s, e, limit)
    requires HoldsSlot(s, e.t, h) ==> Occupied(s, h) > 0
    ensures var z := ApplyWait(s, e, limit);
            Occupied(z, h) ==
              if HoldsSlot(s, e.t, h) == HoldsSlot(z, e.t, h) then Occupied(s, h)
              else if HoldsSlot(z, e.t, h) then Occupied(s, h) + 1
              else Occupied(s, h) - 1
    ensures Occupied(ApplyWait(s, e, limit), h) > Occupied(s, h) ==> Occupied(s, h) < limit(h)
  {
  }

  lemma SlotStays(s: Sys, e: Event, limit: string -> nat, h: string)
    requires Enabled(s, e, limit) && !OnTable(e)
    requires !(e.AcquireSlot? || e.CancelSleep? || e.CancelKey? || e.FreeSlot? || e.Fail?)
    ensures ApplyWait(s, e, limit).slots == s.slots && HoldsSlot(s, e.t, h) == HoldsSlot(ApplyWait(s, e, limit), e.t, h)
  {
    hide Occupied, ApplyWait, Enabled, HoldsSlot;
    if Locks(e) {
      SlotStaysLocking(s, e, limit, h);
    } else {
      SlotStaysMoving(s, e, limit, h);
    }
  }

  lemma SlotStaysLocking(s: Sys, e: Event, limit: string -> nat, h: string)
    requires Enabled(s, e, limit) && !OnTable(e) && Locks(e)
    ensures ApplyWait(s, e, limit).slots == s.slots && HoldsSlot(s, e.t, h) == HoldsSlot(ApplyWait(s, e, limit), e.t, h)
  {
    hide Occupied;
  }

  lemma SlotStaysMoving(s: Sys, e: Event, limit: string -> nat, h: string)
    requires Enabled(s, e, limit) && !OnTable(e) && !Locks(e)
    requires !(e.AcquireSlot? || e.CancelSleep? || e.CancelKey? || e.FreeSlot? || e.Fail?)
    ensures ApplyWait(s, e, limit).slots == s.slots && HoldsSlot(s, e.t, h) == HoldsSlot(ApplyWait(s, e, limit), e.t, h)
  {
    hide Occupied;
  }

  lemma SlotAtTable(s: Sys, e: Event, limit: string -> nat, h: string)
    requires Sound(s) && Enabled(s, e, limit) && OnTable(e)
    ensures ByCaller(e) ==> HoldsSlot(s, e.t, h) == HoldsSlot(ApplyTable(s, e, limit), e.t, h)
  {
    hide Occupied, ApplyTable, Enabled, Sound;
    if ByCaller(e) {
      KeepsLockAndSlot(s, e, limit);
    }
  }

  lemma SlotStep(s: Sys, e: Event, limit: string -> nat)
    requires Inv(s, limit) && Sound(s) && Enabled(s, e, limit)
    ensures SlotInv(Apply(s, e, limit), limit)
  {
    hide CallersInv, TableInv, CountInv, KeptInv, Enabled, ApplyWait, ApplyTable, Sound, SlotHolders, HoldsSlot, Occupied;
    var z := Apply(s, e, limit);
    forall h: string ensures Occupied(z, h) == |SlotHolders(z.callers, h)| <= limit(h) {
      HoldersAfter(s, e, limit, h);
      if OnTable(e) {
        SlotAtTable(s, e, limit, h);
        SameLocks(s, e, limit);
        SameCount(s, z, h);
      } else {
        HolderIsCounted(s, e.t, h);
        SlotWaits(s, e, limit, h);
      }
    }
  }

  lemma SameCount(s: Sys, z: Sys, h: string)
    requires s.slots == z.slots
    ensures Occupied(s, h) == Occupied(z, h)
  {
  }

  lemma HolderIsCounted(s: Sys, t: nat, h: string)
    ensures HoldsSlot(s, t, h) ==> |SlotHolders(s.callers, h)| > 0
  {
    if HoldsSlot(s, t, h) {
      assert t in SlotHolders(s.callers, h);
    }
  }

  // ------------------------------------------------ no connection is lost

  lemma KeptWaits(s: Sys, e: Event, limit: string -> nat, c: nat)
    requires Enabled(s, e, limit) && !OnTable(e) && c in ApplyWait(s, e, limit).made && (c in s.made ==> Kept(s, c))
    ensures Kept(ApplyWait(s, e, limit), c)
  {
    hide Occupied;
    var z := ApplyWait(s, e, limit);
    if e.DialOk? && c == e.client {
      assert z.callers[e.t].kind.Dialed?;
    } else if c !in s.table.shut {
      if k :| k in s.table.connections && s.table.connections[k] == c {
        assert z.table.connections[k] == c;
      } else {
        var t :| t in s.callers && s.callers[t].kind.Dialed? && s.callers[t].client == c;
        assert t in z.callers && z.callers[t].kind.Dialed? && z.callers[t].client == c;
      }
    }
  }

  /** A connection of the table stays in it unless it is closed. */
  lemma MappedIsKept(s: Sys, e: Event, limit: string -> nat, k: Key)
    requires Sound(s) && Enabled(s, e, limit) && OnTable(e) && k in s.table.connections
    requires s.table.connections[k] !in ApplyTable(s, e, limit).table.shut
    requires e.DropDead? && s.callers[e.t].key in s.table.connections ==>
               s.table.connections[s.callers[e.t].key] == s.callers[e.t].client
    requires e.Add? ==> s.callers[e.t].key !in s.table.connections
    ensures var z := ApplyTable(s, e, limit); k in z.table.connections && z.table.connections[k] == s.table.connections[k]
  {
    hide Occupied, WellFormed;
  }

  /** A connection in flight stays so, or its caller adds it to the table. */
  lemma FlyingIsKept(s: Sys, e: Event, limit: string -> nat, t: nat)
    requires Sound(s) && Enabled(s, e, limit) && OnTable(e) && At(s, t, Dialed)
    requires s.callers[t].client !in ApplyTable(s, e, limit).table.shut
    ensures var z := ApplyTable(s, e, limit);
            if e.Add? && e.t == t
            then s.callers[t].key in z.table.connections && z.table.connections[s.callers[t].key] == s.callers[t].client
            else t in z.callers && z.callers[t] == s.callers[t]
  {
    hide Occupied, WellFormed;
  }

  /** What a step does to the connection `c` of the table or in flight. */
  lemma KeptAtTable(s: Sys, e: Event, limit: string -> nat, c: nat)
    requires Sound(s) && Enabled(s, e, limit) && OnTable(e) && Kept(s, c)
    requires e.DropDead? && s.callers[e.t].key in s.table.connections ==>
               s.table.connections[s.callers[e.t].key] == s.callers[e.t].client
    requires e.Add? ==> s.callers[e.t].key !in s.table.connections
    ensures Kept(ApplyTable(s, e, limit), c)
  {
    hide Kept, ApplyTable, Enabled;
    var z := ApplyTable(s, e, limit);
    if c in z.table.shut {
      KeptShut(z, c);
    } else {
      KeptParts(s, c);
      ShutStays(s, e, limit);
      if k :| k in s.table.connections && s.table.connections[k] == c {
        MappedIsKept(s, e, limit, k);
        KeptByTable(z, k);
      } else {
        var t :| t in s.callers && s.callers[t].kind.Dialed? && s.callers[t].client == c;
        FlyingIsKept(s, e, limit, t);
        if e.Add? && e.t == t {
          KeptByTable(z, s.callers[t].key);
        } else {
          KeptInFlight(z, t);
        }
      }
    }
  }

  lemma ShutStays(s: Sys, e: Event, limit: string -> nat)
    requires Sound(s) && Enabled(s, e, limit) && OnTable(e)
    ensures s.table.shut <= ApplyTable(s, e, limit).table.shut
  {
    hide Occupied, WellFormed;
  }

  lemma KeptParts(s: Sys, c: nat)
    requires Kept(s, c)
    ensures c in s.table.shut || (exists k :: k in s.table.connections && s.table.connections[k] == c) ||
            (exists t :: t in s.callers && s.callers[t].kind.Dialed? && s.callers[t].client == c)
  {
  }

  lemma KeptByTable(s: Sys, k: Key)
    requires k in s.table.connections
    ensures Kept(s, s.table.connections[k])
  {
  }

  lemma KeptInFlight(s: Sys, t: nat)
    requires t in s.callers && s.callers[t].kind.Dialed?
    ensures Kept(s, s.callers[t].client)
  {
  }

  lemma KeptShut(s: Sys, c: nat)
    requires c in s.table.shut
    ensures Kept(s, c)
  {
  }

  lemma KeptStep(s: Sys, e: Event, limit: string -> nat)
    requires Inv(s, limit) && Sound(s) && Enabled(s, e, limit)
    ensures KeptInv(Apply(s, e, limit))
  {
    hide TableInv, CountInv, SlotInv, ApplyWait, ApplyTable, Sound, Kept;
    var z := Apply(s, e, limit);
    if OnTable(e) {
      SameLocks(s, e, limit);
    }
    forall c | c in z.made ensures Kept(z, c) {
      if !OnTable(e) {
        KeptWaits(s, e, limit, c);
      } else {
        if e.DropDead? || e.Add? {
          assert CallerOk(s, e.t);
          ClosedIsEmpty(s);
        }
        KeptAtTable(s, e, limit, c);
      }
    }
  }

  lemma ClosedIsEmpty(s: Sys)
    requires TableInv(s)
    ensures s.table.closed ==> s.table.connections == map[]
  {
  }

  // ----------------------------------------------------------- whole runs

  lemma StepKeepsInv(s: Sys, e: Event, limit: string -> nat)
    requires Inv(s, limit) && Sound(s) && Enabled(s, e, limit)
    ensures Inv(Apply(s, e, limit), limit) && Sound(Apply(s, e, limit))
  {
    hide TableInv, CallersInv, CountInv, SlotInv, KeptInv, Sound, Apply, Enabled;
    TableStep(s, e, limit);
    CallersStep(s, e, limit);
    CountStep(s, e, limit);
    SlotStep(s, e, limit);
    KeptStep(s, e, limit);
    InvIsSound(Apply(s, e, limit), limit);
  }

  lemma StartsInOrder(limit: string -> nat)
    ensures Inv(EMPTY, limit) && Sound(EMPTY)
  {
    forall h: string ensures SlotHolders(EMPTY.callers, h) == {} {
    }
  }

  /** The states of a run: each follows from the one before by an enabled step. */
  ghost predicate Run(states: seq<Sys>, events: seq<Event>, limit: string -> nat) {
    && |states| == |events| + 1 && states[0] == EMPTY
    && forall i :: 0 <= i < |events| ==>
         Sound(states[i]) && Enabled(states[i], events[i], limit) && states[i + 1] == Apply(states[i], events[i], limit)
  }

  lemma {:induction false} RunKeepsInv(states: seq<Sys>, events: seq<Event>, limit: string -> nat, n: nat)
    requires Run(states, events, limit) && n < |states|
    ensures Inv(states[n], limit) && Sound(states[n])
    decreases n
  {
    hide Inv, Sound, Enabled, Apply;
    if n == 0 {
      StartsInOrder(limit);
    } else {
      RunKeepsInv(states, events, limit, n - 1);
      StepKeepsInv(states[n - 1], events[n - 1], limit);
    }
  }

  /** The caller `u` holds a lease of the client `c`. */
  predicate HoldsLease(s: Sys, u: nat, c: nat) {
    u in s.callers && s.callers[u].Leases() && s.callers[u].client == c
  }

  /** Main result: in every run, a step that closes a client while a caller leases it is Close, or
      a step of that caller itself. */
  lemma LeasedClientsStayOpen(states: seq<Sys>, events: seq<Event>, limit: string -> nat, n: nat, u: nat, c: nat)
    requires Run(states, events, limit) && n < |events|
    requires HoldsLease(states[n], u, c) && c !in states[n].table.shut && c in states[n + 1].table.shut
    ensures events[n].ClosePool? || (events[n].RemoveNow? && events[n].t == u)
  {
    RunKeepsInv(states, events, limit, n);
    hide CountInv, SlotInv, KeptInv, Run;
    var s, e := states[n], events[n];
    NobodyDisturbed(s, e, u);
    assert CallerOk(s, u);
    if ByCaller(e) && e.t in s.callers {
      assert CallerOk(s, e.t) && PairOk(s, e.t, u);
    }
    hide CallersInv;
    ShutBy(s, e, limit, u, c);
  }

  lemma ShutBy(s: Sys, e: Event, limit: string -> nat, u: nat, c: nat)
    requires Sound(s) && TableInv(s) && Enabled(s, e, limit) && HoldsLease(s, u, c)
    requires c !in s.table.shut && c in Apply(s, e, limit).table.shut
    requires CallerOk(s, u) && Undisturbed(s, e, u)
    requires ByCaller(e) && e.t in s.callers ==> CallerOk(s, e.t) && PairOk(s, e.t, u)
    ensures e.ClosePool? || (e.RemoveNow? && e.t == u)
  {
    hide Occupied, WellFormed, ApplyTable, ApplyWait, Enabled, CallerOk, PairOk, Undisturbed;
    if !OnTable(e) {
      NothingShut(s, e, limit);
    } else if e.RemoveNow? || e.ReapKey? {
      ShutByRemove(s, e, limit, u, c);
    } else if e.ProbeFails? {
      KeepsLockAndSlot(s, e, limit);
      ShutByProbe(s, e, limit, u, c);
    } else {
      ShutByTable(s, e, limit, u, c);
    }
  }

  lemma NothingShut(s: Sys, e: Event, limit: string -> nat)
    requires Enabled(s, e, limit) && !OnTable(e)
    ensures ApplyWait(s, e, limit).table == s.table
  {
    hide Occupied;
  }

  lemma ShutByRemove(s: Sys, e: Event, limit: string -> nat, u: nat, c: nat)
    requires Sound(s) && TableInv(s) && Enabled(s, e, limit) && HoldsLease(s, u, c) && (e.RemoveNow? || e.ReapKey?)
    requires c !in s.table.shut && c in ApplyTable(s, e, limit).table.shut && CallerOk(s, u) && Undisturbed(s, e, u)
    requires ByCaller(e) && e.t in s.callers ==> CallerOk(s, e.t)
    ensures e.RemoveNow? && e.t == u
  {
    hide Occupied, WellFormed;
  }

  lemma ShutByProbe(s: Sys, e: Event, limit: string -> nat, u: nat, c: nat)
    requires Sound(s) && Enabled(s, e, limit) && HoldsLease(s, u, c) && e.ProbeFails? && PairOk(s, e.t, u)
    requires c !in s.table.shut
    ensures c !in ApplyTable(s, e, limit).table.shut
  {
    hide Occupied, WellFormed;
  }

  lemma ShutByTable(s: Sys, e: Event, limit: string -> nat, u: nat, c: nat)
    requires Sound(s) && TableInv(s) && Enabled(s, e, limit) && HoldsLease(s, u, c) && OnTable(e)
    requires !e.RemoveNow? && !e.ReapKey? && !e.ProbeFails? && c !in s.table.shut && c in ApplyTable(s, e, limit).table.shut
    requires CallerOk(s, u) && (ByCaller(e) && e.t in s.callers ==> CallerOk(s, e.t) && PairOk(s, e.t, u))
    ensures e.ClosePool?
  {
    hide Occupied, WellFormed;
  }

  /** The key invariant: while the pool is open, the entry a caller leases stays the entry of its
      key, and open, until that caller's own Remove. */
  lemma LeasedEntryStays(states: seq<Sys>, events: seq<Event>, limit: string -> nat, n: nat, u: nat)
    requires Run(states, events, limit) && n < |states|
    requires u in states[n].callers && states[n].callers[u].Leases() && states[n].callers[u].Binds() && !states[n].table.closed
    ensures var p, x := states[n].callers[u], states[n].table;
            p.key in x.connections && x.connections[p.key] == p.client && p.client !in x.shut
  {
    RunKeepsInv(states, events, limit, n);
    hide Run;
    assert CallerOk(states[n], u);
  }

  /** No connection is lost: every client dial returned is held by one Get, is the entry of its key,
      or is closed; and the table of a closed pool is empty. */
  lemma NoConnectionIsLost(states: seq<Sys>, events: seq<Event>, limit: string -> nat, n: nat)
    requires Run(states, events, limit) && n < |states|
    ensures forall c :: c in states[n].made ==> Kept(states[n], c)
    ensures states[n].table.closed ==> states[n].table.connections == map[]
  {
    RunKeepsInv(states, events, limit, n);
    hide Run;
  }

  /** Adding an entry never replaces one. */
  lemma AddReplacesNothing(states: seq<Sys>, events: seq<Event>, limit: string -> nat, n: nat)
    requires Run(states, events, limit) && n < |events| && events[n].Add?
    ensures var s := states[n];
            At(s, events[n].t, Dialed) && s.callers[events[n].t].key !in s.table.connections
            && s.callers[events[n].t].client !in s.table.entries
  {
    RunKeepsInv(states, events, limit, n);
    assert Enabled(states[n], events[n], limit);
    hide Run;
    assert CallerOk(states[n], events[n].t);
  }

  /** Slot conservation: a host's occupied slots are its callers asleep in Acquire, inside Get or
      Remove, or with a lease, and never more than MaxConns. A call that returned holds none. */
  lemma SlotsAreConserved(states: seq<Sys>, events: seq<Event>, limit: string -> nat, n: nat, h: string)
    requires Run(states, events, limit) && n < |states|
    ensures Occupied(states[n], h) == |SlotHolders(states[n].callers, h)| <= limit(h)
  {
    RunKeepsInv(states, events, limit, n);
    hide Run;
  }

  // -------------------------------------------------------- no deadlock

  /** The step a caller can always take when it waits for no slot and no key lock. */
  function OwnStep(s: Sys, t: nat): Event
    requires t in s.callers
  {
    match s.callers[t].kind
    case WantSlot => AcquireSlot(t)
    case Sleeping => Wake(t)
    case WantKey => LockKey(t)
    case HasKey => LookUp(t)
    case Probing => ProbeFails(t, true)
    case ProbeFailed => DropDead(t, false)
    case Reusing => Reuse(t, 0)
    case Dialing => DialFails(t)
    case Dialed => Add(t, 0)
    case Returning => Return(t)
    case Leased => Release(t, 0)
    case WantRemove => LockRemove(t)
    case Removing => RemoveNow(t)
    case RemoveDone => UnlockRemove(t)
    case Removed => Release(t, 0)
    case Releasing => FreeSlot(t)
    case Failing => Fail(t)
    case Exiting => Exit(t)
  }

  predicate Waits(k: Kind) {
    k.WantSlot? || k.WantKey? || k.WantRemove?
  }

  lemma OwnStepIsEnabled(s: Sys, t: nat, limit: string -> nat)
    requires t in s.callers && !Waits(s.callers[t].kind)
    ensures Enabled(s, OwnStep(s, t), limit)
  {
  }

  /** Nobody deadlocks: while any call is under way some caller can take its own next step, with
      nothing cancelled. */
  lemma NoDeadlock(states: seq<Sys>, events: seq<Event>, limit: string -> nat, n: nat) returns (t: nat)
    requires Run(states, events, limit) && n < |states| && states[n].callers != map[]
    requires forall h: string :: limit(h) > 0
    ensures t in states[n].callers && Enabled(states[n], OwnStep(states[n], t), limit)
  {
    RunKeepsInv(states, events, limit, n);
    hide Run;
    t := SomeoneCanMove(states[n], limit);
  }

  lemma SomeoneCanMove(s: Sys, limit: string -> nat) returns (t: nat)
    requires Inv(s, limit) && s.callers != map[] && forall h: string :: limit(h) > 0
    ensures t in s.callers && Enabled(s, OwnStep(s, t), limit)
  {
    hide CountInv, KeptInv, TableInv, CallerOk, PairOk, MappedOk, Enabled, OwnStep, SlotHolders, Occupied;
    if u :| u in s.callers && !Waits(s.callers[u].kind) {
      t := u;
      OwnStepIsEnabled(s, t, limit);
    } else {
      t :| t in s.callers;
      if u :| u in s.callers && !s.callers[u].kind.WantSlot? {
        t := u;
        LocksAreHeld(s);
        FreeLockIsEnabled(s, t, limit);
      } else {
        NoHolders(s, s.callers[t].key.host);
        FreeSlotIsEnabled(s, t, limit);
      }
    }
  }

  lemma LocksAreHeld(s: Sys)
    requires forall k :: k in s.locks ==> LockOk(s, k)
    ensures forall k :: k in s.locks ==> s.locks[k] in s.callers && !Waits(s.callers[s.locks[k]].kind)
  {
    forall k | k in s.locks ensures s.locks[k] in s.callers && !Waits(s.callers[s.locks[k]].kind) {
      assert LockOk(s, k);
    }
  }

  lemma FreeLockIsEnabled(s: Sys, t: nat, limit: string -> nat)
    requires t in s.callers && (s.callers[t].kind.WantKey? || s.callers[t].kind.WantRemove?) && s.callers[t].key !in s.locks
    ensures Enabled(s, OwnStep(s, t), limit)
  {
  }

  lemma FreeSlotIsEnabled(s: Sys, t: nat, limit: string -> nat)
    requires t in s.callers && s.callers[t].kind.WantSlot? && Occupied(s, s.callers[t].key.host) < limit(s.callers[t].key.host)
    ensures Enabled(s, OwnStep(s, t), limit)
  {
  }

  lemma NoHolders(s: Sys, h: string)
    requires forall t :: t in s.callers ==> s.callers[t].kind.WantSlot?
    ensures SlotHolders(s.callers, h) == {}
  {
  }
}
