/** restoreDB and stageDump of internal/cmd/db_import.go as a traced protocol.

    The trace lists what happened to the outside, in order. A database restore imports only bytes
    that were scanned and only after a backup. They are the whole dump when no read or write of the
    copy failed; a failure the scanner does not notice leaves a shorter one. */
module RestoreDb {
  import opened Text
  import S = Statements
  import L = DumpLexer
  import F = ReadFaults
  import D = DumpScan

  const IMPORT_MODE := "NO_AUTO_VALUE_ON_ZERO"

  const IMPORT_PREAMBLE := "SET SESSION sql_mode='" + IMPORT_MODE + "';\n" + "SET NAMES utf8mb4;\n"

  datatype Action =
    | ReadDatabaseName(name: Option<string>)
    | Stage(staged: string)
    | ShowPlan
    | Backup(bytes: Option<nat>)
    | Import(payload: string)
    | RemoveStaged

  datatype Request = Request(chunks: seq<string>, confirmed: bool, dryRun: bool)

  /** The source fails to be read, or its copy to be written, once `at` bytes were copied: a read fails,
      `again` more fail after it, and then the source ends. */
  datatype Failure = Failure(at: nat, again: nat)

  /** What the target and the file system answer; a backup that fails has no size. */
  datatype Answers = Answers(database: Option<string>, createFails: bool, failure: Option<Failure>,
                             backup: Option<nat>, rewindFails: bool, importFails: bool, exitCode: int)

  datatype Result = Result(imported: bool, backedUp: Option<nat>, failed: bool)

  /** countWriter: counts what is written and keeps whether a write failed. */
  class CountWriter {
    var n: nat
    var err: bool
    var copied: string

    constructor ()
      ensures n == 0 && !err && copied == ""
    {
      n, err, copied := 0, false, "";
    }

    /** Writes `p`, of which `done` bytes were written. */
    method Write(p: string, done: nat, fails: bool) returns (written: nat)
      requires done <= |p| && (!fails ==> done == |p|)
      modifies this
      ensures copied == old(copied) + p[..done] && n == old(n) + done && written == done
      ensures err == (old(err) || fails)
    {
      written := done;
      copied := copied + p[..done];
      n := n + written;
      err := err || fails;
    }
  }

  // ------------------------------------------------------ what is delivered

  /** The first `at` bytes, in the reads that deliver them. */
  function Upto(chunks: seq<string>, at: nat): seq<string> {
    if chunks == [] || at == 0 then []
    else if |chunks[0]| <= at then [chunks[0]] + Upto(chunks[1..], at - |chunks[0]|)
    else [chunks[0][..at]]
  }

  function Delivered(chunks: seq<string>, failure: Option<Failure>): seq<string> {
    if failure.None? then chunks else Upto(chunks, failure.value.at)
  }

  function Faults(failure: Option<Failure>): nat {
    if failure.None? then 0 else 1 + failure.value.again
  }

  /** The bytes the scanner is given: all of the source, or what comes before the failure. */
  function Copied(chunks: seq<string>, failure: Option<Failure>): string {
    Flatten(Delivered(chunks, failure))
  }

  lemma {:induction false} UptoIsPrefix(chunks: seq<string>, at: nat)
    ensures Flatten(Upto(chunks, at)) == Flatten(chunks)[..if at <= |Flatten(chunks)| then at else |Flatten(chunks)|]
    ensures (forall k :: 0 <= k < |chunks| ==> chunks[k] != "") ==>
              forall k :: 0 <= k < |Upto(chunks, at)| ==> Upto(chunks, at)[k] != ""
  {
    if chunks != [] && at > 0 {
      if |chunks[0]| <= at {
        UptoIsPrefix(chunks[1..], at - |chunks[0]|);
        assert ([chunks[0]] + Upto(chunks[1..], at - |chunks[0]|))[1..] == Upto(chunks[1..], at - |chunks[0]|);
      } else {
        assert Flatten([chunks[0][..at]]) == chunks[0][..at] + Flatten([]);
      }
    }
  }

  lemma CopiedIsPrefix(chunks: seq<string>, failure: Option<Failure>)
    ensures Copied(chunks, failure) <= Flatten(chunks) && (failure.None? ==> Copied(chunks, failure) == Flatten(chunks))
  {
    if failure.Some? {
      UptoIsPrefix(chunks, failure.value.at);
    }
  }

  /** Copies the dump into the staging file while scanning it. A failed read or write refuses the dump
      only if the scanner notices it. */
  method StageDump(chunks: seq<string>, database: string, order: S.Order, a: Answers) returns (staged: Option<string>)
    requires forall k :: 0 <= k < |chunks| ==> chunks[k] != ""
    ensures staged.Some? <==> !a.createFails && Copied(chunks, a.failure) != "" &&
                              F.Accepts(order, Copied(chunks, a.failure), database, Faults(a.failure))
    ensures staged.Some? ==> staged.value == Copied(chunks, a.failure) && staged.value <= Flatten(chunks)
    ensures staged.Some? && a.failure.None? ==> staged.value == Flatten(chunks) && L.Accepts(order, staged.value, database)
  {
    hide L.Accepts, F.Accepts, Flatten, Upto;
    if a.createFails {
      return None;
    }
    CopiedIsPrefix(chunks, a.failure);
    if a.failure.Some? {
      UptoIsPrefix(chunks, a.failure.value.at);
    }
    F.FaultsSurface(order, Copied(chunks, a.failure), database, Faults(a.failure));
    var counter := new CountWriter();
    var ok, copy := D.ScanDump(Delivered(chunks, a.failure), Faults(a.failure), database, order);
    var _ := counter.Write(copy, |copy|, false);
    if a.failure.Some? {
      var _ := counter.Write("", 0, true);
    }
    assert counter.copied == copy;
    if !ok || counter.n == 0 {
      return None;
    }
    staged := Some(counter.copied);
  }

  /** The dump is copied and scanned, in a dry run for no database. */
  predicate MayStage(req: Request, a: Answers, order: S.Order) {
    && (req.dryRun || a.database.Some?)
    && !a.createFails && Copied(req.chunks, a.failure) != ""
    && F.Accepts(order, Copied(req.chunks, a.failure), if req.dryRun then "" else a.database.value, Faults(a.failure))
  }

  predicate MayBackUp(req: Request, a: Answers, order: S.Order) {
    MayStage(req, a, order) && req.confirmed && !req.dryRun
  }

  /** The import may start. */
  predicate MayImport(req: Request, a: Answers, order: S.Order) {
    && !req.dryRun && req.confirmed && a.database.Some?
    && !a.createFails && Copied(req.chunks, a.failure) != ""
    && F.Accepts(order, Copied(req.chunks, a.failure), a.database.value, Faults(a.failure))
    && a.backup.Some? && a.backup.value > 0 && !a.rewindFails
  }

  /** Restores a database. */
  method RestoreDB(req: Request, order: S.Order, a: Answers) returns (res: Result, trace: seq<Action>)
    requires forall k :: 0 <= k < |req.chunks| ==> req.chunks[k] != ""
    ensures res.imported == MayImport(req, a, order)
    ensures trace == (if req.dryRun then [] else [ReadDatabaseName(a.database)])
                     + (if MayStage(req, a, order) then [Stage(Copied(req.chunks, a.failure)), ShowPlan] else [])
                     + (if MayBackUp(req, a, order) then [Backup(a.backup)] else [])
                     + (if MayImport(req, a, order) then [Import(IMPORT_PREAMBLE + Copied(req.chunks, a.failure))] else [])
                     + (if MayStage(req, a, order) then [RemoveStaged] else [])
    ensures res.failed <==> !(req.dryRun && MayStage(req, a, order)) && !(res.imported && !a.importFails && a.exitCode == 0)
    ensures res.backedUp == if MayBackUp(req, a, order) && a.backup.Some? && a.backup.value > 0 then a.backup else None
    ensures res.imported ==> trace == [
              ReadDatabaseName(a.database), Stage(Copied(req.chunks, a.failure)), ShowPlan, Backup(a.backup),
              Import(IMPORT_PREAMBLE + Copied(req.chunks, a.failure)), RemoveStaged]
    ensures res.imported && a.failure.None? ==> Copied(req.chunks, a.failure) == Flatten(req.chunks)
    ensures !res.imported ==> forall i :: 0 <= i < |trace| ==> !trace[i].Import?
    ensures (exists i :: 0 <= i < |trace| && trace[i].Stage?) ==> trace[|trace| - 1] == RemoveStaged
    ensures (exists i :: 0 <= i < |trace| && trace[i].Backup?) ==> req.confirmed && !req.dryRun
  {
    hide L.Accepts, F.Accepts, Flatten, Upto;
    trace, res := [], Result(false, None, true);
    var database := "";
    if !req.dryRun {
      trace := [ReadDatabaseName(a.database)];
      if a.database.None? {
        return;
      }
      database := a.database.value;
    }
    var staged := StageDump(req.chunks, database, order, a);
    if staged.None? {
      return;
    }
    trace := trace + [Stage(staged.value), ShowPlan];
    if req.dryRun {
      return Result(false, None, false), trace + [RemoveStaged];
    }
    if !req.confirmed {
      return Result(false, None, true), trace + [RemoveStaged];
    }
    trace := trace + [Backup(a.backup)];
    if a.backup.None? || a.backup.value == 0 {
      return Result(false, None, true), trace + [RemoveStaged];
    }
    if a.rewindFails {
      return Result(false, a.backup, true), trace + [RemoveStaged];
    }
    trace := trace + [Import(IMPORT_PREAMBLE + staged.value), RemoveStaged];
    res := Result(true, a.backup, a.importFails || a.exitCode != 0);
  }
}
