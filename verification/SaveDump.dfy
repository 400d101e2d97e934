/** saveDump of internal/cmd/dump.go on a small file system that other processes use too. */
module SaveDump {
  import opened Text
  import opened DumpTail

  /** Files by path. `theirs` are the files that were there before or that another process created;
      `ours` are the ones saveDump made. */
  class FileSystem {
    var files: map<string, string>
    ghost var theirs: map<string, string>
    ghost var ours: map<string, string>

    ghost predicate Valid()
      reads this
    {
      files == theirs + ours && theirs.Keys !! ours.Keys
    }

    constructor (files: map<string, string>)
      ensures Valid() && theirs == files && ours == map[]
    {
      this.files, this.theirs, this.ours := files, files, map[];
    }

    /** Another process creates files; creating one that exists fails. */
    method Others(created: map<string, string>)
      requires Valid()
      modifies this
      ensures Valid() && ours == old(ours) && theirs == old(theirs) + (created - old(files).Keys)
    {
      theirs := theirs + (created - files.Keys);
      files := created + files;
    }

    method Exists(path: string) returns (found: bool)
      requires Valid()
      ensures found == (path in theirs || path in ours)
    {
      found := path in files;
    }

    /** Creates an empty file; fails when it exists. */
    method CreateNew(path: string, fails: bool) returns (ok: bool)
      requires Valid()
      modifies this`files, this`ours
      ensures Valid() && ok == (!fails && path !in theirs && path !in old(ours))
      ensures ours == if ok then old(ours)[path := ""] else old(ours)
    {
      ok := !fails && path !in files;
      if ok {
        files, ours := files[path := ""], ours[path := ""];
      }
    }

    method Append(path: string, p: string)
      requires Valid() && path in ours
      modifies this`files, this`ours
      ensures Valid() && ours == old(ours)[path := old(ours)[path] + p]
    {
      ours := ours[path := ours[path] + p];
      files := files[path := files[path] + p];
    }

    /** A hard link; fails when the new path exists. */
    method Link(from: string, to: string, fails: bool) returns (exists_: bool, ok: bool)
      requires Valid() && from in ours && to !in ours
      modifies this`files, this`ours
      ensures Valid() && exists_ == (to in theirs) && ok == (!fails && !exists_)
      ensures ours == if ok then old(ours)[to := old(ours)[from]] else old(ours)
    {
      exists_ := to in files;
      ok := !fails && !exists_;
      if ok {
        ours := ours[to := ours[from]];
        files := files[to := files[from]];
      }
    }

    method Remove(path: string, fails: bool) returns (ok: bool)
      requires Valid() && path in ours
      modifies this`files, this`ours
      ensures Valid() && ok == !fails && ours == if ok then old(ours) - {path} else old(ours)
    {
      ok := !fails;
      if ok {
        files, ours := files - {path}, ours - {path};
      }
    }
  }

  /** Every file of `a` is still there in `b`, unchanged. */
  ghost predicate Kept(a: map<string, string>, b: map<string, string>) {
    forall p :: p in a ==> p in b && b[p] == a[p]
  }

  datatype Failure = AlreadyExists | CreateFailed | StreamFailed | Rejected | SyncFailed | CloseFailed | LinkFailed

  datatype SavedDump = SavedDump(path: string, bytes: nat, sha256: string)

  /** What saveDump returns. `tempLeft` names a temp file that could not be removed. */
  datatype Outcome =
    | Saved(dump: SavedDump, tempLeft: bool)
    | Failed(why: Failure, tempLeft: bool)

  /** The command's stdout, write by write, and how it ended. */
  datatype Stream = Stream(writes: seq<string>, failed: bool, exitCode: int)

  /** Which file operations fail. */
  datatype Faults = Faults(stat: bool, create: bool, sync: bool, close: bool, link: bool, remove: bool)

  /** What other processes create at each point where they may. */
  datatype Interference = Interference(atStart: map<string, string>, afterStat: map<string, string>,
                                       duringStream: nat -> map<string, string>,
                                       beforeLink: map<string, string>, beforeRemove: map<string, string>)

  class Saver {
    const fs: FileSystem
    const path: string
    const temp: string
    const sha256: string -> string
    const faults: Faults

    constructor (fs: FileSystem, path: string, temp: string, sha256: string -> string, faults: Faults)
      ensures this.fs == fs && this.path == path && this.temp == temp && this.sha256 == sha256 && this.faults == faults
    {
      this.fs, this.path, this.temp, this.sha256, this.faults := fs, path, temp, sha256, faults;
    }

    /** Copies the stream to the temp file and the tail. */
    method Copy(writes: seq<string>, others: nat -> map<string, string>) returns (tail: TailWriter)
      requires fs.Valid() && fs.ours == map[temp := ""]
      modifies fs
      ensures fs.Valid() && fs.ours == map[temp := Flatten(writes)] && Kept(old(fs.theirs), fs.theirs)
      ensures fresh(tail) && tail.Valid() && tail.stream == Flatten(writes)
    {
      hide Flatten, TailWriter.Valid;
      tail := new TailWriter();
      FlattenNone(writes);
      for i := 0 to |writes|
        invariant fs.Valid() && fs.ours == map[temp := Flatten(writes[..i])] && Kept(old(fs.theirs), fs.theirs)
        invariant fresh(tail) && tail.Valid() && tail.stream == Flatten(writes[..i])
      {
        fs.Others(others(i));
        fs.Append(temp, writes[i]);
        var _ := tail.Write(writes[i]);
        FlattenNext(writes, i);
      }
      assert writes[..|writes|] == writes;
    }

    /** Checks the copied stream and links it to its path. */
    method Publish(stream: Stream, tail: TailWriter, others: map<string, string>) returns (why: Option<Failure>)
      requires fs.Valid() && temp != path && fs.ours == map[temp := Flatten(stream.writes)]
      requires tail.Valid() && tail.stream == Flatten(stream.writes)
      modifies fs
      ensures fs.Valid() && Kept(old(fs.theirs), fs.theirs)
      ensures fs.ours == if why == None then map[temp := tail.stream, path := tail.stream] else map[temp := tail.stream]
      ensures why == None ==> !stream.failed && Verified(stream.exitCode, tail.stream)
      ensures why == Some(StreamFailed) <==> stream.failed
      ensures why == Some(Rejected) <==> !stream.failed && !Verified(stream.exitCode, tail.stream)
      ensures !stream.failed && Verified(stream.exitCode, tail.stream) ==>
                && (why == Some(SyncFailed) <==> faults.sync)
                && (why == Some(CloseFailed) <==> !faults.sync && faults.close)
                && (why == Some(AlreadyExists) <==> !faults.sync && !faults.close && path in fs.theirs)
                && (why == Some(LinkFailed) <==> !faults.sync && !faults.close && path !in fs.theirs && faults.link)
                && (why == None <==> !faults.sync && !faults.close && path !in fs.theirs && !faults.link)
    {
      if stream.failed {
        return Some(StreamFailed);
      }
      var ok := tail.Verify(stream.exitCode);
      if !ok {
        return Some(Rejected);
      }
      if faults.sync {
        return Some(SyncFailed);
      }
      if faults.close {
        return Some(CloseFailed);
      }
      fs.Others(others);
      var taken, linked := fs.Link(temp, path, faults.link);
      if taken {
        return Some(AlreadyExists);
      }
      why := if linked then None else Some(LinkFailed);
    }

    /** Creates the temp file, unless the destination exists. */
    method OpenTemp(env: Interference) returns (why: Option<Failure>)
      requires fs.Valid() && fs.ours == map[]
      modifies fs
      ensures fs.Valid() && Kept(old(fs.theirs), fs.theirs)
      ensures fs.ours == if why == None then map[temp := ""] else map[]
      ensures why.Some? ==> (why.value.AlreadyExists? && path in fs.theirs) ||
                            (why.value.CreateFailed? && (faults.create || temp in fs.theirs))
    {
      fs.Others(env.atStart);
      var found := fs.Exists(path);
      if found && !faults.stat {
        return Some(AlreadyExists);
      }
      fs.Others(env.afterStat);
      var created := fs.CreateNew(temp, faults.create);
      why := if created then None else Some(CreateFailed);
    }

    /** The failure happened: it is reported for no other reason. */
    ghost predicate Explains(why: Failure, stream: Stream, theirs: map<string, string>) {
      match why
      case AlreadyExists => path in theirs
      case CreateFailed => faults.create || temp in theirs
      case StreamFailed => stream.failed
      case Rejected => !stream.failed && !Verified(stream.exitCode, Flatten(stream.writes))
      case SyncFailed => faults.sync
      case CloseFailed => faults.close
      case LinkFailed => faults.link
    }

    /** Saves a dump. Nobody's file changes, at the destination or elsewhere; a saved dump holds
        exactly the bytes that were streamed and checked; and an error other than a temp file left
        behind published nothing. */
    method Save(stream: Stream, env: Interference) returns (r: Outcome)
      requires fs.Valid() && fs.ours == map[] && temp != path
      modifies fs
      ensures fs.Valid() && Kept(old(fs.theirs), fs.theirs)
      ensures fs.ours == (if r.Saved? then map[path := Flatten(stream.writes)] else map[]) +
                         (if r.tempLeft then map[temp := Flatten(stream.writes)] else map[])
      ensures r.Saved? ==>
                && !stream.failed && Verified(stream.exitCode, Flatten(stream.writes)) && path !in fs.theirs
                && r.dump == SavedDump(path, |Flatten(stream.writes)|, sha256(Flatten(stream.writes)))
      ensures r.Failed? ==> Explains(r.why, stream, fs.theirs)
      ensures r.tempLeft ==> faults.remove
      ensures r.Failed? && !stream.failed && Verified(stream.exitCode, Flatten(stream.writes)) ==>
                path in fs.theirs || temp in fs.theirs || faults.create || faults.sync || faults.close || faults.link
    {
      hide Verified, Flatten;
      var refused := OpenTemp(env);
      if refused.Some? {
        return Failed(refused.value, false);
      }
      var tail := Copy(stream.writes, env.duringStream);
      var why := Publish(stream, tail, env.beforeLink);
      ghost var text := tail.stream;
      var removed := RemoveTemp(why == None, text, env.beforeRemove);
      r := match why
           case None => Saved(SavedDump(path, tail.n, sha256(Flatten(stream.writes))), !removed)
           case Some(f) => Failed(f, !removed);
    }

    /** Removes the temp file, whatever happened before. */
    method RemoveTemp(published: bool, ghost text: string, others: map<string, string>) returns (removed: bool)
      requires fs.Valid() && temp != path
      requires fs.ours == if published then map[temp := text, path := text] else map[temp := text]
      modifies fs
      ensures fs.Valid() && Kept(old(fs.theirs), fs.theirs) && removed == !faults.remove
      ensures fs.ours == (if published then map[path := text] else map[]) + (if !removed then map[temp := text] else map[])
    {
      fs.Others(others);
      removed := fs.Remove(temp, faults.remove);
      OnlyOurs(fs.ours, published, removed, path, temp, text);
    }
  }

  /** What is left of our two files. */
  lemma OnlyOurs(ours: map<string, string>, published: bool, removed: bool, path: string, temp: string, text: string)
    requires temp != path
    requires var both := if published then map[temp := text, path := text] else map[temp := text];
             ours == if removed then both - {temp} else both
    ensures ours == (if published then map[path := text] else map[]) + (if !removed then map[temp := text] else map[])
  {
  }
}
