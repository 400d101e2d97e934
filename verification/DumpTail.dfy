/** tailWriter and verifyDump of internal/cmd/dump.go: telling a complete dump by its last line
    while keeping only its last 4096 bytes. */
module DumpTail {
  import opened Text

  const TRAILER := "-- Dump completed"
  const TAIL_SIZE := 4096

  function LastBytes(s: string): (t: string)
    ensures |t| == if |s| <= TAIL_SIZE then |s| else TAIL_SIZE
  {
    if |s| <= TAIL_SIZE then s else s[|s| - TAIL_SIZE..]
  }

  predicate IsTrimmed(c: char) {
    c == ' ' || c == '\t' || c == '\r' || c == '\n'
  }

  function Trimmed(s: string): (t: string)
    ensures |t| <= |s| && t == s[..|t|]
    ensures t != "" ==> !IsTrimmed(t[|t| - 1])
    ensures forall k :: |t| <= k < |s| ==> IsTrimmed(s[k])
  {
    if s != "" && IsTrimmed(s[|s| - 1]) then Trimmed(s[..|s| - 1]) else s
  }

  /** The position after the last newline. */
  function LastLineStart(s: string): (i: nat)
    ensures i <= |s|
    ensures i > 0 ==> s[i - 1] == '\n'
    ensures forall k :: i <= k < |s| ==> s[k] != '\n'
  {
    if s == "" || s[|s| - 1] == '\n' then |s| else LastLineStart(s[..|s| - 1])
  }

  /** The last line of the stream that is not blank. */
  function LastLine(stream: string): string {
    var t := Trimmed(stream);
    t[LastLineStart(t)..]
  }

  /** The start of that line can be told from the kept bytes: nothing was dropped, or the newline
      before it was kept. */
  predicate StartIsKept(stream: string) {
    var i := LastLineStart(Trimmed(stream));
    |stream| <= TAIL_SIZE || (i > 0 && i - 1 >= |stream| - TAIL_SIZE)
  }

  /** What the writer knows after the stream. */
  predicate EndsWithTrailer(n: nat, buf: string) {
    var t := Trimmed(buf);
    var i := LastLineStart(t);
    !(i == 0 && n > |buf|) && TRAILER <= t[i..]
  }

  class TailWriter {
    var n: nat
    var buf: string
    ghost var stream: string   // everything written

    ghost predicate Valid()
      reads this
    {
      n == |stream| && buf == LastBytes(stream)
    }

    constructor ()
      ensures Valid() && stream == ""
    {
      n, buf, stream := 0, "", "";
    }

    method Write(p: string) returns (written: nat)
      requires Valid()
      modifies this
      ensures Valid() && stream == old(stream) + p && written == |p|
    {
      KeepsLast(stream, p);
      n := n + |p|;
      buf := buf + p;
      if |buf| > TAIL_SIZE {
        buf := buf[|buf| - TAIL_SIZE..];
      }
      stream := stream + p;
      written := |p|;
    }

    method Ends() returns (complete: bool)
      requires Valid()
      ensures complete == (TRAILER <= LastLine(stream) && StartIsKept(stream))
    {
      var t := Trimmed(buf);
      var i := LastLineStart(t);
      TailDecides(stream);
      complete := !(i == 0 && n > |buf|) && TRAILER <= t[i..];
    }

    /** verifyDump, for a stream that ended with the exit code. */
    method Verify(exitCode: int) returns (ok: bool)
      requires Valid()
      ensures ok == Verified(exitCode, stream)
    {
      if exitCode != 0 || n == 0 {
        return false;
      }
      ok := Ends();
    }
  }

  /** A dump that may be published. */
  predicate Verified(exitCode: int, stream: string) {
    exitCode == 0 && stream != "" && TRAILER <= LastLine(stream) && StartIsKept(stream)
  }

  /** Keeping the last bytes of every write keeps the last bytes of the whole. */
  lemma KeepsLast(s: string, p: string)
    ensures LastBytes(LastBytes(s) + p) == LastBytes(s + p)
  {
  }

  lemma TrimmedIs(s: string, n: nat)
    requires n <= |s| && (n > 0 ==> !IsTrimmed(s[n - 1])) && forall k :: n <= k < |s| ==> IsTrimmed(s[k])
    ensures Trimmed(s) == s[..n]
  {
  }

  lemma LastLineStartIs(s: string, i: nat)
    requires i <= |s| && (i > 0 ==> s[i - 1] == '\n') && forall k :: i <= k < |s| ==> s[k] != '\n'
    ensures LastLineStart(s) == i
  {
  }

  /** Main result: the kept bytes show a trailer exactly when the last non-blank line of the whole
      stream starts with it and that line's start is known to be kept. */
  lemma TailDecides(stream: string)
    ensures EndsWithTrailer(|stream|, LastBytes(stream)) <==> TRAILER <= LastLine(stream) && StartIsKept(stream)
  {
    var buf := LastBytes(stream);
    var k := |stream| - |buf|;
    var t := Trimmed(stream);
    var i := LastLineStart(t);
    hide Trimmed, LastLineStart;
    if |t| >= k {
      assert buf == stream[k..];
      TrimmedIs(buf, |t| - k);
      var u := Trimmed(buf);
      assert u == t[k..];
      if i >= k && !(i == k && k > 0) {
        LastLineStartIs(u, i - k);
        assert u[i - k..] == t[i..];
      } else {
        LastLineStartIs(u, 0);
      }
    } else {
      TrimmedIs(buf, 0);
      assert Trimmed(buf) == "";
    }
  }

  predicate IsBlankByte(c: char) {
    c == ' ' || c == '\t' || c == '\r' || c == '\n'
  }

  /** stream[i..e] is the last line that is not blank, without the white space behind it, and starts with
      the trailer; the newline before it is among the last 4096 bytes, or nothing is before those. */
  predicate TrailerAt(stream: string, i: nat, e: nat) {
    && i + 17 <= e <= |stream| && (forall k :: e <= k < |stream| ==> IsBlankByte(stream[k])) && !IsBlankByte(stream[e - 1])
    && (i == 0 || stream[i - 1] == '\n') && (forall k :: i <= k < e ==> stream[k] != '\n')
    && stream[i..i + 17] == "-- Dump completed"
    && (|stream| <= 4096 || (i > 0 && i - 1 >= |stream| - 4096))
  }

  /** A dump is verified exactly when it exited 0 and shows its trailer there. */
  lemma VerifiedIs(exitCode: int, stream: string)
    ensures Verified(exitCode, stream) <==> exitCode == 0 && exists i: nat, e: nat :: TrailerAt(stream, i, e)
  {
    hide Trimmed, LastLineStart;
    var t := Trimmed(stream);
    var i := LastLineStart(t);
    if Verified(exitCode, stream) {
      assert t[i..][..17] == stream[i..i + 17];
      assert TrailerAt(stream, i, |t|);
    }
    if j: nat, e: nat :| TrailerAt(stream, j, e) {
      TrimmedIs(stream, e);
      LastLineStartIs(stream[..e], j);
      assert stream[..e][j..][..17] == stream[j..j + 17];
    }
  }

  /** Every sequence of writes counts and keeps what one write of the whole would. */
  method WriteAll(ps: seq<string>) returns (w: TailWriter)
    ensures fresh(w) && w.Valid() && w.stream == Flatten(ps)
  {
    w := new TailWriter();
    for i := 0 to |ps|
      invariant fresh(w) && w.Valid() && w.stream == Flatten(ps[..i])
    {
      var _ := w.Write(ps[i]);
      FlattenNext(ps, i);
    }
    assert ps[..|ps|] == ps;
  }
}
