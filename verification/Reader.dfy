/** The buffered reader of scanDump and the copy stageDump takes of everything it reads.

    The source delivers the dump as a list of non-empty chunks, one for each read, after which
    `faults` reads fail before the end is reported. `text` is what is delivered and `pos` how much
    of it the scanner has consumed. */
module BufferedReader {
  import opened Text
  import opened ReadFaults

  const SIZE := 0x1_0000

  datatype Slice = Found | Full | AtEnd | Failed

  /** What one read of the source gives. */
  datatype Filled = Delivered | Fault | EOF

  lemma FlattenCons(chunk: string, rest: seq<string>)
    ensures Flatten([chunk] + rest) == chunk + Flatten(rest)
  {
    assert ([chunk] + rest)[1..] == rest;
  }

  lemma FirstChunkIsRead(chunks: seq<string>)
    ensures chunks != [] ==> |Flatten(chunks)| >= |chunks[0]|
  {
  }

  class Reader {
    ghost const text: string
    ghost var pos: nat
    var buf: string
    var chunks: seq<string>
    var faults: nat
    var staged: string

    ghost predicate Valid()
      reads this
    {
      && pos <= |text|
      && text[pos..] == buf + Flatten(chunks)
      && text == staged + Flatten(chunks)
      && |buf| <= SIZE
      && forall k :: 0 <= k < |chunks| ==> chunks[k] != ""
    }

    constructor (chunks: seq<string>, faults: nat)
      requires forall k :: 0 <= k < |chunks| ==> chunks[k] != ""
      ensures Valid() && text == Flatten(chunks) && pos == 0 && this.faults == faults
    {
      this.text, this.pos := Flatten(chunks), 0;
      this.buf, this.staged := "", "";
      this.chunks, this.faults := chunks, faults;
    }

    /** One read: as much of the next chunk as fits. */
    method Fill() returns (r: Filled)
      requires Valid() && |buf| < SIZE
      modifies this`buf, this`chunks, this`faults, this`staged
      ensures Valid()
      ensures !r.Delivered? ==> buf == old(buf) && text[pos..] == buf && r.Fault? == (old(faults) > 0)
      ensures r.Delivered? ==> |buf| > |old(buf)| && old(buf) <= buf
      ensures faults == if r.Fault? then old(faults) - 1 else old(faults)
    {
      if chunks == [] {
        if faults == 0 {
          return EOF;
        }
        faults := faults - 1;
        return Fault;
      }
      var chunk := chunks[0];
      var n := if |chunk| <= SIZE - |buf| then |chunk| else SIZE - |buf|;
      var rest := if n == |chunk| then chunks[1..] else [chunk[n..]] + chunks[1..];
      assert Flatten(chunks) == chunk[..n] + Flatten(rest) by {
        assert chunk == chunk[..n] + chunk[n..];
        if n < |chunk| {
          FlattenCons(chunk[n..], chunks[1..]);
        }
      }
      buf, staged, chunks := buf + chunk[..n], staged + chunk[..n], rest;
      r := Delivered;
    }

    /** The next `n` bytes, or all that are left; nothing is consumed. An error is dropped. */
    method Peek(n: nat) returns (head: string)
      requires Valid() && n <= SIZE
      modifies this`buf, this`chunks, this`faults, this`staged
      ensures Valid() && faults == Less(old(faults), Past(text, pos, n))
      ensures |head| == if pos + n <= |text| then n else |text| - pos
      ensures forall k :: 0 <= k < |head| ==> head[k] == text[pos + k]
      ensures |buf| >= |head|
    {
      var last := Delivered;
      while |buf| < n && last.Delivered?
        invariant Valid() && Stopped(last, old(faults)) && (!last.Delivered? ==> |buf| < n)
        decreases last.Delivered?, n - |buf|
      {
        last := Fill();
      }
      SomeLeft();
      head := if |buf| < n then buf else buf[..n];
      assert text[pos..][..|head|] == head;
      forall k | 0 <= k < |head| ensures head[k] == text[pos + k] {
        BufferAt(k);
      }
    }

    method Discard(n: nat)
      requires Valid() && n <= |buf|
      modifies this`pos, this`buf
      ensures Valid() && pos == old(pos) + n
    {
      assert text[pos + n..] == text[pos..][n..] == buf[n..] + Flatten(chunks);
      pos, buf := pos + n, buf[n..];
    }

    /** The next byte, or what there is at the end of the text: a failed read or the end. */
    method ReadByte() returns (c: char, r: Filled)
      requires Valid()
      modifies this`pos, this`buf, this`chunks, this`faults, this`staged
      ensures Valid()
      ensures r.Delivered? ==> old(pos) < |text| && pos == old(pos) + 1 && text[old(pos)] == c && faults == old(faults)
      ensures !r.Delivered? ==> old(pos) == |text| == pos && r.Fault? == (old(faults) > 0) && faults == Less(old(faults), 1)
    {
      c, r := '\0', Delivered;
      if buf == "" {
        r := Fill();
      }
      SomeLeft();
      if r.Delivered? {
        c := buf[0];
        BufferAt(0);
        Discard(1);
      }
    }

    /** Consumes through the next newline, or the whole buffer when it holds none. */
    method ReadSlice() returns (r: Slice)
      requires Valid()
      modifies this`pos, this`buf, this`chunks, this`faults, this`staged
      ensures Valid() && old(pos) <= pos
      ensures r.Found? ==> old(pos) < pos && text[pos - 1] == '\n' && NoNewline(old(pos), pos - 1)
      ensures r.Full? ==> old(pos) < pos && NoNewline(old(pos), pos)
      ensures r.AtEnd? || r.Failed? ==> pos == |text| && NoNewline(old(pos), pos) && r.Failed? == (old(faults) > 0)
      ensures faults == if r.Failed? then old(faults) - 1 else old(faults)
    {
      var last := Delivered;
      while '\n' !in buf && |buf| < SIZE && last.Delivered?
        invariant Valid() && pos == old(pos) && Stopped(last, old(faults))
        invariant !last.Delivered? ==> '\n' !in buf
        decreases last.Delivered?, SIZE - |buf|
      {
        last := Fill();
      }
      SomeLeft();
      var i := IndexOf(buf, '\n');
      PrefixIsClear(i);
      if i < |buf| {
        Discard(i + 1);
        return Found;
      }
      Discard(|buf|);
      r := if last.EOF? then AtEnd else if last.Fault? then Failed else Full;
    }

    /** Reads go on while the source delivers; one that does not leaves all that is left in the buffer. */
    ghost predicate Stopped(last: Filled, before: nat)
      requires Valid()
      reads this
    {
      && (last.Delivered? ==> faults == before)
      && (!last.Delivered? ==> buf == text[pos..] && last.Fault? == (before > 0) && faults == Less(before, 1))
    }

    lemma InText()
      requires Valid()
      ensures pos <= |text|
    {
    }

    /** How much is left, in the buffer and in all. */
    lemma SomeLeft()
      requires Valid()
      ensures pos + |buf| <= |text|
    {
      assert |text[pos..]| == |buf| + |Flatten(chunks)|;
    }

    ghost predicate NoNewline(i: nat, j: nat)
      requires i <= j <= |text|
    {
      forall k :: i <= k < j ==> text[k] != '\n'
    }

    /** The buffer is the next part of the text. */
    lemma BufferAt(k: nat)
      requires Valid() && k < |buf|
      ensures pos + k < |text| && text[pos + k] == buf[k]
    {
      assert text[pos..][k] == buf[k];
    }

    lemma AllRead()
      requires Valid()
      ensures staged <= text && (pos == |text| ==> staged == text)
    {
      FirstChunkIsRead(chunks);
    }

    lemma PrefixIsClear(i: nat)
      requires Valid() && i == IndexOf(buf, '\n')
      ensures pos + |buf| <= |text| && NoNewline(pos, pos + i)
      ensures i < |buf| ==> text[pos + i] == '\n'
    {
      forall m | pos <= m < pos + i ensures text[m] != '\n' {
        BufferAt(m - pos);
        assert buf[..i][m - pos] == buf[m - pos];
      }
      if i < |buf| {
        BufferAt(i);
      }
    }
  }
}
