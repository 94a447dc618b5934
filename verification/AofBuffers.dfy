/** The buffers between the server and its append only file: the block list that collects
    changes during a rewrite, and the buffer that is flushed before each reply. System calls
    are given by their results. */
module AofBuffers {
  import opened AofFormat

  // ----- the rewrite buffer

  // AOF_RW_BUF_BLOCK_SIZE
  const BLOCK_SIZE: nat := 10485760

  datatype Block = Block(buf: Bytes, free: nat)

  ghost predicate BlocksOk(blocks: seq<Block>) {
    forall b :: b in blocks ==> |b.buf| + b.free == BLOCK_SIZE
  }

  ghost function Joined(blocks: seq<Block>): Bytes {
    if blocks == [] then [] else blocks[0].buf + Joined(blocks[1..])
  }

  lemma {:induction false} JoinedAppend(a: seq<Block>, b: Block)
    ensures Joined(a + [b]) == Joined(a) + b.buf
  {
    if a == [] {
      assert a + [b] == [b] && [b][1..] == [];
    } else {
      assert (a + [b])[1..] == a[1..] + [b];
      JoinedAppend(a[1..], b);
      Assoc(a[0].buf, Joined(a[1..]), b.buf);
    }
  }

  lemma EmptyFront(a: seq<Block>)
    requires a != [] && a[0].buf == []
    ensures Joined(a) == Joined(a[1..])
  {
    assert [] + Joined(a[1..]) == Joined(a[1..]);
  }

  class RewriteBuffer {
    var blocks: seq<Block>

    ghost predicate Valid()
      reads this
    {
      BlocksOk(blocks)
    }

    ghost function Contents(): Bytes
      reads this
    {
      Joined(blocks)
    }

    constructor ()
      ensures Valid() && Contents() == []
    {
      blocks := [];
    }

    /** aofRewriteBufferAppend: fill the last block, then allocate new ones. */
    method Append(s: Bytes)
      requires Valid()
      modifies this
      ensures Valid() && Contents() == old(Contents()) + s
    {
      hide Joined;
      var rest := s;
      var haveBlock := |blocks| > 0;
      while rest != []
        invariant Valid() && (haveBlock ==> |blocks| > 0)
        invariant Contents() + rest == old(Contents()) + s
        decreases |rest|, if haveBlock && |blocks| > 0 then BLOCK_SIZE - blocks[|blocks| - 1].free else BLOCK_SIZE + 1
      {
        if haveBlock {
          var last := blocks[|blocks| - 1];
          var thislen := if last.free < |rest| then last.free else |rest|;
          if thislen > 0 {
            ghost var before := Contents();
            ghost var todo := rest;
            FillLast(rest[..thislen]);
            rest := rest[thislen..];
            assert todo == todo[..thislen] + rest;
            Assoc(before, todo[..thislen], rest);
          }
        }
        if rest != [] {
          AddBlock();
          haveBlock := true;
        }
      }
    }

    method AddBlock()
      requires Valid()
      modifies this
      ensures Valid() && Contents() == old(Contents())
      ensures |blocks| > 0 && blocks[|blocks| - 1].free == BLOCK_SIZE
    {
      JoinedAppend(blocks, Block([], BLOCK_SIZE));
      blocks := blocks + [Block([], BLOCK_SIZE)];
    }

    method FillLast(s: Bytes)
      requires Valid() && |blocks| > 0 && |s| <= blocks[|blocks| - 1].free
      modifies this
      ensures Valid() && |blocks| == old(|blocks|) && Contents() == old(Contents()) + s
    {
      var front := blocks[..|blocks| - 1];
      var last := blocks[|blocks| - 1];
      assert blocks == front + [last];
      JoinedAppend(front, last);
      JoinedAppend(front, Block(last.buf + s, last.free - |s|));
      Assoc(Joined(front), last.buf, s);
      blocks := front + [Block(last.buf + s, last.free - |s|)];
    }

    /** aofChildWriteDiffData: send what the pipe takes. A result is the value of one write
        call; a missing one stands for a pipe that is full. */
    method SendDiff(stopSending: bool, results: seq<int>) returns (sent: Bytes)
      requires Valid()
      modifies this
      ensures Valid() && sent + Contents() == old(Contents())
      ensures stopSending ==> sent == []
    {
      hide Joined;
      sent := [];
      var i := 0;
      assert sent + Contents() == Contents();
      while true
        invariant Valid() && 0 <= i <= |results|
        invariant sent + Contents() == old(Contents())
        invariant stopSending ==> sent == []
        decreases |blocks|, |results| - i
      {
        if stopSending || blocks == [] { return; }
        var b := blocks[0];
        if b.buf != [] {
          if i == |results| { return; }
          var nwritten := if results[i] > |b.buf| then |b.buf| else results[i];
          i := i + 1;
          if nwritten <= 0 { return; }
          ghost var before := Contents();
          DropFront(nwritten);
          Assoc(sent, b.buf[..nwritten], Contents());
          sent := sent + b.buf[..nwritten];
        }
        if blocks[0].buf == [] {
          EmptyFront(blocks);
          blocks := blocks[1..];
        }
      }
    }

    method DropFront(n: nat)
      requires Valid() && |blocks| > 0 && n <= |blocks[0].buf|
      modifies this
      ensures Valid() && |blocks| == old(|blocks|)
      ensures old(blocks[0].buf[..n]) + Contents() == old(Contents())
    {
      var b := blocks[0];
      var less := Block(b.buf[n..], b.free + n);
      assert b.buf == b.buf[..n] + b.buf[n..];
      Assoc(b.buf[..n], b.buf[n..], Joined(blocks[1..]));
      assert ([less] + blocks[1..])[1..] == blocks[1..];
      blocks := [less] + blocks[1..];
    }

    /** aofRewriteBufferWrite: every block must be written by a single call. */
    method WriteAll(results: seq<int>) returns (written: Bytes, ok: bool)
      requires Valid()
      ensures ok ==> written == Contents()
      ensures written <= Contents()
    {
      written := [];
      var i := 0;
      for k := 0 to |blocks|
        invariant 0 <= i <= |results|
        invariant written + Joined(blocks[k..]) == Contents()
      {
        var b := blocks[k];
        assert blocks[k..][1..] == blocks[k + 1..];
        if b.buf != [] {
          var nwritten := if i == |results| then -1 else if results[i] > |b.buf| then |b.buf| else results[i];
          if i < |results| { i := i + 1; }
          var got := if nwritten > 0 then b.buf[..nwritten] else [];
          if nwritten != |b.buf| {
            assert b.buf == got + b.buf[|got|..];
            Assoc(written, got, b.buf[|got|..] + Joined(blocks[k + 1..]));
            Assoc(got, b.buf[|got|..], Joined(blocks[k + 1..]));
            return written + got, false;
          }
          assert got == b.buf;
        }
        Assoc(written, b.buf, Joined(blocks[k + 1..]));
        written := written + b.buf;
      }
      assert blocks[|blocks|..] == [];
      ok := true;
    }
  }

  // ----- flushing

  datatype Policy = Always | EverySec | Never

  datatype WriteResult = Wrote(n: nat) | Interrupted | Failed

  /** aofWrite: retry short and interrupted writes; -1 when nothing could be written. A missing
      result stands for an error. */
  method WriteRetrying(data: Bytes, results: seq<WriteResult>) returns (n: int, written: Bytes)
    ensures written <= data
    ensures n == if |written| > 0 || data == [] then |written| else -1
  {
    written := [];
    var i := 0;
    while |written| < |data|
      invariant written <= data && 0 <= i <= |results|
      decreases |results| - i
    {
      if i == |results| || results[i].Failed? {
        return if |written| > 0 then |written| else -1, written;
      }
      if results[i].Wrote? {
        var rest := data[|written|..];
        var k := if results[i].n > |rest| then |rest| else results[i].n;
        written := written + rest[..k];
      }
      i := i + 1;
    }
    n := |written|;
  }

  class AppendOnlyFile {
    // the bytes on disk
    var file: Bytes
    var buf: Bytes
    var currentSize: int
    var policy: Policy
    var lastWriteOk: bool
    var flushPostponedStart: int

    ghost predicate Valid()
      reads this
    {
      currentSize == |file|
    }

    constructor (p: Policy)
      ensures Valid() && file == [] && buf == [] && policy == p
    {
      file, buf, currentSize, policy, lastWriteOk, flushPostponedStart := [], [], 0, p, true, 0;
    }

    /** flushAppendOnlyFile. No outcome of the write or of the truncation loses or repeats a
        byte; a full write empties the buffer, and a failed write that could be undone changes
        nothing on disk. */
    method Flush(force: bool, syncInProgress: bool, unixtime: int, results: seq<WriteResult>, truncateOk: bool)
      returns (exited: bool)
      requires Valid()
      modifies this
      ensures policy == old(policy)
      ensures exited ==> old(file) <= file <= old(file + buf) && policy == Always
      ensures !exited ==> Valid() && file + buf == old(file + buf) && old(file) <= file
      ensures !exited && !lastWriteOk && truncateOk && policy != Always && old(lastWriteOk) ==> file == old(file)
      ensures !exited && lastWriteOk && !(policy == EverySec && syncInProgress && !force) && old(lastWriteOk) ==>
        buf == []
    {
      exited := false;
      if buf == [] { return; }
      if policy == EverySec && !force && syncInProgress {
        if flushPostponedStart == 0 {
          flushPostponedStart := unixtime;
          return;
        } else if unixtime - flushPostponedStart < 2 {
          return;
        }
      }
      var nwritten, written := WriteRetrying(buf, results);
      ghost var disk := file;
      file := file + written;
      flushPostponedStart := 0;
      assert buf == written + buf[|written|..];
      Assoc(disk, written, buf[|written|..]);
      if nwritten != |buf| {
        if nwritten != -1 && truncateOk {
          file := file[..currentSize];
          nwritten := -1;
        }
        if policy == Always { return true; }
        lastWriteOk := false;
        if nwritten > 0 {
          currentSize := currentSize + nwritten;
          buf := buf[nwritten..];
        }
        return;
      }
      lastWriteOk := true;
      currentSize := currentSize + nwritten;
      buf := [];
      assert file + [] == file;
    }
  }
}
