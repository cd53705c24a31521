/**
 * The byte-range arithmetic of `DropboxClient.upload_file` (src/dbox.py):
 * which SDK upload calls are made for a file of `size` bytes with chunks of
 * `chunk` bytes, as the code is written, and as a correct session upload
 * would make them.
 */
module DboxUpload {

  /**
   * One upload request, with the file bytes [start, end) it carries and, for
   * the session calls after the first, the cursor offset it sends.
   */
  datatype UploadOp =
    | FilesUpload(start: nat, end: nat)
    | SessionStart(start: nat, end: nat)
    | SessionAppend(start: nat, end: nat, offset: nat)
    | SessionFinish(start: nat, end: nat, offset: nat)

  function Min(a: nat, b: nat): nat {
    if a <= b then a else b
  }

  /**
   * The `while f.tell() < file_size` loop as written: the chunk is read first
   * and the "last chunk" test looks at what remains after that read. `pos`
   * is `f.tell()`, `offset` is `cursor.offset`, which only appends advance.
   */
  function ChunkLoop(size: nat, chunk: nat, pos: nat, offset: nat): seq<UploadOp>
    requires chunk > 0
    decreases size - pos
  {
    if pos >= size then []
    else
      var next := Min(pos + chunk, size);
      if size - next <= chunk
      then [SessionFinish(pos, next, offset)] + ChunkLoop(size, chunk, next, offset)
      else [SessionAppend(pos, next, offset)] + ChunkLoop(size, chunk, next, next)
  }

  /** The requests `upload_file` makes, as written: single upload iff size < chunk. */
  function AsWrittenPlan(size: nat, chunk: nat): seq<UploadOp>
    requires chunk > 0
  {
    if size < chunk then [FilesUpload(0, size)]
    else [SessionStart(0, chunk)] + ChunkLoop(size, chunk, chunk, chunk)
  }

  function CountFinishes(plan: seq<UploadOp>): nat {
    if plan == [] then 0 else (if plan[0].SessionFinish? then 1 else 0) + CountFinishes(plan[1..])
  }

  /**
   * A correct upload: either one `files_upload` of the whole file, or a
   * session whose requests carry contiguous slices of at most `chunk` bytes
   * covering [0, size), each continuation sending as offset the number of
   * bytes already sent, with exactly one finish, as the last request.
   */
  predicate WellFormed(plan: seq<UploadOp>, size: nat, chunk: nat) {
    if |plan| == 1 && plan[0].FilesUpload? then plan[0] == FilesUpload(0, size)
    else
      && |plan| >= 2
      && plan[0].SessionStart? && plan[0].start == 0
      && plan[|plan| - 1].SessionFinish? && plan[|plan| - 1].end == size
      && (forall i :: 0 < i < |plan| - 1 ==> plan[i].SessionAppend?)
      && (forall i :: 0 <= i < |plan| ==> plan[i].start <= plan[i].end <= plan[i].start + chunk)
      && (forall i :: 0 < i < |plan| ==> plan[i].start == plan[i - 1].end)
      && (forall i :: 0 < i < |plan| ==> plan[i].offset == plan[i].start)
  }

  /** The number of file bytes the requests carry. */
  function Span(plan: seq<UploadOp>): int {
    if plan == [] then 0 else Span(plan[..|plan| - 1]) + (plan[|plan| - 1].end - plan[|plan| - 1].start)
  }

  lemma {:induction false} ContiguousSpan(plan: seq<UploadOp>, k: nat)
    requires 1 <= k <= |plan|
    requires forall i :: 0 < i < |plan| ==> plan[i].start == plan[i - 1].end
    ensures Span(plan[..k]) == plan[k - 1].end - plan[0].start
  {
    if k == 1 {
      assert plan[..1][..0] == [];
    } else {
      ContiguousSpan(plan, k - 1);
      assert plan[..k][..k - 1] == plan[..k - 1];
    }
  }

  /** A well-formed upload sends the file's bytes exactly once, in order from 0 to the size. */
  lemma WellFormedSendsEveryByte(plan: seq<UploadOp>, size: nat, chunk: nat)
    requires WellFormed(plan, size, chunk)
    ensures Span(plan) == size
  {
    if |plan| == 1 && plan[0].FilesUpload? {
      assert plan[..0] == [];
    } else {
      ContiguousSpan(plan, |plan|);
      assert plan[..|plan|] == plan;
    }
  }

  /**
   * The written loop reads the file correctly: its requests carry
   * consecutive ranges of at most one chunk from `pos` up to the size; what
   * goes wrong is only which request each range is sent with.
   */
  lemma {:induction false} ChunkLoopReadsToEnd(size: nat, chunk: nat, pos: nat, offset: nat)
    requires chunk > 0
    ensures var l := ChunkLoop(size, chunk, pos, offset);
            && (|l| > 0 <==> pos < size)
            && (|l| > 0 ==> l[0].start == pos && l[|l| - 1].end == size)
            && (forall i :: 0 <= i < |l| ==> l[i].SessionAppend? || l[i].SessionFinish?)
            && (forall i :: 0 <= i < |l| ==> l[i].start < l[i].end <= l[i].start + chunk)
            && (forall i :: 0 < i < |l| ==> l[i].start == l[i - 1].end)
    decreases size - pos
  {
    if pos < size {
      var next := Min(pos + chunk, size);
      var l := ChunkLoop(size, chunk, pos, offset);
      var nextOffset := if size - next <= chunk then offset else next;
      ChunkLoopReadsToEnd(size, chunk, next, nextOffset);
      var rest := ChunkLoop(size, chunk, next, nextOffset);
      assert l == [l[0]] + rest;
      assert forall i :: 0 < i < |l| ==> l[i] == rest[i - 1];
    }
  }

  // ------------------------------------------------------------ as written

  /** A file of exactly one chunk opens a session that is never finished. */
  lemma ExactChunkNeverFinishes(chunk: nat)
    requires chunk > 0
    ensures AsWrittenPlan(chunk, chunk) == [SessionStart(0, chunk)]
    ensures CountFinishes(AsWrittenPlan(chunk, chunk)) == 0
  {
  }

  /** Between one and two chunks the written loop is correct. */
  lemma TwoChunksCorrect(size: nat, chunk: nat)
    requires chunk > 0 && chunk < size <= 2 * chunk
    ensures AsWrittenPlan(size, chunk) == [SessionStart(0, chunk), SessionFinish(chunk, size, chunk)]
    ensures WellFormed(AsWrittenPlan(size, chunk), size, chunk)
  {
    assert ChunkLoop(size, chunk, size, chunk) == [];
  }

  /**
   * From the point where more than one chunk remains, the loop ends in two
   * finishes: the first commits one chunk too early, the second carries the
   * remaining bytes with the offset of the first.
   */
  lemma {:induction false} LoopEndsInTwoFinishes(size: nat, chunk: nat, pos: nat)
    requires chunk > 0 && size - pos > chunk && pos <= size
    ensures var l := ChunkLoop(size, chunk, pos, pos);
            && |l| >= 2
            && CountFinishes(l) == 2
            && l[|l| - 1].SessionFinish? && l[|l| - 1].end == size
            && l[|l| - 1].offset + chunk == l[|l| - 1].start
    decreases size - pos
  {
    var next := pos + chunk;
    assert Min(pos + chunk, size) == next;
    var l := ChunkLoop(size, chunk, pos, pos);
    if size - next <= chunk {
      var tail := ChunkLoop(size, chunk, next, pos);
      assert Min(next + chunk, size) == size;
      assert ChunkLoop(size, chunk, size, pos) == [];
      assert tail == [SessionFinish(next, size, pos)];
      assert l == [SessionFinish(pos, next, pos)] + tail;
      assert l[1..] == tail && tail[1..] == [];
      assert CountFinishes(tail) == 1;
    } else {
      LoopEndsInTwoFinishes(size, chunk, next);
      assert l == [SessionAppend(pos, next, pos)] + ChunkLoop(size, chunk, next, next);
      assert l[1..] == ChunkLoop(size, chunk, next, next);
    }
  }

  /** Above two chunks the session is finished twice, the second time with a stale offset. */
  lemma MoreThanTwoChunksFinishesTwice(size: nat, chunk: nat)
    requires chunk > 0 && size > 2 * chunk
    ensures var p := AsWrittenPlan(size, chunk);
            && CountFinishes(p) == 2
            && p[|p| - 1].SessionFinish? && p[|p| - 1].offset != p[|p| - 1].start
            && !WellFormed(p, size, chunk)
  {
    var l := ChunkLoop(size, chunk, chunk, chunk);
    LoopEndsInTwoFinishes(size, chunk, chunk);
    var p := AsWrittenPlan(size, chunk);
    assert p == [SessionStart(0, chunk)] + l;
    assert p[1..] == l;
    var last := |p| - 1;
    assert p[last] == l[|l| - 1];
    // the last request breaks "offset equals the bytes already sent"
    assert 0 < last && p[last].offset != p[last].start;
  }

  // ------------------------------------------------------------ corrected

  /** The loop with the test before the read: append full chunks while more than one remains, then finish. */
  function FixedLoop(size: nat, chunk: nat, pos: nat): (l: seq<UploadOp>)
    requires chunk > 0 && pos <= size
    decreases size - pos
  {
    if size - pos <= chunk then [SessionFinish(pos, size, pos)]
    else [SessionAppend(pos, pos + chunk, pos)] + FixedLoop(size, chunk, pos + chunk)
  }

  function CorrectedPlan(size: nat, chunk: nat): seq<UploadOp>
    requires chunk > 0
  {
    if size < chunk then [FilesUpload(0, size)]
    else [SessionStart(0, chunk)] + FixedLoop(size, chunk, chunk)
  }

  lemma {:induction false} FixedLoopShape(size: nat, chunk: nat, pos: nat)
    requires chunk > 0 && pos <= size
    ensures var l := FixedLoop(size, chunk, pos);
            && |l| >= 1
            && l[0].start == pos
            && l[|l| - 1].SessionFinish? && l[|l| - 1].end == size
            && (forall i :: 0 <= i < |l| - 1 ==> l[i].SessionAppend?)
            && (forall i :: 0 <= i < |l| ==> l[i].start <= l[i].end <= l[i].start + chunk)
            && (forall i :: 0 < i < |l| ==> l[i].start == l[i - 1].end)
            && (forall i :: 0 <= i < |l| ==> !l[i].FilesUpload? && !l[i].SessionStart? && l[i].offset == l[i].start)
    decreases size - pos
  {
    if size - pos > chunk {
      FixedLoopShape(size, chunk, pos + chunk);
      var l := FixedLoop(size, chunk, pos);
      var rest := FixedLoop(size, chunk, pos + chunk);
      assert l == [SessionAppend(pos, pos + chunk, pos)] + rest;
      assert forall i :: 0 < i < |l| ==> l[i] == rest[i - 1];
    }
  }

  /** With the test before the read, every upload is well formed, whatever the size. */
  lemma CorrectedPlanWellFormed(size: nat, chunk: nat)
    requires chunk > 0
    ensures WellFormed(CorrectedPlan(size, chunk), size, chunk)
    ensures size >= chunk ==> CountFinishes(CorrectedPlan(size, chunk)) == 1
  {
    if size >= chunk {
      FixedLoopShape(size, chunk, chunk);
      var l := FixedLoop(size, chunk, chunk);
      SessionAfterStart(l, size, chunk);
      FinishesOfAppendsThenFinish(l);
      assert CorrectedPlan(size, chunk) == [SessionStart(0, chunk)] + l;
      assert ([SessionStart(0, chunk)] + l)[1..] == l;
    }
  }

  /** A run of appends and one finish covering [chunk, size), after a start of one chunk, is a well-formed session. */
  lemma SessionAfterStart(l: seq<UploadOp>, size: nat, chunk: nat)
    requires |l| >= 1 && l[0].start == chunk
    requires l[|l| - 1].SessionFinish? && l[|l| - 1].end == size
    requires forall i :: 0 <= i < |l| - 1 ==> l[i].SessionAppend?
    requires forall i :: 0 <= i < |l| ==> l[i].start <= l[i].end <= l[i].start + chunk
    requires forall i :: 0 < i < |l| ==> l[i].start == l[i - 1].end
    requires forall i :: 0 <= i < |l| ==> !l[i].FilesUpload? && !l[i].SessionStart? && l[i].offset == l[i].start
    ensures WellFormed([SessionStart(0, chunk)] + l, size, chunk)
  {
    var p := [SessionStart(0, chunk)] + l;
    assert p[|p| - 1] == l[|l| - 1];
    forall i | 0 < i < |p| - 1
      ensures p[i].SessionAppend?
    {
      assert p[i] == l[i - 1];
    }
    forall i | 0 <= i < |p|
      ensures p[i].start <= p[i].end <= p[i].start + chunk
    {
      if i > 0 {
        assert p[i] == l[i - 1];
      }
    }
    forall i | 0 < i < |p|
      ensures p[i].start == p[i - 1].end
    {
      assert p[i] == l[i - 1];
      if i > 1 {
        assert p[i - 1] == l[i - 2];
      }
    }
    forall i | 0 < i < |p|
      ensures p[i].offset == p[i].start
    {
      assert p[i] == l[i - 1];
    }
  }

  lemma {:induction false} FinishesOfAppendsThenFinish(l: seq<UploadOp>)
    requires |l| >= 1 && l[|l| - 1].SessionFinish?
    requires forall i :: 0 <= i < |l| - 1 ==> l[i].SessionAppend?
    ensures CountFinishes(l) == 1
  {
    if |l| > 1 {
      FinishesOfAppendsThenFinish(l[1..]);
    } else {
      assert CountFinishes(l[1..]) == 0;
    }
  }

  /** The correction changes nothing where the written loop was right. */
  lemma CorrectionAgreesBelowTwoChunks(size: nat, chunk: nat)
    requires chunk > 0 && (size < chunk || chunk < size <= 2 * chunk)
    ensures CorrectedPlan(size, chunk) == AsWrittenPlan(size, chunk)
  {
    if size > chunk {
      TwoChunksCorrect(size, chunk);
    }
  }
}
