/**
 * The Dropbox adapter of the current revision (`DropboxClient` in
 * src/dbox.py): paginated listing mapped to the provider-neutral DTO, path
 * joining with "//" collapsed, the single or chunked upload, and the
 * remaining pass-through calls. Every exception an SDK call raises is
 * re-raised unchanged, except that an ApiError while listing gives [].
 */
module Dbox {
  import opened Wrappers
  import opened Exceptions
  import opened Strings
  import opened Dto
  import Sdk = DropboxSdk
  import opened DboxUpload

  /** The SDK calls the adapter makes. */
  datatype DropboxCall =
    | ListFolder(path: string)
    | ListFolderContinue(cursor: string)
    | DownloadToFile(localPath: string, path: string)
    | UploadCall(op: UploadOp, path: string)
    | MoveV2(fromPath: string, toPath: string)
    | DeleteV2(path: string)
    | GetMetadata(path: string)

  /**
   * The account as the adapter sees it: which calls raise, and for each
   * folder the replies to its listing, first `files_list_folder` and then
   * each `files_list_folder_continue`.
   */
  datatype DropboxAccount = DropboxAccount(
    fault: DropboxCall -> Option<Exc>,
    listing: string -> seq<Reply<Sdk.ListFolderResult>>)

  // ------------------------------------------------------------ listing

  /** A reply after which the listing loop stops. */
  predicate Ends(r: Reply<Sdk.ListFolderResult>) {
    r.Raised? || !r.value.hasMore
  }

  /** The server ends the listing within the replies it has. */
  predicate ListingEnds(pages: seq<Reply<Sdk.ListFolderResult>>) {
    FirstWhere(pages, Ends) < |pages|
  }

  /** The entries of the first k pages, in page order. */
  function Entries(pages: seq<Reply<Sdk.ListFolderResult>>, k: nat): seq<Sdk.Metadata>
    requires k <= |pages| && forall i :: 0 <= i < k ==> pages[i].Ok?
  {
    if k == 0 then [] else Entries(pages, k - 1) + pages[k - 1].value.entries
  }

  /** The continuation calls after the first k pages, each with the previous page's cursor. */
  function ContinueCalls(pages: seq<Reply<Sdk.ListFolderResult>>, k: nat): seq<DropboxCall>
    requires k <= |pages| && forall i :: 0 <= i < k ==> pages[i].Ok?
  {
    if k == 0 then [] else ContinueCalls(pages, k - 1) + [ListFolderContinue(pages[k - 1].value.cursor)]
  }

  /** A page that ends the listing, at or before the first such page, is the first. */
  lemma FirstEndingPage(pages: seq<Reply<Sdk.ListFolderResult>>, i: nat)
    requires i <= FirstWhere(pages, Ends) < |pages| && Ends(pages[i])
    ensures i == FirstWhere(pages, Ends)
  {
  }

  /** The DTO of a file entry: id and path are its display path, folder the listed folder. */
  function ToDto(e: Sdk.Metadata, folderId: string): (d: FileMetadata)
    ensures d.id == e.pathDisplay && d.path == e.pathDisplay && d.name == e.name && d.folderId == Some(folderId)
  {
    FileMetadata(e.pathDisplay, e.name, e.pathDisplay, Some(folderId))
  }

  /** The DTOs of the file entries, in order; folders and deleted entries are dropped. */
  function Dtos(entries: seq<Sdk.Metadata>, folderId: string): (r: seq<FileMetadata>)
    ensures |r| <= |entries|
    ensures forall e :: e in entries && e.FileMetadata? ==> ToDto(e, folderId) in r
    ensures forall d :: d in r ==> d.id == d.path && d.folderId == Some(folderId)
                                   && exists e :: e in entries && e.FileMetadata? && d == ToDto(e, folderId)
  {
    if entries == [] then []
    else
      var last := entries[|entries| - 1];
      Dtos(entries[..|entries| - 1], folderId) + (if last.FileMetadata? then [ToDto(last, folderId)] else [])
  }

  /** The mapping loop of `list_files`: one DTO per file entry, in order. */
  method FileDtos(entries: seq<Sdk.Metadata>, folderId: string) returns (dtos: seq<FileMetadata>)
    ensures dtos == Dtos(entries, folderId)
  {
    dtos := [];
    var j := 0;
    while j < |entries|
      invariant j <= |entries|
      invariant dtos == Dtos(entries[..j], folderId)
    {
      assert entries[..j + 1][..j] == entries[..j];
      if entries[j].FileMetadata? {
        dtos := dtos + [ToDto(entries[j], folderId)];
      }
      j := j + 1;
    }
    assert entries[..j] == entries;
  }

  /** `list_files`: the result and the SDK calls made. */
  function ListSpec(pages: seq<Reply<Sdk.ListFolderResult>>, folderId: string): (Reply<seq<FileMetadata>>, seq<DropboxCall>)
    requires ListingEnds(pages)
  {
    var k := FirstWhere(pages, Ends);
    var calls := [ListFolder(folderId)] + ContinueCalls(pages, k);
    if pages[k].Raised? then
      (if pages[k].error == DropboxApiError then Ok([]) else Raised(pages[k].error), calls)
    else
      (Ok(Dtos(Entries(pages, k + 1), folderId)), calls)
  }

  lemma {:induction false} DtosAppend(a: seq<Sdk.Metadata>, b: seq<Sdk.Metadata>, folderId: string)
    ensures Dtos(a + b, folderId) == Dtos(a, folderId) + Dtos(b, folderId)
    decreases |b|
  {
    if b == [] {
      assert a + b == a;
    } else {
      var b' := b[..|b| - 1];
      assert (a + b)[..|a + b| - 1] == a + b';
      DtosAppend(a, b', folderId);
    }
  }

  function PagesDtos(pages: seq<Reply<Sdk.ListFolderResult>>, k: nat, folderId: string): seq<FileMetadata>
    requires k <= |pages| && forall i :: 0 <= i < k ==> pages[i].Ok?
  {
    if k == 0 then [] else PagesDtos(pages, k - 1, folderId) + Dtos(pages[k - 1].value.entries, folderId)
  }

  /**
   * A listing that ends without error returns the DTOs of every page, in page
   * order; an ApiError on any page gives the empty list.
   */
  lemma {:induction false} ListingIsPageOrdered(pages: seq<Reply<Sdk.ListFolderResult>>, folderId: string)
    requires ListingEnds(pages)
    ensures var k := FirstWhere(pages, Ends);
            && (pages[k].Ok? ==> ListSpec(pages, folderId).0 == Ok(PagesDtos(pages, k + 1, folderId)))
            && (pages[k] == Raised(DropboxApiError) ==> ListSpec(pages, folderId).0 == Ok([]))
  {
    var k := FirstWhere(pages, Ends);
    if pages[k].Ok? {
      EntriesDtos(pages, k + 1, folderId);
    }
  }

  lemma {:induction false} EntriesDtos(pages: seq<Reply<Sdk.ListFolderResult>>, k: nat, folderId: string)
    requires k <= |pages| && forall i :: 0 <= i < k ==> pages[i].Ok?
    ensures Dtos(Entries(pages, k), folderId) == PagesDtos(pages, k, folderId)
  {
    if k > 0 {
      EntriesDtos(pages, k - 1, folderId);
      DtosAppend(Entries(pages, k - 1), pages[k - 1].value.entries, folderId);
    }
  }

  // ------------------------------------------------------------ paths

  /** The remote path of an upload: `f"{folder_id}/{filename}".replace("//", "/")`. */
  function RemotePath(folderId: string, filename: string): string {
    ReplaceAll(folderId + "/" + filename, "//", "/")
  }

  /** The target of a move: the folder joined with the file's base name, "//" collapsed. */
  function MoveTarget(fileId: string, toFolderId: string): string {
    ReplaceAll(toFolderId + "/" + Basename(fileId), "//", "/")
  }

  predicate NoDoubleSlash(s: string) {
    forall i :: 0 <= i < |s| - 1 ==> !(s[i] == '/' && s[i + 1] == '/')
  }

  lemma {:induction false} CollapseWithoutDoubleSlash(s: string)
    requires NoDoubleSlash(s)
    ensures ReplaceAll(s, "//", "/") == s
  {
    if |s| >= 2 {
      assert s[..2] != "//" by {
        assert !(s[0] == '/' && s[1] == '/');
      }
      CollapseWithoutDoubleSlash(s[1..]);
    }
  }

  /** Joining two slash-free-at-the-seam, "//"-free paths with "/" makes no "//". */
  lemma JoinNoDoubleSlash(a: string, b: string)
    requires NoDoubleSlash(a) && NoDoubleSlash(b)
    requires a == [] || a[|a| - 1] != '/'
    requires b == [] || b[0] != '/'
    ensures NoDoubleSlash(a + "/" + b)
  {
    var s := a + "/" + b;
    forall i | 0 <= i < |s| - 1
      ensures !(s[i] == '/' && s[i + 1] == '/')
    {
      if i < |a| - 1 {
        assert s[i] == a[i] && s[i + 1] == a[i + 1];
      } else if i == |a| - 1 {
        assert s[i] == a[|a| - 1];
      } else if i == |a| {
        assert b != [] && s[i + 1] == b[0];
      } else {
        assert s[i] == b[i - |a| - 1] && s[i + 1] == b[i - |a|];
      }
    }
  }

  /** The root folder, written "" or "/", gives "/" + filename. */
  lemma RootFolderPath(filename: string)
    requires filename != [] && '/' !in filename
    ensures RemotePath("", filename) == "/" + filename
    ensures RemotePath("/", filename) == "/" + filename
  {
    assert NoDoubleSlash(filename);
    JoinNoDoubleSlash("", filename);
    CollapseWithoutDoubleSlash("" + "/" + filename);
    assert "/" + "/" + filename == "//" + filename;
    assert ("//" + filename)[..2] == "//";
    assert ("//" + filename)[2..] == filename;
    CollapseWithoutDoubleSlash(filename);
  }

  /**
   * The quarantine call of the driver passes `failed + "/" + name` as the
   * destination folder, so the file lands at `failed/name/name`.
   */
  lemma QuarantineLandsInSubfolder(source: string, failed: string, name: string)
    requires NoDoubleSlash(failed) && failed != [] && failed[|failed| - 1] != '/'
    requires name != [] && '/' !in name
    ensures MoveTarget(source + "/" + name, failed + "/" + name) == failed + "/" + name + "/" + name
  {
    BasenameOfChild(source, name);
    assert NoDoubleSlash(name);
    JoinNoDoubleSlash(failed, name);
    var dir := failed + "/" + name;
    assert dir[|dir| - 1] == name[|name| - 1];
    JoinNoDoubleSlash(dir, name);
    CollapseWithoutDoubleSlash(dir + "/" + name);
  }

  /** A folder and a file name without "//" or a '/' at the seam are joined with a single '/'. */
  lemma RemotePathJoins(folderId: string, filename: string)
    requires NoDoubleSlash(folderId) && (folderId == [] || folderId[|folderId| - 1] != '/')
    requires NoDoubleSlash(filename) && (filename == [] || filename[0] != '/')
    ensures RemotePath(folderId, filename) == folderId + "/" + filename
  {
    JoinNoDoubleSlash(folderId, filename);
    CollapseWithoutDoubleSlash(folderId + "/" + filename);
  }

  /** A move keeps the file's base name and puts it directly under the target folder. */
  lemma MoveTargetJoins(fileId: string, toFolderId: string)
    requires NoDoubleSlash(toFolderId) && (toFolderId == [] || toFolderId[|toFolderId| - 1] != '/')
    ensures MoveTarget(fileId, toFolderId) == toFolderId + "/" + Basename(fileId)
  {
    var b := Basename(fileId);
    assert NoDoubleSlash(b);
    JoinNoDoubleSlash(toFolderId, b);
    CollapseWithoutDoubleSlash(toFolderId + "/" + b);
  }

  /** Passing the failed folder itself, as the move's contract expects, puts the file at `failed/name`. */
  lemma CorrectedQuarantineTarget(source: string, failed: string, name: string)
    requires NoDoubleSlash(failed) && failed != [] && failed[|failed| - 1] != '/'
    requires '/' !in name
    ensures MoveTarget(source + "/" + name, failed) == failed + "/" + name
  {
    BasenameOfChild(source, name);
    MoveTargetJoins(source + "/" + name, failed);
  }

  // ------------------------------------------------------------ upload

  /** Issue the requests in order, stopping at the first that raises. */
  function Issue(fault: DropboxCall -> Option<Exc>, ops: seq<UploadOp>, path: string): (r: (Option<Exc>, seq<DropboxCall>))
    ensures |r.1| <= |ops|
  {
    if ops == [] then (None, [])
    else
      match fault(UploadCall(ops[0], path))
      case Some(e) => (Some(e), [UploadCall(ops[0], path)])
      case None =>
        var rest := Issue(fault, ops[1..], path);
        (rest.0, [UploadCall(ops[0], path)] + rest.1)
  }

  /**
   * The requests are sent in order, each after the previous one succeeded:
   * the run stops at the first request that raises and returns its error,
   * and succeeds only after every request succeeded.
   */
  lemma {:induction false} IssueStopsAtFirstFailure(fault: DropboxCall -> Option<Exc>, ops: seq<UploadOp>, path: string)
    ensures var (err, calls) := Issue(fault, ops, path);
            && (forall i :: 0 <= i < |calls| ==> calls[i] == UploadCall(ops[i], path))
            && (forall i :: 0 <= i < |calls| - 1 ==> fault(calls[i]).None?)
            && (err.None? <==> |calls| == |ops| && forall i :: 0 <= i < |calls| ==> fault(calls[i]).None?)
            && (err.Some? ==> |calls| > 0 && err == fault(calls[|calls| - 1]))
  {
    if ops != [] {
      IssueStopsAtFirstFailure(fault, ops[1..], path);
      var (err, calls) := Issue(fault, ops, path);
      var first := UploadCall(ops[0], path);
      if fault(first).None? {
        var rest := Issue(fault, ops[1..], path);
        assert calls == [first] + rest.1;
        assert forall i :: 0 < i < |calls| ==> calls[i] == rest.1[i - 1];
      }
    }
  }

  /** Issuing `op` before `rest`: either `op` raises and nothing follows, or `rest` is issued after it. */
  lemma IssueCons(fault: DropboxCall -> Option<Exc>, op: UploadOp, rest: seq<UploadOp>, path: string)
    ensures fault(UploadCall(op, path)).Some? ==>
              Issue(fault, [op] + rest, path) == (fault(UploadCall(op, path)), [UploadCall(op, path)])
    ensures fault(UploadCall(op, path)).None? ==>
              Issue(fault, [op] + rest, path)
              == (Issue(fault, rest, path).0, [UploadCall(op, path)] + Issue(fault, rest, path).1)
  {
    assert ([op] + rest)[0] == op;
    assert ([op] + rest)[1..] == rest;
  }

  /**
   * One turn of the session loop as written, when what remains after the
   * read is at most one chunk: a finish is issued at the old offset, and the
   * rest of the loop follows unless it raised.
   */
  lemma AsWrittenFinishStep(fault: DropboxCall -> Option<Exc>, size: nat, chunk: nat, pos: nat, next: nat, offset: nat,
                            path: string)
    requires chunk > 0 && pos < size && next == Min(pos + chunk, size) && size - next <= chunk
    ensures var call := UploadCall(SessionFinish(pos, next, offset), path);
            var tail := Issue(fault, ChunkLoop(size, chunk, next, offset), path);
            Issue(fault, ChunkLoop(size, chunk, pos, offset), path)
            == if fault(call).Some? then (fault(call), [call]) else (tail.0, [call] + tail.1)
  {
    IssueCons(fault, SessionFinish(pos, next, offset), ChunkLoop(size, chunk, next, offset), path);
  }

  /**
   * One turn of the session loop as written, when more than one chunk
   * remains after the read: an append is issued, the cursor moves to the
   * bytes read, and the rest of the loop follows unless it raised.
   */
  lemma AsWrittenAppendStep(fault: DropboxCall -> Option<Exc>, size: nat, chunk: nat, pos: nat, next: nat, offset: nat,
                            path: string)
    requires chunk > 0 && pos < size && next == Min(pos + chunk, size) && size - next > chunk
    ensures var call := UploadCall(SessionAppend(pos, next, offset), path);
            var tail := Issue(fault, ChunkLoop(size, chunk, next, next), path);
            Issue(fault, ChunkLoop(size, chunk, pos, offset), path)
            == if fault(call).Some? then (fault(call), [call]) else (tail.0, [call] + tail.1)
  {
    IssueCons(fault, SessionAppend(pos, next, offset), ChunkLoop(size, chunk, next, next), path);
  }

  /** One turn of the corrected loop: a full chunk is appended while more than one chunk remains. */
  lemma FixedStep(fault: DropboxCall -> Option<Exc>, size: nat, chunk: nat, pos: nat, path: string)
    requires chunk > 0 && pos <= size && size - pos > chunk
    ensures var call := UploadCall(SessionAppend(pos, pos + chunk, pos), path);
            var tail := Issue(fault, FixedLoop(size, chunk, pos + chunk), path);
            Issue(fault, FixedLoop(size, chunk, pos), path)
            == if fault(call).Some? then (fault(call), [call]) else (tail.0, [call] + tail.1)
  {
    IssueCons(fault, SessionAppend(pos, pos + chunk, pos), FixedLoop(size, chunk, pos + chunk), path);
  }

  /** The end of the corrected loop: the rest is sent by one finish. */
  lemma FixedLast(fault: DropboxCall -> Option<Exc>, size: nat, chunk: nat, pos: nat, path: string)
    requires chunk > 0 && pos <= size && size - pos <= chunk
    ensures var call := UploadCall(SessionFinish(pos, size, pos), path);
            Issue(fault, FixedLoop(size, chunk, pos), path) == (fault(call), [call])
  {
    var call := UploadCall(SessionFinish(pos, size, pos), path);
    IssueCons(fault, SessionFinish(pos, size, pos), [], path);
    assert FixedLoop(size, chunk, pos) == [SessionFinish(pos, size, pos)] + [];
    assert Issue(fault, [], path) == (None, []);
    assert [call] + [] == [call];
  }

  // ------------------------------------------------------------ the client

  class DropboxClient {
    const account: DropboxAccount
    var trace: seq<DropboxCall>

    constructor(account: DropboxAccount)
      ensures this.account == account && trace == []
    {
      this.account := account;
      trace := [];
    }

    /** `list_files`: follows the cursor while `has_more`, then maps the file entries to DTOs. */
    method ListFiles(folderId: string) returns (r: Reply<seq<FileMetadata>>)
      requires ListingEnds(account.listing(folderId))
      modifies this
      ensures r == ListSpec(account.listing(folderId), folderId).0
      ensures trace == old(trace) + ListSpec(account.listing(folderId), folderId).1
    {
      var pages := account.listing(folderId);
      trace := trace + [ListFolder(folderId)];
      ghost var sent := [ListFolder(folderId)];
      var i := 0;
      var reply := pages[0];
      if reply.Raised? {
        FirstEndingPage(pages, 0);
        return if reply.error == DropboxApiError then Ok([]) else Raised(reply.error);
      }
      var allEntries := reply.value.entries;
      while reply.value.hasMore
        invariant i <= FirstWhere(pages, Ends) && reply == pages[i] && reply.Ok?
        invariant forall j :: 0 <= j <= i ==> pages[j].Ok?
        invariant allEntries == Entries(pages, i + 1)
        invariant sent == [ListFolder(folderId)] + ContinueCalls(pages, i)
        invariant trace == old(trace) + sent
        decreases FirstWhere(pages, Ends) - i
      {
        assert i != FirstWhere(pages, Ends) by {
          assert !Ends(pages[i]);
        }
        var call := ListFolderContinue(reply.value.cursor);
        AppendAssoc([ListFolder(folderId)], ContinueCalls(pages, i), [call]);
        AppendAssoc(old(trace), sent, [call]);
        trace := trace + [call];
        sent := sent + [call];
        i := i + 1;
        reply := pages[i];
        if reply.Raised? {
          FirstEndingPage(pages, i);
          return if reply.error == DropboxApiError then Ok([]) else Raised(reply.error);
        }
        allEntries := allEntries + reply.value.entries;
      }
      FirstEndingPage(pages, i);
      var fileDtos := FileDtos(allEntries, folderId);
      r := Ok(fileDtos);
    }

    method DownloadFile(fileId: string, localPath: string) returns (err: Option<Exc>)
      modifies this
      ensures err == account.fault(DownloadToFile(localPath, fileId))
      ensures trace == old(trace) + [DownloadToFile(localPath, fileId)]
    {
      trace := trace + [DownloadToFile(localPath, fileId)];
      err := account.fault(DownloadToFile(localPath, fileId));
    }

    /**
     * `upload_file` as written, for a local file of `fileSize` bytes: the
     * requests of AsWrittenPlan are made in order until one raises.
     */
    method UploadFile(folderId: string, filename: string, fileSize: nat, chunkSize: nat) returns (err: Option<Exc>)
      requires chunkSize > 0
      modifies this
      ensures err == Issue(account.fault, AsWrittenPlan(fileSize, chunkSize), RemotePath(folderId, filename)).0
      ensures trace == old(trace) + Issue(account.fault, AsWrittenPlan(fileSize, chunkSize), RemotePath(folderId, filename)).1
    {
      var remotePath := RemotePath(folderId, filename);
      var fault := account.fault;
      ghost var plan := AsWrittenPlan(fileSize, chunkSize);
      var op: UploadOp;
      if fileSize < chunkSize {
        op := FilesUpload(0, fileSize);
        assert plan == [op] + [];
        IssueCons(fault, op, [], remotePath);
        trace := trace + [UploadCall(op, remotePath)];
        err := fault(UploadCall(op, remotePath));
        return;
      }
      op := SessionStart(0, chunkSize);
      var pos: nat := chunkSize;         // f.tell()
      var offset: nat := chunkSize;      // cursor.offset
      ghost var rest := ChunkLoop(fileSize, chunkSize, pos, offset);
      IssueCons(fault, op, rest, remotePath);
      trace := trace + [UploadCall(op, remotePath)];
      err := fault(UploadCall(op, remotePath));
      if err.Some? {
        return;
      }
      ghost var sent := [UploadCall(op, remotePath)];
      while pos < fileSize
        invariant pos <= fileSize && err == None
        invariant rest == ChunkLoop(fileSize, chunkSize, pos, offset)
        invariant Issue(fault, plan, remotePath) == (Issue(fault, rest, remotePath).0, sent + Issue(fault, rest, remotePath).1)
        invariant trace == old(trace) + sent
        decreases fileSize - pos
      {
        var start: nat := pos;
        pos := Min(pos + chunkSize, fileSize);      // next_chunk = f.read(chunk_size)
        if fileSize - pos <= chunkSize {
          op := SessionFinish(start, pos, offset);
          AsWrittenFinishStep(fault, fileSize, chunkSize, start, pos, offset, remotePath);
        } else {
          op := SessionAppend(start, pos, offset);
          AsWrittenAppendStep(fault, fileSize, chunkSize, start, pos, offset, remotePath);
        }
        var call := UploadCall(op, remotePath);
        AppendAssoc(old(trace), sent, [call]);
        trace := trace + [call];
        err := fault(call);
        if op.SessionAppend? {
          offset := pos;                             // cursor.offset = f.tell()
        }
        ghost var tail := Issue(fault, ChunkLoop(fileSize, chunkSize, pos, offset), remotePath);
        AppendAssoc(sent, [call], tail.1);
        if err.Some? {
          assert sent + [call] + [] == sent + [call];
          return;
        }
        sent := sent + [call];
        rest := ChunkLoop(fileSize, chunkSize, pos, offset);
      }
      assert rest == [] && sent + [] == sent;
    }

    /**
     * `upload_file` with the "last chunk" test made before the read: full
     * chunks are appended while more than one chunk remains, and the rest
     * is sent by exactly one finish (CorrectedPlanWellFormed).
     */
    method UploadFileCorrected(folderId: string, filename: string, fileSize: nat, chunkSize: nat) returns (err: Option<Exc>)
      requires chunkSize > 0
      modifies this
      ensures err == Issue(account.fault, CorrectedPlan(fileSize, chunkSize), RemotePath(folderId, filename)).0
      ensures trace == old(trace) + Issue(account.fault, CorrectedPlan(fileSize, chunkSize), RemotePath(folderId, filename)).1
    {
      var remotePath := RemotePath(folderId, filename);
      var fault := account.fault;
      ghost var plan := CorrectedPlan(fileSize, chunkSize);
      var op: UploadOp;
      if fileSize < chunkSize {
        op := FilesUpload(0, fileSize);
        assert plan == [op] + [];
        IssueCons(fault, op, [], remotePath);
        trace := trace + [UploadCall(op, remotePath)];
        err := fault(UploadCall(op, remotePath));
        return;
      }
      op := SessionStart(0, chunkSize);
      var pos: nat := chunkSize;
      ghost var rest := FixedLoop(fileSize, chunkSize, pos);
      IssueCons(fault, op, rest, remotePath);
      trace := trace + [UploadCall(op, remotePath)];
      err := fault(UploadCall(op, remotePath));
      if err.Some? {
        return;
      }
      ghost var sent := [UploadCall(op, remotePath)];
      while fileSize - pos > chunkSize
        invariant pos <= fileSize && err == None
        invariant rest == FixedLoop(fileSize, chunkSize, pos)
        invariant Issue(fault, plan, remotePath) == (Issue(fault, rest, remotePath).0, sent + Issue(fault, rest, remotePath).1)
        invariant trace == old(trace) + sent
        decreases fileSize - pos
      {
        FixedStep(fault, fileSize, chunkSize, pos, remotePath);
        op := SessionAppend(pos, pos + chunkSize, pos);
        var call := UploadCall(op, remotePath);
        AppendAssoc(old(trace), sent, [call]);
        trace := trace + [call];
        err := fault(call);
        pos := pos + chunkSize;
        ghost var tail := Issue(fault, FixedLoop(fileSize, chunkSize, pos), remotePath);
        AppendAssoc(sent, [call], tail.1);
        if err.Some? {
          return;
        }
        sent := sent + [call];
        rest := FixedLoop(fileSize, chunkSize, pos);
      }
      FixedLast(fault, fileSize, chunkSize, pos, remotePath);
      op := SessionFinish(pos, fileSize, pos);
      var call := UploadCall(op, remotePath);
      AppendAssoc(old(trace), sent, [call]);
      trace := trace + [call];
      err := fault(call);
    }

    /** `move_file`: the file goes to `to_folder_id` joined with its base name. */
    method MoveFile(fileId: string, toFolderId: string) returns (err: Option<Exc>)
      modifies this
      ensures err == account.fault(MoveV2(fileId, MoveTarget(fileId, toFolderId)))
      ensures trace == old(trace) + [MoveV2(fileId, MoveTarget(fileId, toFolderId))]
    {
      var filename := Basename(fileId);
      var toPath := ReplaceAll(toFolderId + "/" + filename, "//", "/");
      trace := trace + [MoveV2(fileId, toPath)];
      err := account.fault(MoveV2(fileId, toPath));
    }

    method DeleteFile(fileId: string) returns (err: Option<Exc>)
      modifies this
      ensures err == account.fault(DeleteV2(fileId))
      ensures trace == old(trace) + [DeleteV2(fileId)]
    {
      trace := trace + [DeleteV2(fileId)];
      err := account.fault(DeleteV2(fileId));
    }

    /** `verify_folder_exists`: the root "" needs no call; otherwise a lookup error is re-raised. */
    method VerifyFolderExists(folderId: string) returns (err: Option<Exc>)
      modifies this
      ensures folderId == "" ==> err == None && trace == old(trace)
      ensures folderId != "" ==> err == account.fault(GetMetadata(folderId))
                                 && trace == old(trace) + [GetMetadata(folderId)]
    {
      if folderId == "" {
        return None;
      }
      trace := trace + [GetMetadata(folderId)];
      err := account.fault(GetMetadata(folderId));
    }
  }
}
