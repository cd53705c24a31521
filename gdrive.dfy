/**
 * The Google Drive adapter (`GoogleDriveClient` in src/gdrive.py): the
 * segment-by-segment folder walk that fills an id cache in place, and the
 * error mapping of the remaining calls. The Drive service is an oracle.
 */
module GoogleDrive {
  import opened Wrappers
  import opened Exceptions
  import opened Strings
  import opened Dto

  const FolderMimeType := "application/vnd.google-apps.folder"

  /** An item of a `files().list` response. */
  datatype DriveItem = DriveItem(id: string, name: string)

  /** The Drive requests the adapter makes. */
  datatype DriveCall =
    | FindFolder(name: string, parentId: string)
    | CreateFolder(name: string, parentId: string)
    | GetMimeType(fileId: string)
    | ListChildren(folderId: string)
    | FindFile(filename: string, folderId: string)
    | CreateFile(localPath: string, folderId: string, filename: string)
    | DeleteRequest(fileId: string)
    | GetMedia(fileId: string, localPath: string)
    | GetParents(fileId: string)
    | UpdateParents(fileId: string, addParents: string, removeParents: string)

  /**
   * The Drive service: the answer to each query, and for the requests that
   * only succeed or raise, whether they raise.
   */
  datatype DriveApi = DriveApi(
    findFolder: (string, string) -> Reply<Option<string>>,
    createFolder: (string, string) -> Reply<string>,
    mimeType: string -> Reply<string>,
    children: string -> Reply<seq<DriveItem>>,
    findFile: (string, string) -> Reply<Option<string>>,
    parents: string -> Reply<seq<string>>,
    fault: DriveCall -> Option<Exc>)

  /** The name lookups catch `HttpError` and answer None; any other exception escapes. */
  function Lookup(r: Reply<Option<string>>): (found: Reply<Option<string>>)
    ensures r.Raised? && r.error.HttpError? ==> found == Ok(None)
    ensures !(r.Raised? && r.error.HttpError?) ==> found == r
  {
    if r.Raised? && r.error.HttpError? then Ok(None) else r
  }

  // ------------------------------------------------------------ folder walk

  /** The cache key of the first k segments: `"/".join(parts[:k])`. */
  function Key(parts: seq<string>, k: nat): string
    requires 1 <= k <= |parts|
  {
    Join(parts[..k], "/")
  }

  /** The segments of a folder path: `folder_path.strip("/").split("/")`. */
  function Segments(folderPath: string): (parts: seq<string>)
    ensures |parts| >= 1
  {
    Split(Strip(folderPath, '/'), '/')
  }

  /**
   * The locals of the walk: the cache, `current_parent_id`, `folder_id`
   * (None while no iteration has assigned it), the requests made, and the
   * exception that ended the walk, if any.
   */
  datatype Walk = Walk(cache: map<string, string>, current: string, folderId: Option<string>,
                       calls: seq<DriveCall>, error: Option<Exc>)

  function Start(cache: map<string, string>, parentId: string): Walk {
    Walk(cache, parentId, None, [], None)
  }

  function Record(w: Walk, key: string, id: string): Walk {
    w.(cache := w.cache[key := id], current := id, folderId := Some(id))
  }

  /** The walk over the first k segments; it stops at the first exception. */
  function WalkTo(api: DriveApi, parts: seq<string>, w0: Walk, k: nat): Walk
    requires k <= |parts| && w0.error.None?
    decreases k, 0
  {
    if k == 0 then w0 else Visit(api, parts, w0, k - 1)
  }

  /**
   * Segment i, after the walk over the segments before it: a cached prefix
   * only moves the parent; otherwise the segment is looked up under the
   * parent, created when the lookup finds nothing, and recorded in the
   * cache.
   */
  function Visit(api: DriveApi, parts: seq<string>, w0: Walk, i: nat): Walk
    requires i < |parts| && w0.error.None?
    decreases i, 1
  {
    var w := WalkTo(api, parts, w0, i);
    var part := parts[i];
    var key := Key(parts, i + 1);
    if w.error.Some? then w
    else if key in w.cache then w.(current := w.cache[key])
    else
      var lookupCall := FindFolder(part, w.current);
      match Lookup(api.findFolder(part, w.current))
      case Raised(e) => w.(calls := w.calls + [lookupCall], error := Some(e))
      case Ok(found) =>
        if Truthy(found) then Record(w.(calls := w.calls + [lookupCall]), key, found.value)
        else
          var calls := w.calls + [lookupCall, CreateFolder(part, w.current)];
          match api.createFolder(part, w.current)
          case Raised(e) => w.(calls := calls, folderId := found, error := Some(if e.HttpError? then PermanentError else e))
          case Ok(id) => Record(w.(calls := calls), key, id)
  }

  /**
   * What one iteration promises: every cached entry is kept, at most its own
   * prefix is added, a cached prefix costs no request, an uncached one is
   * looked up under the current parent first, and a failed creation turns
   * into PermanentError.
   */
  lemma StepFacts(api: DriveApi, parts: seq<string>, w0: Walk, k: nat)
    requires 1 <= k <= |parts| && w0.error.None? && WalkTo(api, parts, w0, k - 1).error.None?
    ensures var w := WalkTo(api, parts, w0, k - 1);
            var w' := WalkTo(api, parts, w0, k);
            var key := Key(parts, k);
            && (forall old_key :: old_key in w.cache ==> old_key in w'.cache && w'.cache[old_key] == w.cache[old_key])
            && (forall new_key :: new_key in w'.cache ==> new_key in w.cache || new_key == key)
            && (w'.error.None? ==> key in w'.cache && w'.current == w'.cache[key])
            && (key in w.cache ==> w'.calls == w.calls && w'.folderId == w.folderId && w'.error.None?)
            && (key !in w.cache ==> |w'.calls| > |w.calls| && w'.calls[|w.calls|] == FindFolder(parts[k - 1], w.current))
            && (&& key !in w.cache && Lookup(api.findFolder(parts[k - 1], w.current)).Ok?
                && !Truthy(Lookup(api.findFolder(parts[k - 1], w.current)).value)
                && api.createFolder(parts[k - 1], w.current).Raised?
                && api.createFolder(parts[k - 1], w.current).error.HttpError?
                ==> w'.error == Some(PermanentError))
  {
  }

  /** What `ensure_folder_path_exists` returns, and the cache and requests it leaves. */
  datatype Ensured = Ensured(result: Reply<string>, cache: map<string, string>, calls: seq<DriveCall>)

  /**
   * `ensure_folder_path_exists` as written. After the loop, line 107 stores
   * `folder_id` under the last prefix: that raises UnboundLocalError when
   * every segment came from the cache, and otherwise overwrites the last
   * prefix with the id of the last segment that was not cached.
   */
  function EnsureAsWritten(api: DriveApi, cache: map<string, string>, folderPath: string, parentId: string): (e: Ensured)
    ensures folderPath in cache ==> e == Ensured(Ok(cache[folderPath]), cache, [])
  {
    if folderPath in cache then Ensured(Ok(cache[folderPath]), cache, [])
    else
      var parts := Segments(folderPath);
      var w := WalkTo(api, parts, Start(cache, parentId), |parts|);
      if w.error.Some? then Ensured(Raised(w.error.value), w.cache, w.calls)
      else match w.folderId
        case None => Ensured(Raised(UnboundLocalError), w.cache, w.calls)
        case Some(id) => Ensured(Ok(w.current), w.cache[Key(parts, |parts|) := id], w.calls)
  }

  /** The walk without line 107: each prefix keeps the id its own iteration recorded. */
  function EnsureCorrected(api: DriveApi, cache: map<string, string>, folderPath: string, parentId: string): (e: Ensured)
    ensures folderPath in cache ==> e == Ensured(Ok(cache[folderPath]), cache, [])
  {
    if folderPath in cache then Ensured(Ok(cache[folderPath]), cache, [])
    else
      var parts := Segments(folderPath);
      var w := WalkTo(api, parts, Start(cache, parentId), |parts|);
      if w.error.Some? then Ensured(Raised(w.error.value), w.cache, w.calls)
      else Ensured(Ok(w.current), w.cache, w.calls)
  }

  /** Once the walk has raised, later segments change nothing. */
  lemma {:induction false} WalkStops(api: DriveApi, parts: seq<string>, w0: Walk, k: nat, m: nat)
    requires k <= m <= |parts| && w0.error.None?
    requires WalkTo(api, parts, w0, k).error.Some?
    ensures WalkTo(api, parts, w0, m) == WalkTo(api, parts, w0, k)
    decreases m
  {
    if m > k {
      WalkStops(api, parts, w0, k, m - 1);
    }
  }

  /** The walk keeps every entry it started with. */
  lemma {:induction false} WalkKeepsCache(api: DriveApi, parts: seq<string>, w0: Walk, k: nat)
    requires k <= |parts| && w0.error.None?
    ensures var w := WalkTo(api, parts, w0, k);
            forall key :: key in w0.cache ==> key in w.cache && w.cache[key] == w0.cache[key]
  {
    if k > 0 {
      WalkKeepsCache(api, parts, w0, k - 1);
      if WalkTo(api, parts, w0, k - 1).error.None? {
        StepFacts(api, parts, w0, k);
      }
    }
  }

  /** After k segments without error every prefix 1..k is cached and the parent is the last prefix's id. */
  lemma {:induction false} WalkCachesPrefixes(api: DriveApi, parts: seq<string>, w0: Walk, k: nat)
    requires 1 <= k <= |parts| && w0.error.None?
    ensures var w := WalkTo(api, parts, w0, k);
            w.error.None? ==>
              && (forall j :: 1 <= j <= k ==> Key(parts, j) in w.cache)
              && w.current == w.cache[Key(parts, k)]
  {
    var prev := WalkTo(api, parts, w0, k - 1);
    var w := WalkTo(api, parts, w0, k);
    if k > 1 {
      WalkCachesPrefixes(api, parts, w0, k - 1);
    }
    if prev.error.None? {
      StepFacts(api, parts, w0, k);
      if w.error.None? {
        forall j | 1 <= j <= k
          ensures Key(parts, j) in w.cache
        {
          if j < k {
            assert Key(parts, j) in prev.cache;
          }
        }
      }
    }
  }

  /** The walk adds no key but the prefixes of the path. */
  lemma {:induction false} WalkAddsOnlyPrefixes(api: DriveApi, parts: seq<string>, w0: Walk, k: nat)
    requires k <= |parts| && w0.error.None?
    ensures var w := WalkTo(api, parts, w0, k);
            forall key :: key in w.cache && key !in w0.cache ==> exists j :: 1 <= j <= k && key == Key(parts, j)
  {
    if k > 0 {
      var prev := WalkTo(api, parts, w0, k - 1);
      WalkAddsOnlyPrefixes(api, parts, w0, k - 1);
      if prev.error.None? {
        var w := WalkTo(api, parts, w0, k);
        StepFacts(api, parts, w0, k);
        forall key | key in w.cache && key !in w0.cache
          ensures exists j :: 1 <= j <= k && key == Key(parts, j)
        {
          if key in prev.cache {
            var j :| 1 <= j <= k - 1 && key == Key(parts, j);
            assert 1 <= j <= k && key == Key(parts, j);
          } else {
            assert key == Key(parts, k);
          }
        }
      }
    }
  }

  /** When every prefix is already cached, the walk makes no request and changes nothing. */
  lemma {:induction false} CachedWalk(api: DriveApi, parts: seq<string>, w0: Walk, k: nat)
    requires k <= |parts| && w0.error.None?
    requires forall j :: 1 <= j <= |parts| ==> Key(parts, j) in w0.cache
    ensures var w := WalkTo(api, parts, w0, k);
            && w.error.None? && w.cache == w0.cache && w.calls == w0.calls && w.folderId == w0.folderId
            && (k >= 1 ==> w.current == w0.cache[Key(parts, k)])
  {
    if k > 0 {
      CachedWalk(api, parts, w0, k - 1);
      StepFacts(api, parts, w0, k);
    }
  }

  /**
   * Without line 107, a successful walk leaves every prefix of the path
   * cached, the returned id under the full path, and every earlier entry
   * untouched.
   */
  lemma CorrectedCachesEveryPrefix(api: DriveApi, cache: map<string, string>, folderPath: string, parentId: string)
    requires folderPath !in cache
    ensures var e := EnsureCorrected(api, cache, folderPath, parentId);
            var parts := Segments(folderPath);
            && (forall key :: key in cache ==> key in e.cache && e.cache[key] == cache[key])
            && (e.result.Ok? ==>
                  && (forall j :: 1 <= j <= |parts| ==> Key(parts, j) in e.cache)
                  && e.result.value == e.cache[Key(parts, |parts|)])
  {
    var parts := Segments(folderPath);
    WalkKeepsCache(api, parts, Start(cache, parentId), |parts|);
    WalkCachesPrefixes(api, parts, Start(cache, parentId), |parts|);
  }

  /** Of the prefix keys of a path, only the last can equal the path itself. */
  lemma OnlyTheFullKeyIsThePath(folderPath: string, j: nat)
    requires 1 <= j <= |Segments(folderPath)| && folderPath == Key(Segments(folderPath), j)
    ensures j == |Segments(folderPath)|
  {
    var parts := Segments(folderPath);
    if j < |parts| {
      assert parts[..|parts|] == parts;
      JoinPrefixShorter(parts, j, "/");
      JoinSplit(Strip(folderPath, '/'), '/');
      assert false;
    }
  }

  /** Without line 107, asking again for the same path returns the same id with no request. */
  lemma CorrectedIsIdempotent(api: DriveApi, cache: map<string, string>, folderPath: string, parentId: string)
    requires EnsureCorrected(api, cache, folderPath, parentId).result.Ok?
    ensures var e := EnsureCorrected(api, cache, folderPath, parentId);
            EnsureCorrected(api, e.cache, folderPath, parentId) == Ensured(e.result, e.cache, [])
  {
    var e := EnsureCorrected(api, cache, folderPath, parentId);
    if folderPath !in cache {
      var parts := Segments(folderPath);
      CorrectedCachesEveryPrefix(api, cache, folderPath, parentId);
      if folderPath !in e.cache {
        CachedWalk(api, parts, Start(e.cache, parentId), |parts|);
      } else if e.result.Ok? {
        WalkAddsOnlyPrefixes(api, parts, Start(cache, parentId), |parts|);
        var j :| 1 <= j <= |parts| && folderPath == Key(parts, j);
        OnlyTheFullKeyIsThePath(folderPath, j);
      }
    }
  }

  /**
   * As written, a path whose last prefix is cached but whose first segment
   * is not gets its cache entry overwritten with the first segment's id:
   * with {"a/b": B} cached, `ensure("a/b/")` returns B but leaves "a/b" -> A,
   * so the next `ensure("a/b")` answers A.
   */
  lemma AsWrittenOverwritesCachedPrefix(api: DriveApi)
    requires api.findFolder("a", "root") == Ok(Some("A"))
    ensures var e := EnsureAsWritten(api, map["a/b" := "B"], "a/b/", "root");
            && e.result == Ok("B")
            && "a/b" in e.cache && e.cache["a/b"] == "A"
            && EnsureAsWritten(api, e.cache, "a/b", "root").result == Ok("A")
  {
    var parts := Segments("a/b/");
    assert "a/b/"[..3] == "a/b";
    assert Strip("a/b/", '/') == "a/b";
    assert "a" + ['/'] + "b" == "a/b";
    SplitAppend("a", '/', "b");
    SplitWithoutSeparator("a", '/');
    SplitWithoutSeparator("b", '/');
    assert parts == ["a", "b"];
    assert Key(parts, 1) == "a";
    assert Key(parts, 2) == "a/b";
    var cache := map["a/b" := "B"];
    var w0 := Start(cache, "root");
    assert parts[0] == "a" && "a" !in cache;
    assert Lookup(api.findFolder("a", "root")) == Ok(Some("A"));
    var w1 := WalkTo(api, parts, w0, 1);
    assert WalkTo(api, parts, w0, 0) == w0;
    assert w1 == Record(w0.(calls := [FindFolder("a", "root")]), "a", "A");
    assert w1 == Walk(cache["a" := "A"], "A", Some("A"), [FindFolder("a", "root")], None);
    var w2 := WalkTo(api, parts, w0, 2);
    assert w2 == w1.(current := "B");
  }

  /** As written, a path whose every segment is cached raises UnboundLocalError: {"a": A} and "/a". */
  lemma AsWrittenUnboundWhenAllCached(api: DriveApi)
    ensures EnsureAsWritten(api, map["a" := "A"], "/a", "root") == Ensured(Raised(UnboundLocalError), map["a" := "A"], [])
    ensures EnsureCorrected(api, map["a" := "A"], "/a", "root") == Ensured(Ok("A"), map["a" := "A"], [])
  {
    var parts := Segments("/a");
    assert "/a"[1..] == "a";
    assert Strip("/a", '/') == "a";
    SplitWithoutSeparator("a", '/');
    assert parts == ["a"];
    assert Key(parts, 1) == "a";
    var cache := map["a" := "A"];
    assert WalkTo(api, parts, Start(cache, "root"), 1) == Start(cache, "root").(current := "A");
  }

  // ------------------------------------------------------------ other calls

  /** `verify_folder_exists`: only a folder passes; everything the service says otherwise is PermanentError. */
  function VerifyError(reply: Reply<string>): (err: Option<Exc>)
    ensures err == None <==> reply == Ok(FolderMimeType)
    ensures err.Some? && (reply.Ok? || reply.error.HttpError?) ==> err == Some(PermanentError)
    ensures reply.Raised? && !reply.error.HttpError? ==> err == Some(reply.error)
  {
    match reply
    case Ok(mime) => if mime == FolderMimeType then None else Some(PermanentError)
    case Raised(e) => if e.HttpError? then Some(PermanentError) else Some(e)
  }

  /** The DTOs of a listing: id and path are the Drive id, the folder is the listed one. */
  function DriveDtos(items: seq<DriveItem>, folderId: string): (r: seq<FileMetadata>)
    ensures |r| == |items|
    ensures forall i :: 0 <= i < |r| ==>
              r[i].id == items[i].id && r[i].path == items[i].id && r[i].name == items[i].name
              && r[i].folderId == Some(folderId)
  {
    seq(|items|, i requires 0 <= i < |items| => FileMetadata(items[i].id, items[i].name, items[i].id, Some(folderId)))
  }

  /** `delete_file`: a 404 means there is nothing to delete; any other exception escapes. */
  function DeleteError(fault: Option<Exc>): (err: Option<Exc>)
    ensures err == None <==> fault == None || fault == Some(HttpError(404))
    ensures err.Some? ==> err == fault
  {
    if fault == Some(HttpError(404)) then None else fault
  }

  /** `download_file`: a 404 becomes FileNotFoundError; any other exception escapes unchanged. */
  function DownloadError(fault: Option<Exc>): (err: Option<Exc>)
    ensures fault == Some(HttpError(404)) ==> err == Some(FileNotFoundError)
    ensures fault != Some(HttpError(404)) ==> err == fault
  {
    if fault == Some(HttpError(404)) then Some(FileNotFoundError) else fault
  }

  /** `upload_file`: the error it raises and the requests it makes. */
  function UploadSpec(api: DriveApi, localPath: string, folderId: string, filename: string): (Option<Exc>, seq<DriveCall>)
  {
    var find := FindFile(filename, folderId);
    var create := CreateFile(localPath, folderId, filename);
    match Lookup(api.findFile(filename, folderId))
    case Raised(e) => (Some(e), [find])
    case Ok(existing) =>
      if Truthy(existing) then
        var deleteErr := DeleteError(api.fault(DeleteRequest(existing.value)));
        if deleteErr.Some? then (deleteErr, [find, DeleteRequest(existing.value)])
        else (api.fault(create), [find, DeleteRequest(existing.value), create])
      else (api.fault(create), [find, create])
  }

  /**
   * A same-named file in the folder is deleted before the new one is
   * created, and a failed delete stops the upload; without one, the file is
   * created straight away.
   */
  lemma UploadReplacesExisting(api: DriveApi, localPath: string, folderId: string, filename: string)
    requires Lookup(api.findFile(filename, folderId)).Ok?
    ensures var existing := Lookup(api.findFile(filename, folderId)).value;
            var (err, calls) := UploadSpec(api, localPath, folderId, filename);
            && calls[0] == FindFile(filename, folderId)
            && (Truthy(existing) ==>
                  && calls[1] == DeleteRequest(existing.value)
                  && (DeleteError(api.fault(DeleteRequest(existing.value))).Some? <==> |calls| == 2)
                  && (|calls| == 3 ==> calls[2] == CreateFile(localPath, folderId, filename)
                                       && err == api.fault(calls[2])))
            && (!Truthy(existing) ==> calls == [FindFile(filename, folderId), CreateFile(localPath, folderId, filename)]
                                      && err == api.fault(calls[1]))
  {
  }

  // ------------------------------------------------------------ the client

  class GoogleDriveClient {
    const api: DriveApi
    var folderIdsCache: map<string, string>
    var trace: seq<DriveCall>

    constructor(api: DriveApi)
      ensures this.api == api && folderIdsCache == map[] && trace == []
    {
      this.api := api;
      folderIdsCache := map[];
      trace := [];
    }

    /** One iteration of the walk, for segment i (src/gdrive.py:78-105). */
    method VisitSegment(parts: seq<string>, i: nat, current: string, folderId: Option<string>,
                        ghost before: seq<DriveCall>, ghost w0: Walk, ghost w: Walk)
      returns (nextParent: string, nextFolderId: Option<string>, err: Option<Exc>)
      requires i < |parts| && w0.error.None? && w == WalkTo(api, parts, w0, i) && w.error.None?
      requires folderIdsCache == w.cache && current == w.current && folderId == w.folderId
      requires trace == before + w.calls
      modifies this
      ensures var w' := WalkTo(api, parts, w0, i + 1);
              && folderIdsCache == w'.cache && nextParent == w'.current && nextFolderId == w'.folderId
              && err == w'.error && trace == before + w'.calls
    {
      nextParent, nextFolderId, err := current, folderId, None;
      var currentPath := Join(parts[..i + 1], "/");
      if currentPath in folderIdsCache {
        nextParent := folderIdsCache[currentPath];
        return;
      }
      var part := parts[i];
      trace := trace + [FindFolder(part, current)];
      var found := Lookup(api.findFolder(part, current));
      if found.Raised? {
        err := Some(found.error);
        return;
      }
      nextFolderId := found.value;
      if !Truthy(nextFolderId) {
        trace := trace + [CreateFolder(part, current)];
        assert trace == before + (w.calls + [FindFolder(part, current), CreateFolder(part, current)]);
        var created := api.createFolder(part, current);
        if created.Raised? {
          err := Some(if created.error.HttpError? then PermanentError else created.error);
          return;
        }
        nextFolderId := Some(created.value);
      }
      folderIdsCache := folderIdsCache[currentPath := nextFolderId.value];
      nextParent := nextFolderId.value;
    }

    /** The loop of `ensure_folder_path_exists` (src/gdrive.py:77-105). */
    method WalkSegments(parts: seq<string>, parentId: string) returns (current: string, folderId: Option<string>, err: Option<Exc>)
      modifies this
      ensures var w := WalkTo(api, parts, Start(old(folderIdsCache), parentId), |parts|);
              && folderIdsCache == w.cache && current == w.current && folderId == w.folderId && err == w.error
              && trace == old(trace) + w.calls
    {
      ghost var w0 := Start(folderIdsCache, parentId);
      ghost var before := trace;
      current := parentId;
      folderId := None;
      err := None;
      var i := 0;
      ghost var w := w0;
      while i < |parts| && err == None
        invariant i <= |parts| && w == WalkTo(api, parts, w0, i)
        invariant folderIdsCache == w.cache && current == w.current
        invariant folderId == w.folderId && trace == before + w.calls && err == w.error
      {
        current, folderId, err := VisitSegment(parts, i, current, folderId, before, w0, w);
        i := i + 1;
        w := WalkTo(api, parts, w0, i);
      }
      if err.Some? {
        WalkStops(api, parts, w0, i, |parts|);
      }
    }

    /** `ensure_folder_path_exists`, as written (src/gdrive.py:64-108). */
    method EnsureFolderPathExists(folderPath: string, parentId: string) returns (r: Reply<string>)
      modifies this
      ensures var e := EnsureAsWritten(api, old(folderIdsCache), folderPath, parentId);
              r == e.result && folderIdsCache == e.cache && trace == old(trace) + e.calls
    {
      if folderPath in folderIdsCache {
        return Ok(folderIdsCache[folderPath]);
      }
      var parts := Split(Strip(folderPath, '/'), '/');
      var current, folderId, err := WalkSegments(parts, parentId);
      if err.Some? {
        return Raised(err.value);
      }
      if folderId.None? {
        return Raised(UnboundLocalError);
      }
      var currentPath := Join(parts[..|parts|], "/");
      folderIdsCache := folderIdsCache[currentPath := folderId.value];
      return Ok(current);
    }

    /** `ensure_folder_path_exists` without the store after the loop. */
    method EnsureFolderPathExistsCorrected(folderPath: string, parentId: string) returns (r: Reply<string>)
      modifies this
      ensures var e := EnsureCorrected(api, old(folderIdsCache), folderPath, parentId);
              r == e.result && folderIdsCache == e.cache && trace == old(trace) + e.calls
    {
      if folderPath in folderIdsCache {
        return Ok(folderIdsCache[folderPath]);
      }
      var parts := Split(Strip(folderPath, '/'), '/');
      var current, folderId, err := WalkSegments(parts, parentId);
      if err.Some? {
        return Raised(err.value);
      }
      return Ok(current);
    }

    method VerifyFolderExists(folderId: string) returns (err: Option<Exc>)
      modifies this
      ensures err == VerifyError(api.mimeType(folderId))
      ensures trace == old(trace) + [GetMimeType(folderId)] && folderIdsCache == old(folderIdsCache)
    {
      trace := trace + [GetMimeType(folderId)];
      var reply := api.mimeType(folderId);
      if reply.Ok? && reply.value == FolderMimeType {
        return None;
      } else if reply.Ok? {
        return Some(PermanentError);
      } else if reply.error.HttpError? {
        return Some(PermanentError);
      }
      return Some(reply.error);
    }

    /** `list_files`: the folder is verified first; any listing exception gives []. */
    method ListFiles(folderId: string) returns (r: Reply<seq<FileMetadata>>)
      modifies this
      ensures folderIdsCache == old(folderIdsCache)
      ensures VerifyError(api.mimeType(folderId)).Some? ==>
                r == Raised(VerifyError(api.mimeType(folderId)).value) && trace == old(trace) + [GetMimeType(folderId)]
      ensures VerifyError(api.mimeType(folderId)).None? ==>
                && trace == old(trace) + [GetMimeType(folderId), ListChildren(folderId)]
                && r == Ok(if api.children(folderId).Ok? then DriveDtos(api.children(folderId).value, folderId) else [])
    {
      var err := VerifyFolderExists(folderId);
      if err.Some? {
        return Raised(err.value);
      }
      trace := trace + [ListChildren(folderId)];
      var response := api.children(folderId);
      if response.Raised? {
        return Ok([]);
      }
      return Ok(DriveDtos(response.value, folderId));
    }

    method DownloadFile(fileId: string, localPath: string) returns (err: Option<Exc>)
      modifies this
      ensures err == DownloadError(api.fault(GetMedia(fileId, localPath)))
      ensures trace == old(trace) + [GetMedia(fileId, localPath)] && folderIdsCache == old(folderIdsCache)
    {
      trace := trace + [GetMedia(fileId, localPath)];
      var fault := api.fault(GetMedia(fileId, localPath));
      if fault == Some(HttpError(404)) {
        return Some(FileNotFoundError);
      }
      return fault;
    }

    method UploadFile(localPath: string, folderId: string, filename: string) returns (err: Option<Exc>)
      modifies this
      ensures err == UploadSpec(api, localPath, folderId, filename).0
      ensures trace == old(trace) + UploadSpec(api, localPath, folderId, filename).1
      ensures folderIdsCache == old(folderIdsCache)
    {
      trace := trace + [FindFile(filename, folderId)];
      var existing := Lookup(api.findFile(filename, folderId));
      if existing.Raised? {
        return Some(existing.error);
      }
      if Truthy(existing.value) {
        err := DeleteFile(existing.value.value);
        if err.Some? {
          return;
        }
      }
      trace := trace + [CreateFile(localPath, folderId, filename)];
      err := api.fault(CreateFile(localPath, folderId, filename));
    }

    method DeleteFile(fileId: string) returns (err: Option<Exc>)
      modifies this
      ensures err == DeleteError(api.fault(DeleteRequest(fileId)))
      ensures trace == old(trace) + [DeleteRequest(fileId)] && folderIdsCache == old(folderIdsCache)
    {
      trace := trace + [DeleteRequest(fileId)];
      var fault := api.fault(DeleteRequest(fileId));
      if fault == Some(HttpError(404)) {
        return None;
      }
      return fault;
    }

    /** `move_file`: the file's current parents are replaced by the new folder. */
    method MoveFile(fileId: string, newFolderId: string) returns (err: Option<Exc>)
      modifies this
      ensures api.parents(fileId).Raised? ==>
                err == Some(api.parents(fileId).error) && trace == old(trace) + [GetParents(fileId)]
      ensures api.parents(fileId).Ok? ==>
                var update := UpdateParents(fileId, newFolderId, Join(api.parents(fileId).value, ","));
                err == api.fault(update) && trace == old(trace) + [GetParents(fileId), update]
      ensures folderIdsCache == old(folderIdsCache)
    {
      trace := trace + [GetParents(fileId)];
      var file := api.parents(fileId);
      if file.Raised? {
        return Some(file.error);
      }
      var previousParents := Join(file.value, ",");
      trace := trace + [UpdateParents(fileId, newFolderId, previousParents)];
      err := api.fault(UpdateParents(fileId, newFolderId, previousParents));
    }
  }
}
