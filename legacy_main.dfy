/**
 * One pass of the older driver (`main_workflow` in main.py at the repository
 * root) on the legacy Dropbox client: create the source and destination
 * folders when missing, list the source folder, run the older pipeline on
 * every PDF file entry, and quarantine the entries whose failure is not
 * transient. Its client construction is the same environment-then-file
 * token fallback as the newer driver's and is modelled there
 * (`Workflow.DropboxClientFor`); here a null client stands for "no token
 * connected".
 */
module LegacyWorkflow {
  import opened Wrappers
  import opened Exceptions
  import opened LocalFiles
  import opened Collaborators
  import opened DropboxSdk
  import opened LegacyDbox
  import opened LegacyProcessing
  import Workflow

  type Disposition = Workflow.Disposition
  type PassEnd = Workflow.PassEnd
  type Folders = Workflow.Folders

  /** `list_files` of the legacy client: one page; an ApiError reads as the empty folder. */
  function Listed(a: Account, path: string): Reply<seq<Metadata>> {
    match a.fault(ListFolder(path))
    case None => Ok(a.listing(path))
    case Some(e) => if e == DropboxApiError then Ok([]) else Raised(e)
  }

  /**
   * Create the non-empty folders among the first k of `paths`, stopping at
   * the first `create_folder_if_not_exists` that raises.
   */
  function CreateFolders(env: LegacyEnv, w: LegacyWorld, paths: seq<string>, k: nat): (r: (Option<Exc>, LegacyWorld))
    requires k <= |paths|
    ensures r.1 == w.(sdkCalls := r.1.sdkCalls)
    ensures |r.1.sdkCalls| >= |w.sdkCalls| && r.1.sdkCalls[..|w.sdkCalls|] == w.sdkCalls
    ensures forall i :: |w.sdkCalls| <= i < |r.1.sdkCalls| ==>
              (r.1.sdkCalls[i].GetMetadata? || r.1.sdkCalls[i].CreateFolderV2?)
              && r.1.sdkCalls[i].path != "" && r.1.sdkCalls[i].path in paths
  {
    if k == 0 then (None, w)
    else
      var (err, w1) := CreateFolders(env, w, paths, k - 1);
      if err.Some? || paths[k - 1] == "" then (err, w1)
      else
        var (e, calls) := CreateFolderSpec(env.account, paths[k - 1]);
        (e, w1.(sdkCalls := w1.sdkCalls + calls))
  }

  /** The calls of `create_folder_if_not_exists` for the non-empty paths among the first k, in order. */
  function CreateCalls(a: Account, paths: seq<string>, k: nat): seq<SdkCall>
    requires k <= |paths|
  {
    if k == 0 then []
    else CreateCalls(a, paths, k - 1) + (if paths[k - 1] == "" then [] else CreateFolderSpec(a, paths[k - 1]).1)
  }

  /** Every non-empty path among the first j exists or was created. */
  predicate CreatedBefore(a: Account, paths: seq<string>, j: nat)
    requires j <= |paths|
  {
    forall i :: 0 <= i < j && paths[i] != "" ==> CreateFolderSpec(a, paths[i]).0.None?
  }

  /** With no failure among the first k, each non-empty folder is looked up, and created when missing, in order. */
  lemma {:induction false} CreateFoldersAllSucceed(env: LegacyEnv, w: LegacyWorld, paths: seq<string>, k: nat)
    requires k <= |paths| && CreatedBefore(env.account, paths, k)
    ensures CreateFolders(env, w, paths, k) == (None, w.(sdkCalls := w.sdkCalls + CreateCalls(env.account, paths, k)))
  {
    var a := env.account;
    if k > 0 {
      assert CreatedBefore(a, paths, k - 1);
      CreateFoldersAllSucceed(env, w, paths, k - 1);
      var before := w.sdkCalls + CreateCalls(a, paths, k - 1);
      if paths[k - 1] == "" {
        assert CreateCalls(a, paths, k) == CreateCalls(a, paths, k - 1);
      } else {
        var calls := CreateFolderSpec(a, paths[k - 1]).1;
        assert CreateFolderSpec(a, paths[k - 1]).0.None?;
        assert before + calls == w.sdkCalls + CreateCalls(a, paths, k);
      }
    } else {
      assert w.sdkCalls + CreateCalls(a, paths, 0) == w.sdkCalls;
    }
  }

  /**
   * Each non-empty folder among the first k is looked up, and created when
   * missing, in order, up to the first that raises: with no failure every one
   * of them is handled; at the first failing one the pass stops with its error.
   */
  lemma CreateFoldersInOrder(env: LegacyEnv, w: LegacyWorld, paths: seq<string>, k: nat)
    requires k <= |paths|
    ensures CreatedBefore(env.account, paths, k) ==>
              CreateFolders(env, w, paths, k) == (None, w.(sdkCalls := w.sdkCalls + CreateCalls(env.account, paths, k)))
    ensures forall j :: 0 <= j < k && paths[j] != "" && CreateFolderSpec(env.account, paths[j]).0.Some?
                        && CreatedBefore(env.account, paths, j) ==>
              CreateFolders(env, w, paths, k)
              == (CreateFolderSpec(env.account, paths[j]).0, w.(sdkCalls := w.sdkCalls + CreateCalls(env.account, paths, j + 1)))
  {
    var a := env.account;
    if CreatedBefore(a, paths, k) {
      CreateFoldersAllSucceed(env, w, paths, k);
    }
    forall j | 0 <= j < k && paths[j] != "" && CreateFolderSpec(a, paths[j]).0.Some? && CreatedBefore(a, paths, j)
      ensures CreateFolders(env, w, paths, k)
              == (CreateFolderSpec(a, paths[j]).0, w.(sdkCalls := w.sdkCalls + CreateCalls(a, paths, j + 1)))
    {
      CreateFoldersFirstFailure(env, w, paths, j, k);
    }
  }

  /** At the first folder j that raises, the pass stops with that folder's error. */
  lemma CreateFoldersFirstFailure(env: LegacyEnv, w: LegacyWorld, paths: seq<string>, j: nat, k: nat)
    requires j < k <= |paths| && paths[j] != ""
    requires CreateFolderSpec(env.account, paths[j]).0.Some? && CreatedBefore(env.account, paths, j)
    ensures CreateFolders(env, w, paths, k)
            == (CreateFolderSpec(env.account, paths[j]).0, w.(sdkCalls := w.sdkCalls + CreateCalls(env.account, paths, j + 1)))
  {
    var a := env.account;
    CreateFoldersAllSucceed(env, w, paths, j);
    var (err, calls) := CreateFolderSpec(a, paths[j]);
    var before := w.sdkCalls + CreateCalls(a, paths, j);
    assert CreateFolders(env, w, paths, j) == (None, w.(sdkCalls := before));
    assert CreateFolders(env, w, paths, j + 1) == (err, w.(sdkCalls := before + calls));
    assert before + calls == w.sdkCalls + CreateCalls(a, paths, j + 1);
    CreateFailureIsFinal(env, w, paths, j + 1, k);
  }

  /** The driver's filter: a file (not a folder or a deleted entry) whose name ends in ".pdf", any case. */
  predicate Processable(entry: Metadata) {
    entry.FileMetadata? && Workflow.IsPdf(entry.name)
  }

  /** The quarantine of a failed entry: move its `path_display` into `failed/name`. */
  function LegacyQuarantine(env: LegacyEnv, w: LegacyWorld, failed: string, entry: Metadata): (r: (Option<Exc>, LegacyWorld))
    ensures r.1 == w.(sdkCalls := w.sdkCalls + [MoveV2(entry.pathDisplay, failed + "/" + entry.name)])
    ensures r.0 == env.account.fault(MoveV2(entry.pathDisplay, failed + "/" + entry.name))
  {
    var call := MoveV2(entry.pathDisplay, failed + "/" + entry.name);
    (env.account.fault(call), w.(sdkCalls := w.sdkCalls + [call]))
  }

  /** One iteration of the entry loop. */
  function LegacyHandleEntry(env: LegacyEnv, w: LegacyWorld, failed: string, entry: Metadata): (r: (Disposition, LegacyWorld))
    ensures r.0 == Workflow.Skipped <==> !Processable(entry)
    ensures !Processable(entry) ==> r.1 == w
  {
    if !Processable(entry) then (Workflow.Skipped, w)
    else
      var (outcome, w1) := LegacyPipelineSpec(env, w, entry);
      match outcome
      case Success => (Workflow.Done, w1)
      case Failed(e) =>
        if e == TransientError then (Workflow.Retry, w1)
        else
          var (moveErr, w2) := LegacyQuarantine(env, w1, failed, entry);
          (Workflow.Quarantined(moveErr), w2)
  }

  /** The loop over the first k entries. */
  function LegacyHandleEntries(env: LegacyEnv, w: LegacyWorld, failed: string, entries: seq<Metadata>, k: nat)
    : (r: (seq<Disposition>, LegacyWorld))
    requires k <= |entries|
    ensures |r.0| == k
    ensures forall i :: 0 <= i < k ==> (r.0[i] == Workflow.Skipped <==> !Processable(entries[i]))
    decreases k, 0
  {
    if k == 0 then ([], w) else LegacyHandleNext(env, w, failed, entries, k - 1)
  }

  /** Entry i, handled after the entries before it. */
  function LegacyHandleNext(env: LegacyEnv, w: LegacyWorld, failed: string, entries: seq<Metadata>, i: nat)
    : (r: (seq<Disposition>, LegacyWorld))
    requires i < |entries|
    ensures |r.0| == i + 1
    ensures forall j :: 0 <= j <= i ==> (r.0[j] == Workflow.Skipped <==> !Processable(entries[j]))
    decreases i, 1
  {
    var (ds, w1) := LegacyHandleEntries(env, w, failed, entries, i);
    var (d, w2) := LegacyHandleEntry(env, w1, failed, entries[i]);
    (ds + [d], w2)
  }

  /** `main_workflow` once a client exists; a folder-creation error escapes the pass. */
  function LegacyPassSpec(env: LegacyEnv, w: LegacyWorld, folders: Folders): (PassEnd, seq<Disposition>, LegacyWorld) {
    var (createErr, w1) := CreateFolders(env, w, [folders.source, folders.dest], 2);
    if createErr.Some? then (Workflow.FolderCheckFailed(createErr.value), [], w1)
    else
      var w2 := w1.(sdkCalls := w1.sdkCalls + [ListFolder(folders.source)]);
      match Listed(env.account, folders.source)
      case Raised(e) => (Workflow.ListingFailed(e), [], w2)
      case Ok(entries) =>
        if entries == [] then (Workflow.NothingToProcess, [], w2)
        else
          var (ds, w3) := LegacyHandleEntries(env, w2, folders.failed, entries, |entries|);
          (Workflow.Processed, ds, w3)
  }

  /** `main_workflow` of the older driver: `client` is null when no token connected. */
  method LegacyMainWorkflow(client: LegacyDropboxClient?, ext: Externals, buffer: LocalBuffer,
                            settings: LegacySettings, folders: Folders)
    returns (end: PassEnd, dispositions: seq<Disposition>)
    modifies client, ext, buffer
    ensures client == null ==> end == Workflow.NoClient && dispositions == []
                               && ext.calls == old(ext.calls) && buffer.files == old(buffer.files)
                               && buffer.unlinked == old(buffer.unlinked)
    ensures client != null ==>
              (end, dispositions, LegacySnapshot(client, ext, buffer))
              == LegacyPassSpec(LegacyEnvOf(client, ext, buffer, settings), old(LegacySnapshot(client, ext, buffer)), folders)
  {
    dispositions := [];
    if client == null {
      return Workflow.NoClient, [];
    }
    ghost var env := LegacyEnvOf(client, ext, buffer, settings);
    ghost var w0 := LegacySnapshot(client, ext, buffer);
    var paths := [folders.source, folders.dest];
    var k := 0;
    while k < |paths|
      invariant k <= |paths|
      invariant (None, LegacySnapshot(client, ext, buffer)) == CreateFolders(env, w0, paths, k)
    {
      if paths[k] != "" {
        var err := client.CreateFolderIfNotExists(paths[k]);
        if err.Some? {
          assert (err, LegacySnapshot(client, ext, buffer)) == CreateFolders(env, w0, paths, k + 1);
          CreateFailureIsFinal(env, w0, paths, k + 1, |paths|);
          return Workflow.FolderCheckFailed(err.value), [];
        }
      }
      k := k + 1;
    }
    var listing := client.ListFiles(folders.source);
    assert listing == Listed(env.account, folders.source);
    if listing.Raised? {
      return Workflow.ListingFailed(listing.error), [];
    }
    var entries := listing.value;
    if entries == [] {
      return Workflow.NothingToProcess, [];
    }
    ghost var w2 := LegacySnapshot(client, ext, buffer);
    var i := 0;
    while i < |entries|
      invariant i <= |entries|
      invariant (dispositions, LegacySnapshot(client, ext, buffer))
                == LegacyHandleEntries(env, w2, folders.failed, entries, i)
      invariant LegacyEnvOf(client, ext, buffer, settings) == env
    {
      var entry := entries[i];
      var d: Disposition;
      if entry.FileMetadata? && Workflow.IsPdf(entry.name) {
        var outcome := LegacyProcessSingleFile(client, ext, buffer, settings, entry);
        match outcome {
          case Success =>
            d := Workflow.Done;
          case Failed(e) =>
            if e == TransientError {
              d := Workflow.Retry;
            } else {
              var moveErr := client.MoveFile(entry.pathDisplay, folders.failed + "/" + entry.name);
              d := Workflow.Quarantined(moveErr);
            }
        }
      } else {
        d := Workflow.Skipped;
      }
      dispositions := dispositions + [d];
      i := i + 1;
    }
    end := Workflow.Processed;
  }

  lemma {:induction false} CreateFailureIsFinal(env: LegacyEnv, w: LegacyWorld, paths: seq<string>, k: nat, m: nat)
    requires k <= m <= |paths|
    requires CreateFolders(env, w, paths, k).0.Some?
    ensures CreateFolders(env, w, paths, m) == CreateFolders(env, w, paths, k)
    decreases m
  {
    if m > k {
      CreateFailureIsFinal(env, w, paths, k, m - 1);
    }
  }

  // ------------------------------------------------------------ properties of a pass

  /**
   * The disposition of a processable entry follows the pipeline's outcome:
   * done on a normal return, retried on TransientError, and otherwise
   * quarantined with exactly one move of its display path to `failed/name`.
   */
  lemma LegacyDispositionFollowsOutcome(env: LegacyEnv, w: LegacyWorld, failed: string, entry: Metadata)
    requires Processable(entry)
    ensures var (outcome, w1) := LegacyPipelineSpec(env, w, entry);
            var (d, w2) := LegacyHandleEntry(env, w, failed, entry);
            && (d == Workflow.Done <==> outcome == Success)
            && (d == Workflow.Retry <==> outcome == Failed(TransientError))
            && (d.Quarantined? <==> outcome.Failed? && outcome.error != TransientError)
            && (!d.Quarantined? ==> w2 == w1)
            && (d.Quarantined? ==>
                  w2.sdkCalls == w1.sdkCalls + [MoveV2(entry.pathDisplay, failed + "/" + entry.name)]
                  && d.moveError == env.account.fault(MoveV2(entry.pathDisplay, failed + "/" + entry.name))
                  && w2.externalCalls == w1.externalCalls && w2.local == w1.local)
  {
  }

  /** A folder entry is skipped whatever its name, so a folder called "x.pdf" is never processed. */
  lemma FolderNamedLikePdfIsSkipped(env: LegacyEnv, w: LegacyWorld, failed: string, name: string, path: string)
    ensures LegacyHandleEntry(env, w, failed, FolderMetadata(name, path)) == (Workflow.Skipped, w)
  {
  }

  /**
   * The pass only ever creates the source and the destination folder, never
   * the root "" and never the failed folder (unless it is one of the two).
   */
  lemma OnlySourceAndDestAreCreated(env: LegacyEnv, w: LegacyWorld, folders: Folders)
    ensures var (_, w1) := CreateFolders(env, w, [folders.source, folders.dest], 2);
            forall i :: |w.sdkCalls| <= i < |w1.sdkCalls| ==>
              && w1.sdkCalls[i].path != ""
              && (w1.sdkCalls[i].path == folders.source || w1.sdkCalls[i].path == folders.dest)
  {
  }

  /** A pass that gets through the listing handles every listed entry. */
  lemma LegacyPassHandlesEveryListedEntry(env: LegacyEnv, w: LegacyWorld, folders: Folders)
    ensures var (end, ds, _) := LegacyPassSpec(env, w, folders);
            var (createErr, _) := CreateFolders(env, w, [folders.source, folders.dest], 2);
            var listing := Listed(env.account, folders.source);
            end == Workflow.Processed <==> createErr.None? && listing.Ok? && listing.value != [] && |ds| == |listing.value|
  {
  }

  /** An ApiError while listing reads as an empty source folder: the pass ends without processing. */
  lemma ListingApiErrorEndsQuietly(env: LegacyEnv, w: LegacyWorld, folders: Folders)
    requires CreateFolders(env, w, [folders.source, folders.dest], 2).0.None?
    requires env.account.fault(ListFolder(folders.source)) == Some(DropboxApiError)
    ensures var (end, ds, w') := LegacyPassSpec(env, w, folders);
            end == Workflow.NothingToProcess && ds == [] && w'.externalCalls == w.externalCalls && w'.local == w.local
  {
  }
}
