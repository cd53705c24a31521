/**
 * One pass of the driver (`main_workflow` in src/main.py) and the client
 * selection before it: verify the configured folders, list the source
 * folder, run the pipeline on every PDF entry, and quarantine the files
 * whose failure is not transient.
 */
module Workflow {
  import opened Wrappers
  import opened Exceptions
  import opened Dto
  import opened Strings
  import opened LocalFiles
  import opened Storage
  import opened Collaborators
  import opened Processing
  import Config

  // ------------------------------------------------------------ client selection

  /**
   * `_init_dropbox_client`: the refresh token of the client it returns, if
   * any, and the tokens it tried; `connects` says which tokens the SDK accepts.
   */
  function DropboxClientFor(envToken: Option<string>, fileToken: Option<string>, connects: string -> bool)
    : (r: (Option<string>, seq<string>))
    ensures r.0.Some? ==> |r.1| > 0 && connects(r.0.value) && r.0.value == r.1[|r.1| - 1]
    ensures Truthy(envToken) && connects(envToken.value) ==> r == (envToken, [envToken.value])
    ensures r.0.None? <==> !(Truthy(envToken) && connects(envToken.value)) && !(Truthy(fileToken) && connects(fileToken.value))
    ensures |r.1| <= 2
    ensures |r.1| == 2 ==> Truthy(envToken) && Truthy(fileToken) && r.1 == [envToken.value, fileToken.value]
                           && !connects(envToken.value)
  {
    var first := if Truthy(envToken) then [envToken.value] else [];
    if Truthy(envToken) && connects(envToken.value) then (envToken, first)
    else if Truthy(fileToken) then
      (if connects(fileToken.value) then fileToken else None, first + [fileToken.value])
    else (None, first)
  }

  /** `_init_dropbox_client`: the environment token first, the token file as fallback. */
  method InitDropboxClient(envToken: Option<string>, fileToken: Option<string>, connects: string -> bool)
    returns (client: Option<string>, attempts: seq<string>)
    ensures client == DropboxClientFor(envToken, fileToken, connects).0
    ensures attempts == DropboxClientFor(envToken, fileToken, connects).1
  {
    client := None;
    attempts := [];
    if Truthy(envToken) {
      attempts := [envToken.value];
      if connects(envToken.value) {
        client := envToken;
      }
    }
    if client.None? && Truthy(fileToken) {
      attempts := attempts + [fileToken.value];
      if connects(fileToken.value) {
        client := fileToken;
      }
    }
  }

  /** Which adapter the pass runs with. */
  datatype ClientKind = DropboxWith(refreshToken: string) | GoogleDrive

  datatype Selection = Selection(client: Option<ClientKind>, source: Option<string>, dest: Option<string>, failed: Option<string>)

  /** `initialize_storage_client`: the client and the three folders of the configured provider. */
  function InitializeStorageClient(env: Config.Env, fileToken: Option<string>, connects: string -> bool, driveConnects: bool)
    : (s: Selection)
    ensures env.storageProvider == "dropbox" ==>
              && (s.source, s.dest, s.failed) == (env.dropboxSourceDir, env.dropboxDestDir, env.dropboxFailedDir)
              && (s.client.Some? <==> DropboxClientFor(env.dropboxRefreshTokenEnv, fileToken, connects).0.Some?)
              && (s.client.Some? ==> s.client.value.DropboxWith?)
    ensures env.storageProvider == "gdrive" ==>
              && (s.source, s.dest, s.failed) == (env.gdriveSourceFolderId, env.gdriveDestFolderId, env.gdriveFailedFolderId)
              && (s.client.Some? <==> driveConnects)
              && (s.client.Some? ==> s.client.value == GoogleDrive)
    ensures env.storageProvider !in {"dropbox", "gdrive"} ==> s == Selection(None, None, None, None)
  {
    if env.storageProvider == "dropbox" then
      var token := DropboxClientFor(env.dropboxRefreshTokenEnv, fileToken, connects).0;
      Selection(if token.Some? then Some(DropboxWith(token.value)) else None,
                env.dropboxSourceDir, env.dropboxDestDir, env.dropboxFailedDir)
    else if env.storageProvider == "gdrive" then
      Selection(if driveConnects then Some(GoogleDrive) else None,
                env.gdriveSourceFolderId, env.gdriveDestFolderId, env.gdriveFailedFolderId)
    else Selection(None, None, None, None)
  }

  // ------------------------------------------------------------ one pass

  /** The driver's PDF test: `entry.name.lower().endswith(".pdf")`. */
  predicate IsPdf(name: string) {
    EndsWith(Lower(name), ".pdf")
  }

  /** What the pass did with one listed entry. */
  datatype Disposition =
    | Skipped                            // not a PDF
    | Done                               // the pipeline returned normally
    | Retry                              // TransientError: left in place for the next pass
    | Quarantined(moveError: Option<Exc>)  // moved to the failed folder; a failed move is only logged

  /** How the pass ended. */
  datatype PassEnd =
    | NoClient
    | FolderCheckFailed(error: Exc)
    | ListingFailed(error: Exc)
    | NothingToProcess
    | Processed

  /** The folders of one pass. */
  datatype Folders = Folders(source: string, dest: string, failed: string)

  /** Verify the non-empty folders among the first k, stopping at the first that raises. */
  function VerifyFolders(env: Env, w: World, paths: seq<string>, k: nat): (r: (Option<Exc>, World))
    requires k <= |paths|
    ensures r.1 == w.(storageCalls := r.1.storageCalls)
    ensures |r.1.storageCalls| >= |w.storageCalls| && r.1.storageCalls[..|w.storageCalls|] == w.storageCalls
    ensures forall i :: |w.storageCalls| <= i < |r.1.storageCalls| ==> r.1.storageCalls[i].VerifyFolderExists?
  {
    if k == 0 then (None, w)
    else
      var (err, w1) := VerifyFolders(env, w, paths, k - 1);
      if err.Some? || paths[k - 1] == "" then (err, w1)
      else
        var call := StorageCall.VerifyFolderExists(paths[k - 1]);
        (Verify(env.backend, w1.store, paths[k - 1]), w1.(storageCalls := w1.storageCalls + [call]))
  }

  /** The verify calls for the non-empty paths among the first k, in order. */
  function VerifyCalls(paths: seq<string>, k: nat): seq<StorageCall>
    requires k <= |paths|
  {
    if k == 0 then []
    else VerifyCalls(paths, k - 1) + (if paths[k - 1] == "" then [] else [StorageCall.VerifyFolderExists(paths[k - 1])])
  }

  /** Every non-empty path among the first j passes verification. */
  predicate VerifiedBefore(env: Env, store: Store, paths: seq<string>, j: nat)
    requires j <= |paths|
  {
    forall i :: 0 <= i < j && paths[i] != "" ==> Verify(env.backend, store, paths[i]).None?
  }

  /**
   * Each non-empty folder among the first k is verified, in order, up to the
   * first that fails: with no failure every one of them is verified; at the
   * first failing one the check stops and returns that folder's error.
   */
  lemma {:induction false} VerifyFoldersChecksInOrder(env: Env, w: World, paths: seq<string>, k: nat)
    requires k <= |paths|
    ensures VerifiedBefore(env, w.store, paths, k) ==>
              VerifyFolders(env, w, paths, k) == (None, w.(storageCalls := w.storageCalls + VerifyCalls(paths, k)))
    ensures forall j :: 0 <= j < k && paths[j] != "" && Verify(env.backend, w.store, paths[j]).Some?
                        && VerifiedBefore(env, w.store, paths, j) ==>
              VerifyFolders(env, w, paths, k)
              == (Verify(env.backend, w.store, paths[j]), w.(storageCalls := w.storageCalls + VerifyCalls(paths, j + 1)))
  {
    if k > 0 {
      VerifyFoldersChecksInOrder(env, w, paths, k - 1);
      var prev := VerifyFolders(env, w, paths, k - 1);
      var before := w.storageCalls + VerifyCalls(paths, k - 1);
      if VerifiedBefore(env, w.store, paths, k) {
        assert VerifiedBefore(env, w.store, paths, k - 1);
        assert prev == (None, w.(storageCalls := before));
        if paths[k - 1] == "" {
          assert VerifyCalls(paths, k) == VerifyCalls(paths, k - 1);
          assert VerifyFolders(env, w, paths, k) == prev;
        } else {
          var call := StorageCall.VerifyFolderExists(paths[k - 1]);
          assert Verify(env.backend, w.store, paths[k - 1]).None?;
          assert before + [call] == w.storageCalls + VerifyCalls(paths, k);
          assert VerifyFolders(env, w, paths, k) == (None, w.(storageCalls := before + [call]));
        }
      }
      forall j | 0 <= j < k && paths[j] != "" && Verify(env.backend, w.store, paths[j]).Some?
                 && VerifiedBefore(env, w.store, paths, j)
        ensures VerifyFolders(env, w, paths, k)
                == (Verify(env.backend, w.store, paths[j]), w.(storageCalls := w.storageCalls + VerifyCalls(paths, j + 1)))
      {
        if j == k - 1 {
          assert prev == (None, w.(storageCalls := before));
          var call := StorageCall.VerifyFolderExists(paths[k - 1]);
          assert before + [call] == w.storageCalls + VerifyCalls(paths, k);
        } else {
          assert prev.0.Some?;
        }
      }
    } else {
      assert w.storageCalls + VerifyCalls(paths, 0) == w.storageCalls;
    }
  }

  /** The quarantine of a failed entry: move `source/name` into `failed/name`. */
  function Quarantine(env: Env, w: World, folders: Folders, name: string): (r: (Option<Exc>, World))
    ensures r.1 == w.(store := r.1.store, storageCalls := w.storageCalls + [StorageCall.MoveFile(folders.source + "/" + name, folders.failed + "/" + name)])
    ensures (r.0, r.1.store) == Move(env.backend, w.store, folders.source + "/" + name, folders.failed + "/" + name)
  {
    var from := folders.source + "/" + name;
    var to := folders.failed + "/" + name;
    var (err, store) := Move(env.backend, w.store, from, to);
    (err, w.(store := store, storageCalls := w.storageCalls + [StorageCall.MoveFile(from, to)]))
  }

  /** One iteration of the entry loop. */
  function HandleEntry(env: Env, w: World, folders: Folders, entry: FileMetadata): (r: (Disposition, World))
    ensures r.0 == Skipped <==> !IsPdf(entry.name)
    ensures !IsPdf(entry.name) ==> r.1 == w
  {
    if !IsPdf(entry.name) then (Skipped, w)
    else
      var (outcome, w1) := PipelineSpec(env, w, entry);
      match outcome
      case Success => (Done, w1)
      case Failed(e) =>
        if e == TransientError then (Retry, w1)
        else
          var (moveErr, w2) := Quarantine(env, w1, folders, entry.name);
          (Quarantined(moveErr), w2)
  }

  /** The loop over the first k entries. */
  function HandleEntries(env: Env, w: World, folders: Folders, entries: seq<FileMetadata>, k: nat): (r: (seq<Disposition>, World))
    requires k <= |entries|
    ensures |r.0| == k
    ensures forall i :: 0 <= i < k ==> (r.0[i] == Skipped <==> !IsPdf(entries[i].name))
    decreases k, 0
  {
    if k == 0 then ([], w) else HandleNext(env, w, folders, entries, k - 1)
  }

  /** Entry i, handled after the entries before it. */
  function HandleNext(env: Env, w: World, folders: Folders, entries: seq<FileMetadata>, i: nat): (r: (seq<Disposition>, World))
    requires i < |entries|
    ensures |r.0| == i + 1
    ensures forall j :: 0 <= j <= i ==> (r.0[j] == Skipped <==> !IsPdf(entries[j].name))
    decreases i, 1
  {
    var (ds, w1) := HandleEntries(env, w, folders, entries, i);
    var (d, w2) := HandleEntry(env, w1, folders, entries[i]);
    (ds + [d], w2)
  }

  /** `main_workflow` once a client exists. */
  function PassSpec(env: Env, w: World, folders: Folders): (PassEnd, seq<Disposition>, World) {
    var paths := [folders.source, folders.dest, folders.failed];
    var (verifyErr, w1) := VerifyFolders(env, w, paths, 3);
    if verifyErr.Some? then (FolderCheckFailed(verifyErr.value), [], w1)
    else
      var listing := List(env.backend, w1.store, folders.source);
      var w2 := w1.(storageCalls := w1.storageCalls + [StorageCall.ListFiles(folders.source)]);
      match listing
      case Raised(e) => (ListingFailed(e), [], w2)
      case Ok(entries) =>
        if entries == [] then (NothingToProcess, [], w2)
        else
          var (ds, w3) := HandleEntries(env, w2, folders, entries, |entries|);
          (Processed, ds, w3)
  }

  // ------------------------------------------------------------ the driver

  /** `main_workflow`: `storage` is null when no client could be built. */
  method MainWorkflow(storage: StorageClient?, ext: Externals, buffer: LocalBuffer,
                      settings: PipelineSettings, folders: Folders)
    returns (end: PassEnd, dispositions: seq<Disposition>)
    modifies storage, ext, buffer
    ensures storage == null ==> end == NoClient && dispositions == []
                                && ext.calls == old(ext.calls) && buffer.files == old(buffer.files)
                                && buffer.unlinked == old(buffer.unlinked)
    ensures storage != null ==>
              (end, dispositions, Snapshot(storage, ext, buffer))
              == PassSpec(EnvOf(storage, ext, buffer, settings), old(Snapshot(storage, ext, buffer)), folders)
  {
    dispositions := [];
    if storage == null {
      return NoClient, [];
    }
    ghost var env := EnvOf(storage, ext, buffer, settings);
    ghost var w0 := Snapshot(storage, ext, buffer);
    var paths := [folders.source, folders.dest, folders.failed];
    var k := 0;
    while k < |paths|
      invariant k <= |paths|
      invariant (None, Snapshot(storage, ext, buffer)) == VerifyFolders(env, w0, paths, k)
    {
      if paths[k] != "" {
        var err := storage.VerifyFolderExists(paths[k]);
        if err.Some? {
          assert (err, Snapshot(storage, ext, buffer)) == VerifyFolders(env, w0, paths, k + 1);
          VerifyFailureIsFinal(env, w0, paths, k + 1, |paths|);
          return FolderCheckFailed(err.value), [];
        }
      }
      k := k + 1;
    }
    var listing := storage.ListFiles(folders.source);
    if listing.Raised? {
      return ListingFailed(listing.error), [];
    }
    var entries := listing.value;
    if entries == [] {
      return NothingToProcess, [];
    }
    ghost var w2 := Snapshot(storage, ext, buffer);
    var i := 0;
    while i < |entries|
      invariant i <= |entries|
      invariant (dispositions, Snapshot(storage, ext, buffer)) == HandleEntries(env, w2, folders, entries, i)
      invariant EnvOf(storage, ext, buffer, settings) == env
    {
      var entry := entries[i];
      var d: Disposition;
      if IsPdf(entry.name) {
        var outcome := ProcessSingleFile(storage, ext, buffer, settings, entry);
        match outcome {
          case Success =>
            d := Done;
          case Failed(e) =>
            if e == TransientError {
              d := Retry;
            } else {
              var moveErr := storage.MoveFile(folders.source + "/" + entry.name, folders.failed + "/" + entry.name);
              d := Quarantined(moveErr);
            }
        }
      } else {
        d := Skipped;
      }
      dispositions := dispositions + [d];
      i := i + 1;
    }
    end := Processed;
  }

  lemma {:induction false} VerifyFailureIsFinal(env: Env, w: World, paths: seq<string>, k: nat, m: nat)
    requires k <= m <= |paths|
    requires VerifyFolders(env, w, paths, k).0.Some?
    ensures VerifyFolders(env, w, paths, m) == VerifyFolders(env, w, paths, k)
    decreases m
  {
    if m > k {
      VerifyFailureIsFinal(env, w, paths, k, m - 1);
    }
  }

  // ------------------------------------------------------------ properties of a pass

  /**
   * The disposition of a PDF follows the pipeline's outcome: done on a normal
   * return, retried on TransientError, and otherwise quarantined with exactly
   * one move of `source/name` to `failed/name` after the pipeline's calls.
   */
  lemma DispositionFollowsOutcome(env: Env, w: World, folders: Folders, entry: FileMetadata)
    requires IsPdf(entry.name)
    ensures var (outcome, w1) := PipelineSpec(env, w, entry);
            var (d, w2) := HandleEntry(env, w, folders, entry);
            && (d == Done <==> outcome == Success)
            && (d == Retry <==> outcome == Failed(TransientError))
            && (d.Quarantined? <==> outcome.Failed? && outcome.error != TransientError)
            && (!d.Quarantined? ==> w2 == w1)
            && (d.Quarantined? ==>
                  w2.storageCalls == w1.storageCalls
                    + [StorageCall.MoveFile(folders.source + "/" + entry.name, folders.failed + "/" + entry.name)]
                  && w2.externalCalls == w1.externalCalls && w2.local == w1.local)
  {
  }

  /**
   * A pass that gets through the listing handles every listed entry: a
   * failed pipeline run or a failed quarantine move never ends the loop.
   */
  lemma PassHandlesEveryListedEntry(env: Env, w: World, folders: Folders)
    ensures var (end, ds, _) := PassSpec(env, w, folders);
            var (verifyErr, w1) := VerifyFolders(env, w, [folders.source, folders.dest, folders.failed], 3);
            var listing := List(env.backend, w1.store, folders.source);
            end == Processed <==> verifyErr.None? && listing.Ok? && listing.value != [] && |ds| == |listing.value|
  {
  }

  /**
   * A folder that fails verification ends the pass before the source is
   * listed, and the empty source folder ends it before any processing.
   */
  lemma EarlyEnds(env: Env, w: World, folders: Folders)
    ensures var (end, ds, w') := PassSpec(env, w, folders);
            && (end.FolderCheckFailed? ==>
                  ds == [] && forall i :: |w.storageCalls| <= i < |w'.storageCalls| ==> w'.storageCalls[i].VerifyFolderExists?)
            && (end == NothingToProcess ==> ds == [] && w'.externalCalls == w.externalCalls && w'.local == w.local)
            && (end.Processed? ==> |ds| > 0)
  {
  }

  /** With the root "" as source and both other folders passing, only the destination and then the failed folder are verified. */
  lemma RootSourceIsNotVerified(env: Env, w: World, dest: string, failed: string)
    requires dest != "" && failed != ""
    requires Verify(env.backend, w.store, dest).None? && Verify(env.backend, w.store, failed).None?
    ensures VerifyFolders(env, w, ["", dest, failed], 3)
            == (None, w.(storageCalls := w.storageCalls + [StorageCall.VerifyFolderExists(dest), StorageCall.VerifyFolderExists(failed)]))
  {
    var paths := ["", dest, failed];
    assert VerifyFolders(env, w, paths, 0) == (None, w);
    assert VerifyFolders(env, w, paths, 1) == (None, w);
    var w2 := w.(storageCalls := w.storageCalls + [StorageCall.VerifyFolderExists(dest)]);
    assert VerifyFolders(env, w, paths, 2) == (None, w2);
    assert w2.storageCalls + [StorageCall.VerifyFolderExists(failed)]
        == w.storageCalls + [StorageCall.VerifyFolderExists(dest), StorageCall.VerifyFolderExists(failed)];
  }
}
