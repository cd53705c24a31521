/**
 * The storage capability every provider implements (`StorageClient` in
 * src/storage/base.py), over an abstract remote store. A backend may fail any
 * call (network, quota, permissions): that is an oracle `fault`, consulted
 * before the call takes effect. A call that names an unknown file or folder
 * raises the backend's `missing` exception.
 */
module Storage {
  import opened Wrappers
  import opened Exceptions
  import opened Dto
  import opened LocalFiles

  /** One call on the capability, with its arguments. */
  datatype StorageCall =
    | ListFiles(folderId: string)
    | DownloadFile(fileId: string, localPath: string)
    | UploadFile(localPath: string, folderId: string, filename: string)
    | DeleteFile(fileId: string)
    | MoveFile(fileId: string, toFolderId: string)
    | VerifyFolderExists(folderId: string)

  /** The remote files, in listing order, and the folders that exist. */
  datatype Store = Store(files: seq<FileMetadata>, folders: set<string>)

  /** What a backend does beyond the abstract contract. */
  datatype Backend = Backend(
    fault: StorageCall -> Option<Exc>,
    missing: Exc,
    newId: (string, string) -> string)   // the id an upload into (folder, filename) receives

  predicate HasFile(files: seq<FileMetadata>, fileId: string) {
    exists f :: f in files && f.id == fileId
  }

  /** The file an upload of `filename` into `folderId` creates. */
  function Uploaded(b: Backend, folderId: string, filename: string): FileMetadata {
    var id := b.newId(folderId, filename);
    FileMetadata(id, filename, id, Some(folderId))
  }

  predicate SameSlot(f: FileMetadata, folderId: string, filename: string) {
    f.folderId == Some(folderId) && f.name == filename
  }

  /** `list_files`: the files of the folder. */
  function List(b: Backend, s: Store, folderId: string): (r: Reply<seq<FileMetadata>>)
    ensures r.Raised? <==> b.fault(ListFiles(folderId)).Some?
    ensures r.Ok? ==> forall f :: f in r.value <==> f in s.files && f.folderId == Some(folderId)
  {
    match b.fault(ListFiles(folderId))
    case Some(e) => Raised(e)
    case None => Ok(Filter(s.files, (f: FileMetadata) => f.folderId == Some(folderId)))
  }

  /** `download_file`: on success the local path holds a file. */
  function Download(b: Backend, s: Store, local: set<string>, fileId: string, localPath: string)
    : (r: (Option<Exc>, set<string>))
    ensures r.0.None? <==> b.fault(DownloadFile(fileId, localPath)).None? && HasFile(s.files, fileId)
    ensures r.1 == if r.0.None? then local + {localPath} else local
  {
    match b.fault(DownloadFile(fileId, localPath))
    case Some(e) => (Some(e), local)
    case None =>
      if HasFile(s.files, fileId) then (None, local + {localPath}) else (Some(b.missing), local)
  }

  /**
   * `upload_file`: the local file is stored under `filename` in the folder,
   * replacing a file of the same name there; nothing else changes. Opening a
   * local file that does not exist raises FileNotFoundError.
   */
  function Upload(b: Backend, s: Store, local: set<string>, localPath: string, folderId: string, filename: string)
    : (r: (Option<Exc>, Store))
    ensures r.0.None? <==> b.fault(UploadFile(localPath, folderId, filename)).None? && localPath in local
    ensures r.0.Some? ==> r.1 == s
    ensures r.0.None? ==> r.1.folders == s.folders
    ensures r.0.None? ==> forall f :: f in r.1.files && SameSlot(f, folderId, filename)
                                      <==> f == Uploaded(b, folderId, filename)
    ensures r.0.None? ==> forall f :: f in r.1.files && !SameSlot(f, folderId, filename)
                                      <==> f in s.files && !SameSlot(f, folderId, filename)
  {
    match b.fault(UploadFile(localPath, folderId, filename))
    case Some(e) => (Some(e), s)
    case None =>
      if localPath !in local then (Some(FileNotFoundError), s)
      else
        var kept := Filter(s.files, (f: FileMetadata) => !SameSlot(f, folderId, filename));
        (None, s.(files := kept + [Uploaded(b, folderId, filename)]))
  }

  /** `delete_file`: the file is removed and nothing else changes. */
  function Delete(b: Backend, s: Store, fileId: string): (r: (Option<Exc>, Store))
    ensures r.0.None? <==> b.fault(DeleteFile(fileId)).None? && HasFile(s.files, fileId)
    ensures r.0.Some? ==> r.1 == s
    ensures r.0.None? ==> r.1.folders == s.folders
                          && forall f :: f in r.1.files <==> f in s.files && f.id != fileId
  {
    match b.fault(DeleteFile(fileId))
    case Some(e) => (Some(e), s)
    case None =>
      if HasFile(s.files, fileId)
      then (None, s.(files := Filter(s.files, (f: FileMetadata) => f.id != fileId)))
      else (Some(b.missing), s)
  }

  function Relocated(f: FileMetadata, fileId: string, toFolderId: string): FileMetadata {
    if f.id == fileId then f.(folderId := Some(toFolderId)) else f
  }

  /** `move_file`: the file now lies in the destination folder; nothing else changes. */
  function Move(b: Backend, s: Store, fileId: string, toFolderId: string): (r: (Option<Exc>, Store))
    ensures r.0.None? <==> b.fault(MoveFile(fileId, toFolderId)).None? && HasFile(s.files, fileId)
    ensures r.0.Some? ==> r.1 == s
    ensures r.0.None? ==> r.1.folders == s.folders && |r.1.files| == |s.files|
    ensures r.0.None? ==> forall i :: 0 <= i < |s.files| ==>
              && r.1.files[i].id == s.files[i].id
              && r.1.files[i].name == s.files[i].name
              && r.1.files[i].folderId == (if s.files[i].id == fileId then Some(toFolderId) else s.files[i].folderId)
  {
    match b.fault(MoveFile(fileId, toFolderId))
    case Some(e) => (Some(e), s)
    case None =>
      if HasFile(s.files, fileId)
      then (None, s.(files := seq(|s.files|, i requires 0 <= i < |s.files| => Relocated(s.files[i], fileId, toFolderId))))
      else (Some(b.missing), s)
  }

  /** `verify_folder_exists`: raises unless the folder exists. */
  function Verify(b: Backend, s: Store, folderId: string): (err: Option<Exc>)
    ensures err.None? <==> b.fault(VerifyFolderExists(folderId)).None? && folderId in s.folders
  {
    match b.fault(VerifyFolderExists(folderId))
    case Some(e) => Some(e)
    case None => if folderId in s.folders then None else Some(b.missing)
  }

  /** An uploaded file is listed in its folder afterwards, under its file name. */
  lemma UploadThenList(b: Backend, s: Store, local: set<string>, localPath: string, folderId: string, filename: string)
    requires Upload(b, s, local, localPath, folderId, filename).0.None?
    requires b.fault(ListFiles(folderId)).None?
    ensures Uploaded(b, folderId, filename) in List(b, Upload(b, s, local, localPath, folderId, filename).1, folderId).value
    ensures Uploaded(b, folderId, filename).name == filename
  {
    var s' := Upload(b, s, local, localPath, folderId, filename).1;
    assert SameSlot(Uploaded(b, folderId, filename), folderId, filename);
  }

  /** A moved file is no longer listed in its old folder and is listed in the new one. */
  lemma {:induction false} MoveThenList(b: Backend, s: Store, i: nat, toFolderId: string)
    requires i < |s.files| && Move(b, s, s.files[i].id, toFolderId).0.None?
    requires s.files[i].folderId.Some? && s.files[i].folderId.value != toFolderId
    requires b.fault(ListFiles(toFolderId)).None? && b.fault(ListFiles(s.files[i].folderId.value)).None?
    ensures var s' := Move(b, s, s.files[i].id, toFolderId).1;
            && s'.files[i] in List(b, s', toFolderId).value
            && s'.files[i] !in List(b, s', s.files[i].folderId.value).value
            && s'.files[i].name == s.files[i].name
  {
    var s' := Move(b, s, s.files[i].id, toFolderId).1;
    assert s'.files[i].folderId == Some(toFolderId);
  }

  /**
   * A client over one backend: the current store and the calls made so far.
   * The local files a download writes or an upload reads live in a
   * `LocalFiles.LocalBuffer`.
   */
  class StorageClient {
    const backend: Backend
    var store: Store
    var trace: seq<StorageCall>

    constructor(backend: Backend, store: Store)
      ensures this.backend == backend && this.store == store && trace == []
    {
      this.backend := backend;
      this.store := store;
      trace := [];
    }

    method ListFiles(folderId: string) returns (r: Reply<seq<FileMetadata>>)
      modifies this
      ensures r == List(backend, old(store), folderId) && store == old(store)
      ensures trace == old(trace) + [StorageCall.ListFiles(folderId)]
    {
      trace := trace + [StorageCall.ListFiles(folderId)];
      r := List(backend, store, folderId);
    }

    method DownloadFile(fileId: string, localPath: string, buffer: LocalBuffer) returns (err: Option<Exc>)
      modifies this, buffer
      ensures (err, buffer.files) == Download(backend, old(store), old(buffer.files), fileId, localPath)
      ensures store == old(store) && buffer.unlinked == old(buffer.unlinked)
      ensures trace == old(trace) + [StorageCall.DownloadFile(fileId, localPath)]
    {
      trace := trace + [StorageCall.DownloadFile(fileId, localPath)];
      var r := Download(backend, store, buffer.files, fileId, localPath);
      err := r.0;
      if err.None? {
        buffer.Create(localPath);
      }
    }

    method UploadFile(localPath: string, folderId: string, filename: string, buffer: LocalBuffer)
      returns (err: Option<Exc>)
      modifies this
      ensures (err, store) == Upload(backend, old(store), buffer.files, localPath, folderId, filename)
      ensures trace == old(trace) + [StorageCall.UploadFile(localPath, folderId, filename)]
    {
      trace := trace + [StorageCall.UploadFile(localPath, folderId, filename)];
      var r := Upload(backend, store, buffer.files, localPath, folderId, filename);
      err := r.0;
      store := r.1;
    }

    method DeleteFile(fileId: string) returns (err: Option<Exc>)
      modifies this
      ensures (err, store) == Delete(backend, old(store), fileId)
      ensures trace == old(trace) + [StorageCall.DeleteFile(fileId)]
    {
      trace := trace + [StorageCall.DeleteFile(fileId)];
      var r := Delete(backend, store, fileId);
      err := r.0;
      store := r.1;
    }

    method MoveFile(fileId: string, toFolderId: string) returns (err: Option<Exc>)
      modifies this
      ensures (err, store) == Move(backend, old(store), fileId, toFolderId)
      ensures trace == old(trace) + [StorageCall.MoveFile(fileId, toFolderId)]
    {
      trace := trace + [StorageCall.MoveFile(fileId, toFolderId)];
      var r := Move(backend, store, fileId, toFolderId);
      err := r.0;
      store := r.1;
    }

    method VerifyFolderExists(folderId: string) returns (err: Option<Exc>)
      modifies this
      ensures err == Verify(backend, old(store), folderId) && store == old(store)
      ensures trace == old(trace) + [StorageCall.VerifyFolderExists(folderId)]
    {
      trace := trace + [StorageCall.VerifyFolderExists(folderId)];
      err := Verify(backend, store, folderId);
    }
  }
}
