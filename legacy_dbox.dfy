/**
 * The Dropbox client of the older revision (dbox.py at the repository root):
 * thin wrappers around SDK calls that log an `ApiError` and re-raise it,
 * except listing, which turns it into an empty list, and folder creation,
 * which creates the folder when its lookup reports "not found".
 */
module LegacyDbox {
  import opened Wrappers
  import opened Exceptions
  import opened LocalFiles
  import opened DropboxSdk

  /** The SDK calls the client makes. */
  datatype SdkCall =
    | ListFolder(path: string)
    | DownloadToFile(localPath: string, path: string)
    | Upload(localPath: string, path: string)
    | MoveV2(fromPath: string, toPath: string)
    | DeleteV2(path: string)
    | GetMetadata(path: string)
    | CreateFolderV2(path: string)

  /**
   * The account as the client sees it: which calls raise, what a folder lists
   * (one page), and which lookups fail with the path/not_found ApiError.
   */
  datatype Account = Account(
    fault: SdkCall -> Option<Exc>,
    listing: string -> seq<Metadata>,
    notFound: string -> bool)

  /** `create_folder_if_not_exists`, as the SDK calls it makes and its result. */
  function CreateFolderSpec(a: Account, path: string): (r: (Option<Exc>, seq<SdkCall>))
    ensures 1 <= |r.1| <= 2 && r.1[0] == GetMetadata(path)
    ensures |r.1| == 2 <==> a.fault(GetMetadata(path)) == Some(DropboxApiError) && a.notFound(path)
    ensures |r.1| == 2 ==> r.1[1] == CreateFolderV2(path) && r.0 == a.fault(CreateFolderV2(path))
    ensures |r.1| == 1 ==> r.0 == a.fault(GetMetadata(path))
  {
    match a.fault(GetMetadata(path))
    case None => (None, [GetMetadata(path)])
    case Some(e) =>
      if e == DropboxApiError && a.notFound(path)
      then (a.fault(CreateFolderV2(path)), [GetMetadata(path), CreateFolderV2(path)])
      else (Some(e), [GetMetadata(path)])
  }

  class LegacyDropboxClient {
    const account: Account
    var trace: seq<SdkCall>

    constructor(account: Account)
      ensures this.account == account && trace == []
    {
      this.account := account;
      trace := [];
    }

    /** `list_files`: one page of entries; an ApiError gives the empty list, other exceptions escape. */
    method ListFiles(path: string) returns (r: Reply<seq<Metadata>>)
      modifies this
      ensures trace == old(trace) + [ListFolder(path)]
      ensures account.fault(ListFolder(path)) == None ==> r == Ok(account.listing(path))
      ensures account.fault(ListFolder(path)) == Some(DropboxApiError) ==> r == Ok([])
      ensures account.fault(ListFolder(path)).Some? && account.fault(ListFolder(path)) != Some(DropboxApiError)
              ==> r == Raised(account.fault(ListFolder(path)).value)
    {
      trace := trace + [ListFolder(path)];
      match account.fault(ListFolder(path)) {
        case None => r := Ok(account.listing(path));
        case Some(e) => r := if e == DropboxApiError then Ok([]) else Raised(e);
      }
    }

    method DownloadFile(path: string, localPath: string, buffer: LocalBuffer) returns (err: Option<Exc>)
      modifies this, buffer
      ensures err == account.fault(DownloadToFile(localPath, path))
      ensures trace == old(trace) + [DownloadToFile(localPath, path)]
      ensures buffer.files == if err.None? then old(buffer.files) + {localPath} else old(buffer.files)
      ensures buffer.unlinked == old(buffer.unlinked)
    {
      trace := trace + [DownloadToFile(localPath, path)];
      err := account.fault(DownloadToFile(localPath, path));
      if err.None? {
        buffer.Create(localPath);
      }
    }

    /** `upload_file`: opening a missing local file raises FileNotFoundError before any SDK call. */
    method UploadFile(localPath: string, path: string, buffer: LocalBuffer) returns (err: Option<Exc>)
      modifies this
      ensures localPath !in buffer.files ==> err == Some(FileNotFoundError) && trace == old(trace)
      ensures localPath in buffer.files ==> err == account.fault(Upload(localPath, path))
                                            && trace == old(trace) + [Upload(localPath, path)]
    {
      if localPath !in buffer.files {
        return Some(FileNotFoundError);
      }
      trace := trace + [Upload(localPath, path)];
      err := account.fault(Upload(localPath, path));
    }

    method MoveFile(fromPath: string, toPath: string) returns (err: Option<Exc>)
      modifies this
      ensures err == account.fault(MoveV2(fromPath, toPath))
      ensures trace == old(trace) + [MoveV2(fromPath, toPath)]
    {
      trace := trace + [MoveV2(fromPath, toPath)];
      err := account.fault(MoveV2(fromPath, toPath));
    }

    method DeleteFile(path: string) returns (err: Option<Exc>)
      modifies this
      ensures err == account.fault(DeleteV2(path))
      ensures trace == old(trace) + [DeleteV2(path)]
    {
      trace := trace + [DeleteV2(path)];
      err := account.fault(DeleteV2(path));
    }

    method CreateFolderIfNotExists(path: string) returns (err: Option<Exc>)
      modifies this
      ensures (err, trace) == (CreateFolderSpec(account, path).0, old(trace) + CreateFolderSpec(account, path).1)
    {
      err := account.fault(GetMetadata(path));
      if err == Some(DropboxApiError) && account.notFound(path) {
        trace := trace + [GetMetadata(path), CreateFolderV2(path)];
        err := account.fault(CreateFolderV2(path));
      } else {
        trace := trace + [GetMetadata(path)];
      }
    }
  }
}
