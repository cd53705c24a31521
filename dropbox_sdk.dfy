/** The values of the Dropbox SDK that the adapters read. */
module DropboxSdk {

  /** `dropbox.files.Metadata` and its subclasses. */
  datatype Metadata =
    | FileMetadata(name: string, pathDisplay: string)
    | FolderMetadata(name: string, pathDisplay: string)
    | DeletedMetadata(name: string, pathDisplay: string)

  /** One page of `files_list_folder` / `files_list_folder_continue`. */
  datatype ListFolderResult = ListFolderResult(entries: seq<Metadata>, cursor: string, hasMore: bool)
}
