/** The provider-neutral description of a remote file. */
module Dto {
  import opened Wrappers

  /** A listed remote file: `id` addresses it in later calls; `folderId` is the listed folder. */
  datatype FileMetadata = FileMetadata(id: string, name: string, path: string, folderId: Option<string>)
}
