/** The local working directory (`LOCAL_BUF_DIR`) where downloads and rendered PDFs live. */
module LocalFiles {
  import opened Wrappers
  import opened Exceptions

  /**
   * The files present under the buffer directory, and the removals attempted so far.
   * Whether `Path.unlink()` fails for a path (permissions, a concurrent removal) is
   * an oracle fixed when the buffer is created.
   */
  class LocalBuffer {
    var files: set<string>
    var unlinked: seq<string>
    const unlinkFault: string -> Option<Exc>

    constructor(files: set<string>, unlinkFault: string -> Option<Exc>)
      ensures this.files == files && this.unlinked == [] && this.unlinkFault == unlinkFault
    {
      this.files := files;
      this.unlinked := [];
      this.unlinkFault := unlinkFault;
    }

    /** `Path.is_file()` / `os.path.exists()` */
    predicate IsFile(path: string)
      reads this
    {
      path in files
    }

    /** `Path.unlink()` / `os.remove()`: the file is gone unless the removal raised. */
    method Unlink(path: string) returns (err: Option<Exc>)
      modifies this
      ensures err == unlinkFault(path)
      ensures unlinked == old(unlinked) + [path]
      ensures files == if err.None? then old(files) - {path} else old(files)
    {
      err := unlinkFault(path);
      unlinked := unlinked + [path];
      if err.None? {
        files := files - {path};
      }
    }

    /** A write by a collaborator (a download, a rendered PDF). */
    method Create(path: string)
      modifies this
      ensures files == old(files) + {path} && unlinked == old(unlinked)
    {
      files := files + {path};
    }
  }
}
