/** The upload directory the lecture videos and course images live in, as a
    set of paths. Only `fs.unlink` is modelled; its failure (a missing file,
    or no path at all) is reported to the caller, which logs and ignores it. */
module Files {
  import opened Records

  class Disk {
    var files: set<Path>

    constructor (files: set<Path>)
      ensures this.files == files
    {
      this.files := files;
    }

    /** `unlinkAsync(path)`: removes the file when it exists, and reports
        whether it did. */
    method Unlink(path: Option<Path>) returns (ok: bool)
      modifies this
      ensures ok <==> path.Some? && path.value in old(files)
      ensures files == if ok then old(files) - {path.value} else old(files)
    {
      ok := path.Some? && path.value in files;
      if ok {
        files := files - {path.value};
      }
    }
  }
}
