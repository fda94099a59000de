/** The data files the program reads, writes and deletes through java.nio.file.Files,
    as a map from path to contents. Directories are not modelled: mkdirs always
    succeeds and a path needs no directory to exist. */
module Files {
  import opened Common
  import opened Strings

  /** Some file lies below `dir`: the test behind File.listFiles().length != 0. */
  predicate HasFileUnder(files: map<string, Bytes>, dir: string) {
    exists p | p in files :: StartsWith(p, dir + "/")
  }

  /** Every path outside `changed` is present in `after` exactly when it is in
      `before`, with the same contents. */
  ghost predicate Untouched(before: map<string, Bytes>, after: map<string, Bytes>, changed: set<string>) {
    forall p | p !in changed :: (p in before <==> p in after) && (p in before ==> before[p] == after[p])
  }

  class FileSystem {
    /** The JVM's user.home property. */
    const home: string
    var files: map<string, Bytes>

    constructor(home: string, onDisk: map<string, Bytes>)
      ensures this.home == home && files == onDisk
    {
      this.home := home;
      files := onDisk;
    }

    /** Files.readAllBytes: NoSuchFileException when the path is absent. */
    function ReadAllBytes(path: string): (r: Result<Bytes>)
      reads this
      ensures r.Ok? <==> path in files
      ensures r.Ok? ==> r.value == files[path]
      ensures r.Err? ==> r.error == NoSuchFile(path)
    {
      if path in files then Ok(files[path]) else Err(NoSuchFile(path))
    }

    /** Files.write: creates or replaces the file. */
    method Write(path: string, data: Bytes)
      modifies this
      ensures files == old(files)[path := data]
    {
      files := files[path := data];
    }

    /** Files.delete */
    method Delete(path: string)
      modifies this
      ensures files == old(files) - {path}
    {
      files := files - {path};
    }
  }
}
