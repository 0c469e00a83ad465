// The download directory as a map from names to files.
module Directories {
  import opened Tables
  import opened Base
  import opened Streams

  // Names in the download directory: temp files, and files under the name sent
  datatype Path = Temp(id: nat) | Download(name: seq<byte>)

  // The download directory. Renaming moves the name, not the contents, and
  // replaces a file that already has the new name.
  class Directory {
    var entries: map<Path, Stream>
    const renameFails: bool
    const removeFails: bool

    constructor (renameFails: bool, removeFails: bool)
      ensures entries == map[]
      ensures this.renameFails == renameFails && this.removeFails == removeFails
    {
      this.entries, this.renameFails, this.removeFails := map[], renameFails, removeFails;
    }

    method Rename(from: Path, to: Path) returns (err: Option<Failure>)
      requires from in entries && from != to
      modifies this`entries
      ensures err == if renameFails then Some(RenameFailed) else None
      ensures entries == if renameFails then old(entries) else old(entries)[to := old(entries)[from]] - {from}
    {
      if renameFails {
        return Some(RenameFailed);
      }
      entries := entries[to := entries[from]] - {from};
      err := None;
    }

    method Remove(name: Path) returns (err: Option<Failure>)
      modifies this`entries
      ensures err == if removeFails then Some(RemoveFailed) else None
      ensures entries == if removeFails then old(entries) else old(entries) - {name}
    {
      if removeFails {
        return Some(RemoveFailed);
      }
      entries := entries - {name};
      err := None;
    }
  }
}
