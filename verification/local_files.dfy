/**
 * The `<mount>/bin` directory in which every client keeps its native
 * library, and the paths of the files in it.
 */
module LocalFiles {
  import opened Text

  /** A name listed in a directory, and whether it is itself a directory. */
  datatype DirEntry = DirEntry(name: string, isDirectory: bool)

  function BinDir(mountDirectory: string): string
  {
    mountDirectory + "/bin"
  }

  /** The last `/`-piece of `<dir>/<name>` is the name. */
  lemma LastPieceOfPath(dir: string, name: string)
    requires '/' !in name
    ensures LastPiece(dir + "/" + name, '/') == name
  {
    assert dir + "/" + name == dir + ['/'] + name;
    SplitAppend(dir, name, '/');
    SplitNoSep(name, '/');
  }
}
