/**
 * The part of the host file system the cleaner touches: folders, each with
 * the names of the files directly inside it in listing order.  A path is a
 * (folder, name) pair, so `os.path.join`, `dirname` and `basename` are the
 * constructor and its two fields.
 */
module FileSystem {

  datatype Path = Path(dir: string, name: string)

  /** Folder path -> names of the regular files directly inside it. */
  type Fs = map<string, seq<string>>

  /** `os.path.exists` for a file path. */
  predicate Exists(fs: Fs, p: Path) {
    p.dir in fs && p.name in fs[p.dir]
  }

  /** Every file path the file system holds. */
  ghost function Files(fs: Fs): iset<Path> {
    iset p | Exists(fs, p)
  }

  /** The names taken in a folder (none when the folder is missing). */
  function Entries(fs: Fs, dir: string): (r: set<string>)
    ensures forall n :: n in r <==> Exists(fs, Path(dir, n))
  {
    if dir in fs then set n | n in fs[dir] else {}
  }

  /** Folder `d` is present in both or absent in both, with the same files. */
  predicate SameFolder(a: Fs, b: Fs, d: string) {
    (d in a <==> d in b) && (d in a ==> a[d] == b[d])
  }

  /** `os.makedirs(dir, exist_ok=True)`: an existing folder is left as it is. */
  function MakeDirs(fs: Fs, dir: string): (r: Fs)
    ensures dir in r && r.Keys == fs.Keys + {dir}
    ensures dir in fs ==> r[dir] == fs[dir]
    ensures dir !in fs ==> r[dir] == []
    ensures forall d :: d != dir ==> SameFolder(fs, r, d)
    ensures Files(r) == Files(fs)
  {
    if dir in fs then fs else fs[dir := []]
  }

  /** The listing with every occurrence of `x` taken out. */
  function Remove(names: seq<string>, x: string): (r: seq<string>)
    ensures forall n :: n in r <==> n in names && n != x
  {
    if names == [] then []
    else if names[|names| - 1] == x then Remove(names[..|names| - 1], x)
    else Remove(names[..|names| - 1], x) + [names[|names| - 1]]
  }

  /**
   * `shutil.move(src, dst)` for a file whose destination does not exist yet
   * and whose destination folder does: the file leaves its folder's listing
   * and is appended to the destination folder's listing.
   */
  function Move(fs: Fs, src: Path, dst: Path): (r: Fs)
    requires Exists(fs, src) && dst.dir in fs && !Exists(fs, dst)
    ensures r.Keys == fs.Keys
    ensures forall d :: d != src.dir && d != dst.dir ==> SameFolder(fs, r, d)
    ensures Exists(r, dst) && !Exists(r, src)
    ensures Files(r) == Files(fs) - iset{src} + iset{dst}
  {
    var emptied := fs[src.dir := Remove(fs[src.dir], src.name)];
    var r := emptied[dst.dir := emptied[dst.dir] + [dst.name]];
    assert forall p :: Exists(r, p) <==> (Exists(fs, p) && p != src) || p == dst by {
      forall p
        ensures Exists(r, p) <==> (Exists(fs, p) && p != src) || p == dst
      {
        if p.dir == dst.dir {
          assert p.name in r[p.dir] <==> p.name in emptied[dst.dir] || p.name == dst.name;
        }
      }
    }
    r
  }
}
