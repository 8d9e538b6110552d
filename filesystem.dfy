/**
 * An abstract file tree: a map from paths (sequences of path segments,
 * relative to the working directory `.`) to directory markers and file
 * contents. The empty path is the working directory itself, which always
 * exists and is a directory.
 */
module FileSystem {

  type Path = seq<string>

  datatype Entry = Dir | File(text: string)

  type FS = map<Path, Entry>

  predicate IsPrefix(p: Path, q: Path) {
    |p| <= |q| && q[..|p|] == p
  }

  /**
   * `os.path.join(p, s)` for one segment `s`. Joining an empty segment leaves
   * the directory itself (`os.path.join('a', '')` is `'a/'`).
   */
  function Join(p: Path, s: string): Path {
    if s == "" then p else p + [s]
  }

  /** `os.path.isdir(p)` */
  predicate IsDir(fs: FS, p: Path) {
    p == [] || (p in fs && fs[p] == Dir)
  }

  /** `os.makedirs(p, exist_ok=True)`: every missing non-empty prefix of `p` becomes a directory. */
  function MakeDirs(fs: FS, p: Path): (r: FS)
    ensures forall q | q in fs :: q in r && r[q] == fs[q]
    ensures forall k | 0 < k <= |p| :: p[..k] in r
    ensures forall q | q in r && q !in fs :: q != [] && IsPrefix(q, p) && r[q] == Dir
  {
    if p == [] then fs
    else
      var up := p[..|p| - 1];
      var fs1 := MakeDirs(fs, up);
      assert forall k | 0 < k < |p| :: p[..k] == up[..k];
      assert p[..|p|] == p;
      if p in fs1 then fs1 else fs1[p := Dir]
  }

  /** `open(p, 'w').write(text)` */
  function WriteFile(fs: FS, p: Path, text: string): FS {
    fs[p := File(text)]
  }

  /** `shutil.rmtree(p)`: `p` and everything beneath it disappear. */
  function RemoveTree(fs: FS, p: Path): FS {
    map q | q in fs && !IsPrefix(p, q) :: fs[q]
  }

  lemma PrefixTransitive(p: Path, q: Path, r: Path)
    requires IsPrefix(p, q) && IsPrefix(q, r)
    ensures IsPrefix(p, r)
  {
    assert r[..|p|] == r[..|q|][..|p|];
  }
}
