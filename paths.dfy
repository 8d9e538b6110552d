/**
 * Path strings as `generate_content.py` handles them with `os.path`: the
 * string helpers `os.path.dirname` and `os.path.join`, and the file tree
 * queries `os.path.exists` and `os.listdir` on the abstract file tree. A
 * relative path string names the tree path made of its `/`-separated
 * segments, with empty and `.` segments dropped.
 */
module Paths {
  import opened Wrappers
  import opened Text
  import opened FileSystem

  /** Drops the segments that name no step: `""` (from `//`) and `.`. */
  function KeepSegments(parts: seq<string>): (r: Path)
    ensures forall i | 0 <= i < |r| :: r[i] != "" && r[i] != "."
  {
    if parts == [] then []
    else (if parts[0] == "" || parts[0] == "." then [] else [parts[0]]) + KeepSegments(parts[1..])
  }

  /** The tree path a relative path string names. */
  function Resolve(s: string): Path {
    KeepSegments(Split(s, '/'))
  }

  /** `os.path.exists(s)`: the empty string names nothing. */
  predicate Exists(fs: FS, s: string) {
    s != "" && (Resolve(s) == [] || Resolve(s) in fs)
  }

  /** Whether `s` names a file, which `open(s, 'r')` can read. */
  predicate IsFileAt(fs: FS, s: string) {
    var p := Resolve(s);
    p in fs && fs[p].File?
  }

  /** `os.path.dirname(s)`: everything up to the last `/`, with trailing `/`s removed unless that is all it is. */
  function Dirname(s: string): (d: string)
    ensures StartsWith(s, d)
  {
    LastPieceSuffix(s, '/');
    var head := s[..|s| - |LastPiece(s, '/')|];
    if head == "" || forall i | 0 <= i < |head| :: head[i] == '/' then head
    else StripRightChar(head, '/')
  }

  /** `s.rstrip(c)` for a single character `c`. */
  function StripRightChar(s: string, c: char): (r: string)
    ensures StartsWith(s, r)
    ensures forall k | |r| <= k < |s| :: s[k] == c
    ensures r == [] || r[|r| - 1] != c
  {
    if |s| > 0 && s[|s| - 1] == c then
      var r := StripRightChar(s[..|s| - 1], c);
      assert s[..|r|] == s[..|s| - 1][..|r|];
      r
    else s
  }

  /** `os.path.join(a, b)` */
  function JoinName(a: string, b: string): string {
    if StartsWith(b, "/") then b
    else if a == "" || EndsWith(a, "/") then a + b
    else a + "/" + b
  }

  /**
   * `[d for d in os.listdir(dir) if os.path.isdir(os.path.join(dir, d))]`
   * as a set, or `None` when `os.listdir` raises: on the empty string and on
   * anything that is not a directory.
   */
  function SubDirs(fs: FS, dir: string): (r: Option<set<string>>)
    ensures r.Some? ==> forall n | n in r.value :: n != "" && Resolve(dir) + [n] in fs && fs[Resolve(dir) + [n]] == Dir
  {
    var d := Resolve(dir);
    if dir == "" || !IsDir(fs, d) then None
    else
      assert forall q | |q| == |d| + 1 && q[..|d|] == d :: q == d + [q[|d|]];
      Some(set q | q in fs && |q| == |d| + 1 && q[..|d|] == d && q[|d|] != "" && fs[q] == Dir :: q[|d|])
  }

  // ---------------------------------------------------------------------------

  lemma {:induction false} KeepSegmentsSnoc(parts: seq<string>, x: string)
    ensures KeepSegments(parts + [x]) == KeepSegments(parts) + (if x == "" || x == "." then [] else [x])
    decreases |parts|
  {
    if parts == [] {
      assert [x][1..] == [];
    } else {
      assert (parts + [x])[1..] == parts[1..] + [x];
      KeepSegmentsSnoc(parts[1..], x);
    }
  }

  /**
   * A path string ending in a `/`-free name other than `.` resolves to a tree
   * path whose last segment ends in that name.
   */
  lemma ResolveLast(s: string, name: string)
    requires EndsWith(s, name) && '/' !in name && name != "" && name != "."
    ensures var p := Resolve(s); |p| > 0 && EndsWith(p[|p| - 1], name)
  {
    var parts := Split(s, '/');
    var v := LastPiece(s, '/');
    LastPieceSuffix(s, '/');
    assert v[|v| - |name|..] == s[|s| - |name|..];
    assert v != "" && v != ".";
    assert parts == parts[..|parts| - 1] + [v];
    KeepSegmentsSnoc(parts[..|parts| - 1], v);
  }
}
