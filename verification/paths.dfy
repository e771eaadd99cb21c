/** `ensure_path_exists` of tmdb_ingestion/utils.py: which directory it
    creates, following pathlib's rules for `suffix` and `parent`. */
module Paths {

  /** A path as pathlib splits it: whether it is rooted, and its parts. */
  datatype Path = Path(rooted: bool, parts: seq<string>)

  /** `path.name`: the last part, or "" for a path without parts. */
  function Name(p: Path): string {
    if p.parts == [] then "" else p.parts[|p.parts| - 1]
  }

  /** `path.parent`: the path without its last part; a path without parts is
      its own parent. */
  function Parent(p: Path): (r: Path)
    ensures r.rooted == p.rooted
    ensures p.parts != [] ==> r.parts + [Name(p)] == p.parts
    ensures p.parts == [] ==> r == p
  {
    if p.parts == [] then p else Path(p.rooted, p.parts[..|p.parts| - 1])
  }

  /** `name.rfind(".")` on `name[..n]`: the index of the last dot, or -1. */
  function LastDot(name: string, n: nat): (i: int)
    requires n <= |name|
    ensures -1 <= i < n
    ensures i >= 0 ==> name[i] == '.'
    ensures forall j :: i < j < n ==> name[j] != '.'
  {
    if n == 0 then -1
    else if name[n - 1] == '.' then n - 1
    else LastDot(name, n - 1)
  }

  /** `PurePath.suffix`: from the last dot on, provided that dot is neither the
      first nor the last character of the name. */
  function Suffix(name: string): string {
    var i := LastDot(name, |name|);
    if 0 < i < |name| - 1 then name[i..] else ""
  }

  /** A name has a suffix exactly when its last dot sits strictly inside it;
      the suffix is then that dot and what follows. */
  lemma SuffixCharacterization(name: string)
    ensures Suffix(name) != "" <==>
      exists i :: 0 < i < |name| - 1 && name[i] == '.' && forall j :: i < j < |name| ==> name[j] != '.'
    ensures Suffix(name) != "" ==> Suffix(name)[0] == '.' && forall j :: 0 < j < |Suffix(name)| ==> Suffix(name)[j] != '.'
  {
    var k := LastDot(name, |name|);
    if exists i :: 0 < i < |name| - 1 && name[i] == '.' && forall j :: i < j < |name| ==> name[j] != '.' {
      var i :| 0 < i < |name| - 1 && name[i] == '.' && forall j :: i < j < |name| ==> name[j] != '.';
      assert k == i;
    }
  }

  /** The directory `ensure_path_exists(path)` creates: the parent when the
      path names a file (it has a suffix), otherwise the path itself. */
  function EnsureTarget(p: Path): (d: Path)
    ensures Suffix(Name(p)) != "" ==> d.parts + [Name(p)] == p.parts
    ensures Suffix(Name(p)) == "" ==> d == p
  {
    if Suffix(Name(p)) != "" then Parent(p) else p
  }

  /** The paths the jobs pass: a yearly parquet file creates its directory, a
      bare directory name creates itself. */
  lemma EnsureTargetExamples(root: seq<string>)
    ensures EnsureTarget(Path(false, root + ["movies", "movies_2000.parquet"])) == Path(false, root + ["movies"])
    ensures EnsureTarget(Path(false, root + ["movie_details"])) == Path(false, root + ["movie_details"])
  {
    var file := "movies_2000.parquet";
    assert file[11] == '.' && forall j :: 11 < j < |file| ==> file[j] != '.';
    SuffixCharacterization(file);
    var dir := "movie_details";
    assert forall j :: 0 <= j < |dir| ==> dir[j] != '.';
    assert LastDot(dir, |dir|) == -1;
    var p := Path(false, root + ["movies", file]);
    assert p.parts[..|p.parts| - 1] == root + ["movies"];
  }
}
