/** File-system paths as strings, with the joining rule of Rust's `Path::join`. */
module Paths {

  const SEPARATOR: char := '/'

  predicate IsAbsolute(p: string)
  {
    |p| > 0 && p[0] == SEPARATOR
  }

  /** `dir.join(name)`: an absolute `name` replaces `dir`; otherwise a separator
      is inserted unless `dir` is empty or already ends in one. */
  function Join(dir: string, name: string): string
  {
    if IsAbsolute(name) then name
    else if dir == [] || dir[|dir| - 1] == SEPARATOR then dir + name
    else dir + [SEPARATOR] + name
  }

  /** A relative `name` is appended to `dir`, with exactly one separator
      between them unless `dir` is empty or already ends in one, in which
      case nothing is inserted. */
  lemma JoinRelative(dir: string, name: string)
    requires !IsAbsolute(name)
    ensures var r := Join(dir, name);
            && dir <= r && |dir| + |name| <= |r| <= |dir| + 1 + |name| && r[|r| - |name|..] == name
            && (dir != [] ==> dir[|dir| - 1] == SEPARATOR || (|dir| < |r| && r[|dir|] == SEPARATOR))
            && ((dir == [] || dir[|dir| - 1] == SEPARATOR) <==> |r| == |dir| + |name|)
  {
  }
}
