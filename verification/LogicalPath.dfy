/** Relative logical paths, as the object store and the saved directories accept them. */
module LogicalPath {
  function FirstSlash(path: string): (at: nat)
    requires '/' in path
    ensures at < |path| && path[at] == '/' && '/' !in path[..at]
  {
    if path[0] == '/' then 0 else 1 + FirstSlash(path[1..])
  }

  /** The parts between the slashes. */
  function Parts(path: string): (parts: seq<string>) {
    if '/' !in path then [path]
    else
      var at := FirstSlash(path);
      [path[..at]] + Parts(path[at + 1..])
  }

  /** No empty part (so no slash at either end), no traversal and no native separators. */
  predicate Valid(path: string, maximum: nat) {
    && 0 < |path| <= maximum && '\0' !in path
    && '\\' !in path && ':' !in path
    && forall part :: part in Parts(path) ==> part != "" && part != "." && part != ".."
  }
}
