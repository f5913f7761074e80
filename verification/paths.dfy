/** POSIX path operations used to locate the landmask and drainage (LDD) maps:
    `isabs`, `join` and `basename` from Python's `posixpath`. */
module Paths {

  const Sep: char := '/'

  /** `isabs`: a POSIX path is absolute when it starts with the separator. */
  predicate IsAbs(p: string) {
    |p| > 0 && p[0] == Sep
  }

  /** `join(a, b)` for two components: an absolute `b` discards `a`; otherwise
      a separator is inserted unless `a` is empty or already ends in one. */
  function Join(a: string, b: string): (r: string)
    ensures IsAbs(b) ==> r == b
    ensures !IsAbs(b) ==> |a| <= |r| && r[..|a|] == a
    ensures !IsAbs(b) ==> |b| <= |r| && r[|r| - |b|..] == b
    ensures !IsAbs(b) ==> |r| <= |a| + |b| + 1
    ensures !IsAbs(b) ==> (r == a + b || r == a + [Sep] + b)
    ensures !IsAbs(b) ==> (r == a + b <==> (a == [] || a[|a| - 1] == Sep))
    ensures IsAbs(a) ==> IsAbs(r)
  {
    if IsAbs(b) then b
    else if a == [] || a[|a| - 1] == Sep then a + b
    else a + [Sep] + b
  }

  /** `basename`: everything after the last separator (the whole path when it
      has none, the empty string when it ends in one). */
  function Basename(p: string): (r: string)
    ensures Sep !in r
    ensures |r| <= |p| && r == p[|p| - |r|..]
    ensures |r| < |p| ==> p[|p| - |r| - 1] == Sep
  {
    if p == [] then []
    else if p[|p| - 1] == Sep then []
    else Basename(p[..|p| - 1]) + [p[|p| - 1]]
  }

  /** A name without separators survives `join` onto any directory:
      `basename(join(d, name)) == name`. */
  lemma BasenameOfJoin(dir: string, name: string)
    requires Sep !in name
    ensures Basename(Join(dir, name)) == name
  {
    var j := Join(dir, name);
    assert !IsAbs(name);
    if |j| > |name| {
      // the separator join inserted, or the one `dir` already ends with
      assert j[|j| - |name| - 1] == Sep;
    }
  }
}
