/** Go's `path.Split`, which both dump commands use to turn a record name
    into a directory and a file name. */
module Path {

  /** The index of the last '/' in `s`, or -1. */
  function LastSlash(s: string): (i: int)
    ensures -1 <= i < |s|
    ensures i >= 0 ==> s[i] == '/'
    ensures forall k :: i < k < |s| ==> s[k] != '/'
    decreases |s|
  {
    if |s| == 0 then -1
    else if s[|s| - 1] == '/' then |s| - 1
    else LastSlash(s[..|s| - 1])
  }

  lemma LastSlashUnique(s: string, i: int)
    requires -1 <= i < |s|
    requires i >= 0 ==> s[i] == '/'
    requires forall k :: i < k < |s| ==> s[k] != '/'
    ensures LastSlash(s) == i
  {
  }

  /** `path.Split(p)`: splits `p` just after its final slash. */
  function Split(p: string): (r: (string, string))
    ensures r.0 + r.1 == p
    ensures forall k :: 0 <= k < |r.1| ==> r.1[k] != '/'
    ensures r.0 == "" || r.0[|r.0| - 1] == '/'
  {
    var i := LastSlash(p);
    var dir, file := p[..i + 1], p[i + 1..];
    assert dir + file == p;
    assert forall k :: 0 <= k < |file| ==> file[k] == p[i + 1 + k];
    assert dir == "" || dir[|dir| - 1] == p[i];
    (dir, file)
  }

  /** The split is the only way to cut `p` into a directory that is empty or
      ends in '/' and a file name without '/'. */
  lemma SplitUnique(p: string, dir: string, file: string)
    requires dir + file == p
    requires forall k :: 0 <= k < |file| ==> file[k] != '/'
    requires dir == "" || dir[|dir| - 1] == '/'
    ensures Split(p) == (dir, file)
  {
    var i := |dir| - 1;
    assert i >= 0 ==> p[i] == '/' by {
      if i >= 0 { assert p[i] == dir[i]; }
    }
    assert forall k :: i < k < |p| ==> p[k] == file[k - |dir|];
    LastSlashUnique(p, i);
    assert dir == p[..|dir|] && file == p[|dir|..];
  }
}
