/** Where the outputs of a split go, and which of them share a directory. */
module Paths {
  import opened Bytes

  function Replacement(c: byte): byte { if c == 47 || c == 92 || c == 58 || c == 32 then 95 else c }

  function Sanitised(name: bytes): (r: bytes)
    ensures |r| == |name|
  {
    seq(|name|, i requires 0 <= i < |name| => Replacement(name[i]))
  }

  /** Slashes, colons and blanks become underscores. */
  method SanitiseName(name: bytes) returns (r: bytes)
    ensures r == Sanitised(name)
  {
    r := name;
    for i := 0 to |name|
      invariant |r| == |name|
      invariant forall k :: 0 <= k < i ==> r[k] == Replacement(name[k])
      invariant forall k :: i <= k < |name| ==> r[k] == name[k]
    {
      var c := r[i];
      if c == 47 || c == 92 || c == 58 || c == 32 {
        r := r[i := 95];
      }
    }
  }

  /** The directory of an output when no pattern is given. */
  function SplitDirName(sessionBase: bytes, name: bytes): bytes { sessionBase + [95] + Sanitised(name) }

  /** Two channels share an output directory exactly when their names differ in replaced characters only. */
  lemma OutputsCollide(sessionBase: bytes, a: bytes, b: bytes)
    ensures SplitDirName(sessionBase, a) == SplitDirName(sessionBase, b) <==>
            |a| == |b| && forall i :: 0 <= i < |a| ==> Replacement(a[i]) == Replacement(b[i])
  {
    var front := sessionBase + [95];
    var x, y := SplitDirName(sessionBase, a), SplitDirName(sessionBase, b);
    assert x[|front|..] == Sanitised(a) && y[|front|..] == Sanitised(b);
    if x == y {
      forall i | 0 <= i < |a|
        ensures Replacement(a[i]) == Replacement(b[i])
      {
        assert Sanitised(a)[i] == Sanitised(b)[i];
      }
    }
    if |a| == |b| && forall i :: 0 <= i < |a| ==> Replacement(a[i]) == Replacement(b[i]) {
      assert Sanitised(a) == Sanitised(b);
    }
  }
}
