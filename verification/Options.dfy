/** The optional value used wherever the repository has an optional field. */
module Options {
  datatype Option<+T> = None | Some(value: T)

  /** The smallest index of `s` whose element satisfies `hit`, or `|s|`. */
  function First<T>(s: seq<T>, hit: T -> bool): (i: nat)
    ensures i <= |s|
    ensures i < |s| ==> hit(s[i])
    ensures forall j | 0 <= j < i :: !hit(s[j])
  {
    if s == [] then 0
    else if hit(s[0]) then 0
    else
      var r := First(s[1..], hit);
      assert forall j | 1 <= j < r + 1 :: s[j] == s[1..][j - 1];
      r + 1
  }

  /** `s` without its element at `i`. */
  function Without<T>(s: seq<T>, i: nat): (r: seq<T>)
    requires i < |s|
    ensures |r| == |s| - 1
    ensures forall j | 0 <= j < |r| :: r[j] == if j < i then s[j] else s[j + 1]
  {
    s[..i] + s[i + 1..]
  }
}
