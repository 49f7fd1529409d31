/** What several of the models share. */
module Common {

  datatype Option<+T> = None | Some(value: T)

  /** A sequence without its k-th element. */
  function Without<X>(s: seq<X>, k: nat): seq<X>
    requires k < |s|
  {
    s[..k] + s[k + 1..]
  }

  lemma {:induction false} SubsetSize<T>(a: set<T>, b: set<T>)
    requires a <= b
    ensures |a| <= |b|
  {
    if a == {} {
    } else {
      var x :| x in a;
      SubsetSize(a - {x}, b - {x});
    }
  }
}
