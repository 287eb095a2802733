// Stock result types shared by every model.
module Common {
  datatype Option<+T> = None | Some(value: T)

  // A service call either returns a value or one of its domain errors.
  datatype Reply<+T, +E> = Ok(value: T) | Err(error: E)

  type Id = nat     // a row key (the source uses UUIDs, only ever compared)
  type Time = int   // an instant, in the resolution of the domain that uses it

  function Min(a: nat, b: nat): nat {
    if a <= b then a else b
  }

  // Removing one member of a finite set removes one from its size.
  lemma CardRemove<T>(s: set<T>, x: T)
    requires x in s
    ensures |s - {x}| == |s| - 1
  {
    assert s == (s - {x}) + {x};
  }

  lemma CardAdd<T>(s: set<T>, x: T)
    requires x !in s
    ensures |s + {x}| == |s| + 1
  {
  }

  // A subset is no larger, and strictly smaller when something is missing.
  lemma {:induction false} CardSubset<T>(s: set<T>, t: set<T>)
    requires s <= t
    ensures |s| <= |t|
    ensures s != t ==> |s| < |t|
  {
    assert t == s + (t - s);
    assert s * (t - s) == {};
    assert |t| == |s| + |t - s|;
  }
}
