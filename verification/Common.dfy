/** Vocabulary shared by every module: optional values, results, and the arbitrary
    iteration order of a hash map or hash set. */
module Common {
  datatype Option<+T> = None | Some(value: T)

  datatype Result<+T, +E> = Ok(value: T) | Err(error: E)

  function Elements<T>(s: seq<T>): set<T> {
    set x | x in s
  }

  ghost predicate Distinct<T>(s: seq<T>) {
    forall i, j :: 0 <= i < j < |s| ==> s[i] != s[j]
  }

  lemma ElementsAppend<T>(s: seq<T>, x: T)
    ensures Elements(s + [x]) == Elements(s) + {x}
  {
  }

  /** The elements of a hash set as a vector, in an order nobody may rely on. */
  method InAnyOrder(s: set<string>) returns (v: seq<string>)
    ensures Elements(v) == s
    ensures Distinct(v)
  {
    v := [];
    var rest := s;
    while rest != {}
      invariant rest <= s
      invariant Elements(v) == s - rest
      invariant Distinct(v)
      decreases rest
    {
      var x :| x in rest;
      assert x !in Elements(v);
      ElementsAppend(v, x);
      v := v + [x];
      rest := rest - {x};
    }
  }

  /** A strictly larger set whose smaller part is known: cardinalities are monotone. */
  lemma {:induction false} SubsetSize<T>(a: set<T>, b: set<T>)
    requires a <= b
    ensures |a| <= |b|
    ensures a != b ==> |a| < |b|
    decreases b
  {
    if a == b {
    } else {
      var x :| x in b && x !in a;
      SubsetSize(a, b - {x});
    }
  }

  lemma Regroup<T>(a: seq<T>, b: seq<T>, c: seq<T>)
    ensures a + (b + c) == (a + b) + c
  {
  }

  lemma PrefixGrows<T>(s: seq<T>, i: nat)
    requires i < |s| && Distinct(s)
    ensures Elements(s[..i + 1]) == Elements(s[..i]) + {s[i]}
    ensures s[i] !in Elements(s[..i]) && s[i] in Elements(s)
  {
    assert s[..i + 1] == s[..i] + [s[i]];
    ElementsAppend(s[..i], s[i]);
  }
}
