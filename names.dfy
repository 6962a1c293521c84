/** Python's ordering of `str` values and `sorted()` over a set of names.

    Python compares strings by code point, lexicographically, with a proper
    prefix ordered before the longer string.  `Sort` returns the members of a
    finite set in that order, as `sorted(set_or_keys)` does. */
module Names {

  /** Strict lexicographic order by code point (Python's `a < b` on `str`). */
  predicate Below(a: string, b: string)
    decreases |a|
  {
    if a == [] then b != []
    else b != [] && (a[0] < b[0] || (a[0] == b[0] && Below(a[1..], b[1..])))
  }

  lemma {:induction false} BelowIrreflexive(a: string)
    ensures !Below(a, a)
    decreases |a|
  {
    if a != [] {
      BelowIrreflexive(a[1..]);
    }
  }

  lemma {:induction false} BelowTransitive(a: string, b: string, c: string)
    requires Below(a, b) && Below(b, c)
    ensures Below(a, c)
    decreases |a|
  {
    if a != [] && a[0] == b[0] && b[0] == c[0] {
      BelowTransitive(a[1..], b[1..], c[1..]);
    }
  }

  lemma {:induction false} BelowTotal(a: string, b: string)
    requires a != b
    ensures Below(a, b) || Below(b, a)
    decreases |a|
  {
    if a != [] && b != [] && a[0] == b[0] {
      assert a == [a[0]] + a[1..] && b == [b[0]] + b[1..];
      BelowTotal(a[1..], b[1..]);
    }
  }

  lemma BelowAsymmetric()
    ensures forall a, b :: Below(a, b) ==> !Below(b, a)
  {
    forall a, b | Below(a, b)
      ensures !Below(b, a)
    {
      if Below(b, a) {
        BelowTransitive(a, b, a);
        BelowIrreflexive(a);
      }
    }
  }

  /** Every name of `s` comes strictly before the next one: sorted, no repeats. */
  predicate Ascending(s: seq<string>) {
    forall i, j :: 0 <= i < j < |s| ==> Below(s[i], s[j])
  }

  /** `m` is the smallest member of `names`. */
  predicate IsLeast(m: string, names: set<string>) {
    m in names && forall y :: y in names && y != m ==> Below(m, y)
  }

  lemma {:induction false} LeastExists(names: set<string>)
    requires names != {}
    ensures exists m :: IsLeast(m, names)
    decreases |names|
  {
    var x :| x in names;
    if names != {x} {
      var rest := names - {x};
      LeastExists(rest);
      var m :| IsLeast(m, rest);
      if Below(x, m) {
        forall y | y in names && y != x
          ensures Below(x, y)
        {
          if y != m {
            BelowTransitive(x, m, y);
          }
        }
        assert IsLeast(x, names);
      } else {
        BelowTotal(x, m);
        assert IsLeast(m, names);
      }
    } else {
      assert IsLeast(x, names);
    }
  }

  lemma PrependLeast(m: string, names: set<string>, rest: seq<string>)
    requires IsLeast(m, names) && Ascending(rest)
    requires forall x :: x in rest ==> x in names - {m}
    ensures Ascending([m] + rest)
  {
    forall i, j | 0 <= i < j < |[m] + rest|
      ensures Below(([m] + rest)[i], ([m] + rest)[j])
    {
      assert rest[j - 1] in rest;
    }
  }

  /** `sorted(names)`: the members of `names`, each once, in ascending order. */
  function Sort(names: set<string>): (r: seq<string>)
    ensures Ascending(r)
    ensures forall x :: x in r <==> x in names
    ensures |r| == |names|
    decreases |names|
  {
    if names == {} then []
    else
      LeastExists(names);
      BelowAsymmetric();
      var m :| IsLeast(m, names);
      var rest := Sort(names - {m});
      PrependLeast(m, names, rest);
      [m] + rest
  }
}
