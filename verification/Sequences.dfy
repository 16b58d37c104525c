/** Facts about filtering and cutting sequences that several components use. */
module Sequences {

  datatype Option<+T> = None | Some(value: T)

  function Filter<T>(p: T -> bool, l: seq<T>): (r: seq<T>)
    ensures |r| <= |l|
  {
    if l == [] then []
    else if p(l[0]) then [l[0]] + Filter(p, l[1..])
    else Filter(p, l[1..])
  }

  /** The last n elements, the whole sequence when it is shorter: Python's l[-n:] for positive n. */
  function LastN<T>(l: seq<T>, n: nat): (r: seq<T>)
    ensures |r| == if |l| <= n then |l| else n
  {
    if |l| <= n then l else l[|l| - n..]
  }

  predicate Suffix<T(==)>(a: seq<T>, b: seq<T>) {
    |a| <= |b| && a == b[|b| - |a|..]
  }

  predicate Distinct<T(==)>(l: seq<T>) {
    forall i, j :: 0 <= i < j < |l| ==> l[i] != l[j]
  }

  lemma {:induction false} FilterConcat<T>(p: T -> bool, a: seq<T>, b: seq<T>)
    ensures Filter(p, a + b) == Filter(p, a) + Filter(p, b)
  {
    if a == [] {
      assert a + b == b;
    } else {
      assert (a + b)[0] == a[0] && (a + b)[1..] == a[1..] + b;
      FilterConcat(p, a[1..], b);
    }
  }

  lemma FilterCons<T>(p: T -> bool, x: T, l: seq<T>)
    ensures Filter(p, [x] + l) == if p(x) then [x] + Filter(p, l) else Filter(p, l)
  {
    assert ([x] + l)[1..] == l;
  }

  lemma {:induction false} FilterMember<T(!new)>(p: T -> bool, l: seq<T>)
    ensures forall x :: x in Filter(p, l) <==> x in l && p(x)
  {
    if l != [] {
      FilterMember(p, l[1..]);
      assert l == [l[0]] + l[1..];
    }
  }

  lemma {:induction false} FilterAll<T(!new)>(p: T -> bool, l: seq<T>)
    requires forall x :: x in l ==> p(x)
    ensures Filter(p, l) == l
  {
    if l != [] {
      FilterAll(p, l[1..]);
    }
  }

  lemma {:induction false} FilterNone<T(!new)>(p: T -> bool, l: seq<T>)
    requires forall x :: x in l ==> !p(x)
    ensures Filter(p, l) == []
  {
    if l != [] {
      FilterNone(p, l[1..]);
    }
  }

  lemma {:induction false} FilterSwap<T>(p: T -> bool, q: T -> bool, l: seq<T>)
    ensures Filter(p, Filter(q, l)) == Filter(q, Filter(p, l))
  {
    if l != [] {
      var x, rest := l[0], l[1..];
      FilterSwap(p, q, rest);
      FilterCons(p, x, Filter(q, rest));
      FilterCons(q, x, Filter(p, rest));
    }
  }

  /** A filter passes through a suffix: cutting to the end and filtering leaves an end of the filtered whole. */
  lemma FilterSuffix<T>(p: T -> bool, a: seq<T>, b: seq<T>)
    requires Suffix(a, b)
    ensures Suffix(Filter(p, a), Filter(p, b))
  {
    var front := b[..|b| - |a|];
    assert b == front + a;
    FilterConcat(p, front, a);
  }
}
