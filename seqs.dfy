/** Sequence helpers with the meaning of JavaScript's `Array.prototype.filter`
    and `Array.prototype.map`, the optional value the source writes as `null`,
    and the facts about them that the converter's properties rest on. */
module Seqs {

  /** A value or the source's `null`. */
  datatype Option<T> = None | Some(value: T)

  /** `t` is `s` with some elements left out and the rest in their order. */
  ghost predicate Subsequence<T>(t: seq<T>, s: seq<T>)
    decreases |s|
  {
    if t == [] then true
    else if s == [] then false
    else if t[0] == s[0] then Subsequence(t[1..], s[1..])
    else Subsequence(t, s[1..])
  }

  /** `s.filter(keep)`: the elements of `s` that satisfy `keep`, in order. */
  function Filter<T(==,!new)>(s: seq<T>, keep: T -> bool): (r: seq<T>)
    ensures |r| <= |s|
    ensures forall i :: 0 <= i < |r| ==> keep(r[i])
    ensures forall x :: x in r <==> x in s && keep(x)
    ensures forall x :: keep(x) ==> multiset(r)[x] == multiset(s)[x]
    ensures Subsequence(r, s)
  {
    if s == [] then []
    else
      var rest := Filter(s[1..], keep);
      assert s == [s[0]] + s[1..];
      if keep(s[0]) then [s[0]] + rest else rest
  }

  /** `s.map(f)`. */
  function Map<A, B>(s: seq<A>, f: A -> B): (r: seq<B>)
    ensures |r| == |s|
    ensures forall i :: 0 <= i < |s| ==> r[i] == f(s[i])
  {
    if s == [] then [] else [f(s[0])] + Map(s[1..], f)
  }

  /** `s.filter(x => x !== null)`, with the survivors unwrapped. */
  function Present<T(==,!new)>(s: seq<Option<T>>): (r: seq<T>)
    ensures |r| <= |s|
    ensures forall x :: x in r <==> Some(x) in s
    ensures Map(r, (x: T) => Some(x)) == Filter(s, (o: Option<T>) => o.Some?)
  {
    if s == [] then []
    else
      var rest := Present(s[1..]);
      assert s == [s[0]] + s[1..];
      match s[0]
      case None =>
        assert Filter(s, (o: Option<T>) => o.Some?) == Filter(s[1..], (o: Option<T>) => o.Some?);
        rest
      case Some(x) =>
        assert Filter(s, (o: Option<T>) => o.Some?) == [s[0]] + Filter(s[1..], (o: Option<T>) => o.Some?);
        assert Map([x] + rest, (x: T) => Some(x)) == [Some(x)] + Map(rest, (x: T) => Some(x));
        [x] + rest
  }

  /** No element occurs twice. */
  ghost predicate Distinct<T>(s: seq<T>)
  {
    forall i, j :: 0 <= i < j < |s| ==> s[i] != s[j]
  }

  lemma {:induction false} SubsequenceMultiset<T>(t: seq<T>, s: seq<T>)
    requires Subsequence(t, s)
    ensures multiset(t) <= multiset(s)
    decreases |s|
  {
    if t == [] {
    } else {
      assert s == [s[0]] + s[1..];
      if t[0] == s[0] {
        SubsequenceMultiset(t[1..], s[1..]);
        assert t == [t[0]] + t[1..];
      } else {
        SubsequenceMultiset(t, s[1..]);
      }
    }
  }

  /** Filter is the only order-preserving selection that keeps every element
      satisfying `keep`, with its multiplicity, and nothing else. */
  lemma {:induction false} FilterUnique<T(!new)>(s: seq<T>, keep: T -> bool, t: seq<T>)
    requires Subsequence(t, s)
    requires forall i :: 0 <= i < |t| ==> keep(t[i])
    requires forall x :: keep(x) ==> multiset(t)[x] == multiset(s)[x]
    ensures t == Filter(s, keep)
  {
    if s == [] {
      assert t == [];
    } else {
      var a, s' := s[0], s[1..];
      assert s == [a] + s';
      if t == [] {
        var r := Filter(s, keep);
        if r != [] {
          assert false;
        }
      } else if t[0] == a {
        assert keep(a);
        var t' := t[1..];
        assert t == [a] + t';
        forall x | keep(x) ensures multiset(t')[x] == multiset(s')[x] {
          assert multiset(t)[x] == multiset(t')[x] + multiset([a])[x];
          assert multiset(s)[x] == multiset(s')[x] + multiset([a])[x];
        }
        FilterUnique(s', keep, t');
      } else {
        assert Subsequence(t, s');
        SubsequenceMultiset(t, s');
        if keep(a) {
          assert false;
        } else {
          forall x | keep(x) ensures multiset(t)[x] == multiset(s')[x] {
            assert multiset(s)[x] == multiset(s')[x] + multiset([a])[x];
          }
          FilterUnique(s', keep, t);
        }
      }
    }
  }

  /** Filtering an already filtered sequence with the same test changes nothing. */
  lemma {:induction false} FilterIdempotent<T(!new)>(s: seq<T>, keep: T -> bool)
    ensures Filter(Filter(s, keep), keep) == Filter(s, keep)
  {
    if s != [] {
      FilterIdempotent(s[1..], keep);
    }
  }

  /** Mapping the source's way (map to `null` or a value, then drop `null`)
      equals selecting first and mapping the survivors. */
  lemma {:induction false} PresentOfMap<A(!new), B(!new)>(s: seq<A>, f: A -> Option<B>, keep: A -> bool, g: A -> B)
    requires forall a :: f(a) == if keep(a) then Some(g(a)) else None
    ensures Present(Map(s, f)) == Map(Filter(s, keep), g)
  {
    if s != [] {
      PresentOfMap(s[1..], f, keep, g);
      assert Map(s, f) == [f(s[0])] + Map(s[1..], f);
    }
  }

  /** Selecting from a sequence whose images under `f` are all different
      leaves images that are all different. */
  lemma {:induction false} FilterKeepsDistinctImages<A(!new), B>(s: seq<A>, keep: A -> bool, f: A -> B)
    requires Distinct(Map(s, f))
    ensures Distinct(Map(Filter(s, keep), f))
  {
    if s != [] {
      var s' := s[1..];
      DistinctImagesTail(s, f);
      FilterKeepsDistinctImages(s', keep, f);
      if keep(s[0]) {
        var rest := Map(Filter(s', keep), f);
        HeadImageFresh(s, keep, f);
        DistinctCons(f(s[0]), rest);
        assert Filter(s, keep) == [s[0]] + Filter(s', keep);
        assert Map(Filter(s, keep), f) == [f(s[0])] + rest;
      } else {
        assert Filter(s, keep) == Filter(s', keep);
      }
    }
  }

  lemma DistinctCons<T>(x: T, rest: seq<T>)
    requires Distinct(rest) && x !in rest
    ensures Distinct([x] + rest)
  {
    var s := [x] + rest;
    forall i, j | 0 <= i < j < |s| ensures s[i] != s[j] {
      assert s[j] == rest[j - 1];
      if i > 0 {
        assert s[i] == rest[i - 1];
      }
    }
  }

  lemma DistinctImagesTail<A, B>(s: seq<A>, f: A -> B)
    requires s != [] && Distinct(Map(s, f))
    ensures Distinct(Map(s[1..], f))
  {
    var s' := s[1..];
    forall i, j | 0 <= i < j < |s'| ensures Map(s', f)[i] != Map(s', f)[j] {
      assert Map(s, f)[i + 1] != Map(s, f)[j + 1];
    }
  }

  lemma HeadImageFresh<A(!new), B>(s: seq<A>, keep: A -> bool, f: A -> B)
    requires s != [] && Distinct(Map(s, f))
    ensures f(s[0]) !in Map(Filter(s[1..], keep), f)
  {
    var s' := s[1..];
    var rest := Map(Filter(s', keep), f);
    forall j | 0 <= j < |rest| ensures f(s[0]) != rest[j] {
      var x := Filter(s', keep)[j];
      assert x in s';
      var k :| 0 <= k < |s'| && s'[k] == x;
      assert Map(s, f)[0] != Map(s, f)[k + 1];
    }
  }
}
