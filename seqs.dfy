/** Sequence combinators that the handlers, the node projection and the
    status judgement are all built from, with the facts proved about them. */
module Seqs {
  import opened Wrappers

  /** Keeps, in order, the values `f` produces for the elements it accepts. */
  function FilterMap<A, B>(f: A -> Option<B>, s: seq<A>): (r: seq<B>)
    ensures |r| <= |s|
  {
    if s == [] then []
    else FilterMap(f, s[..|s| - 1]) + OptionToSeq(f(s[|s| - 1]))
  }

  function OptionToSeq<B>(o: Option<B>): (r: seq<B>)
    ensures |r| <= 1
  {
    match o
    case None => []
    case Some(b) => [b]
  }

  /** The indices of `s` whose elements `f` accepts. */
  function Accepted<A, B>(f: A -> Option<B>, s: seq<A>): set<int>
  {
    set i | 0 <= i < |s| && f(s[i]).Some?
  }

  /** Processing one more element appends that element's contribution. */
  lemma FilterMapSnoc<A, B>(f: A -> Option<B>, s: seq<A>, x: A)
    ensures FilterMap(f, s + [x]) == FilterMap(f, s) + OptionToSeq(f(x))
  {
    assert (s + [x])[..|s|] == s;
  }

  /** Concatenation is associative: a hint for regrouping appended pieces. */
  lemma ConcatAssoc<T>(a: seq<T>, b: seq<T>, c: seq<T>)
    ensures (a + b) + c == a + (b + c)
  {
  }

  /** Filtering distributes over concatenation. */
  lemma {:induction false} FilterMapConcat<A, B>(f: A -> Option<B>, s: seq<A>, t: seq<A>)
    ensures FilterMap(f, s + t) == FilterMap(f, s) + FilterMap(f, t)
  {
    if t == [] {
      assert s + t == s;
    } else {
      var init, last := t[..|t| - 1], t[|t| - 1];
      assert t == init + [last];
      calc {
        FilterMap(f, s + t);
      == { assert s + t == (s + init) + [last]; FilterMapSnoc(f, s + init, last); }
        FilterMap(f, s + init) + OptionToSeq(f(last));
      == { FilterMapConcat(f, s, init); }
        (FilterMap(f, s) + FilterMap(f, init)) + OptionToSeq(f(last));
      == { ConcatAssoc(FilterMap(f, s), FilterMap(f, init), OptionToSeq(f(last))); }
        FilterMap(f, s) + (FilterMap(f, init) + OptionToSeq(f(last)));
      == { FilterMapSnoc(f, init, last); }
        FilterMap(f, s) + FilterMap(f, t);
      }
    }
  }

  /** Nothing is produced iff `f` accepts no element. */
  lemma {:induction false} FilterMapEmpty<A, B>(f: A -> Option<B>, s: seq<A>)
    ensures FilterMap(f, s) == [] <==> forall i :: 0 <= i < |s| ==> f(s[i]).None?
  {
    if s != [] {
      var init := s[..|s| - 1];
      FilterMapEmpty(f, init);
      assert forall i :: 0 <= i < |init| ==> init[i] == s[i];
    }
  }

  /** Exactly one value per accepted element. */
  lemma {:induction false} FilterMapLength<A, B>(f: A -> Option<B>, s: seq<A>)
    ensures |FilterMap(f, s)| == |Accepted(f, s)|
  {
    if s != [] {
      var n := |s| - 1;
      var init := s[..n];
      FilterMapLength(f, init);
      var before := Accepted(f, init);
      var all := Accepted(f, s);
      if f(s[n]).Some? {
        assert all == before + {n};
        assert n !in before;
      } else {
        assert all == before;
      }
    }
  }

  /** A value is produced iff some element is mapped to it. */
  lemma {:induction false} FilterMapMember<A, B>(f: A -> Option<B>, s: seq<A>, b: B)
    ensures b in FilterMap(f, s) <==> exists i :: 0 <= i < |s| && f(s[i]) == Some(b)
  {
    if s != [] {
      var n := |s| - 1;
      var init := s[..n];
      FilterMapMember(f, init, b);
      if b in FilterMap(f, s) && b !in FilterMap(f, init) {
        assert f(s[n]) == Some(b);
      }
      if exists i :: 0 <= i < |s| && f(s[i]) == Some(b) {
        var i :| 0 <= i < |s| && f(s[i]) == Some(b);
        if i < n {
          assert init[i] == s[i];
        }
      }
    }
  }

  /** Elements pairwise different. */
  predicate Distinct<T(==)>(s: seq<T>)
  {
    forall i, j :: 0 <= i < j < |s| ==> s[i] != s[j]
  }

  /** `order` lists every element of `keys` exactly once, in some order:
      one possible iteration order of a Go map with key set `keys`. */
  predicate EnumerationOf<T(==)>(order: seq<T>, keys: set<T>)
  {
    Distinct(order) && (forall k :: k in order ==> k in keys) && (forall k :: k in keys ==> k in order)
  }
}
