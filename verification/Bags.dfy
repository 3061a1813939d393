/** Multisets obtained by visiting the elements of a set in any order. */
module Bags {

  /** The multiset of `f(x)` over the elements of a set. */
  ghost function Image<X, Y>(s: set<X>, f: X -> Y): multiset<Y> {
    if s == {} then multiset{}
    else
      var x :| x in s;
      Image(s - {x}, f) + multiset{f(x)}
  }

  lemma Member<X>(s: set<X>) returns (x: X)
    requires s != {}
    ensures x in s
  {
    x :| x in s;
  }

  /** Which element is visited first makes no difference. */
  lemma {:induction false} ImageAnyOrder<X, Y>(s: set<X>, x: X, f: X -> Y)
    requires x in s
    ensures Image(s, f) == Image(s - {x}, f) + multiset{f(x)}
  {
    var first :| first in s && Image(s, f) == Image(s - {first}, f) + multiset{f(first)};
    if first != x {
      ImageAnyOrder(s - {first}, x, f);
      ImageAnyOrder(s - {x}, first, f);
      assert s - {first} - {x} == s - {x} - {first};
    }
  }

  lemma ImageAdd<X, Y>(s: set<X>, x: X, f: X -> Y)
    requires x !in s
    ensures Image(s + {x}, f) == Image(s, f) + multiset{f(x)}
  {
    ImageAnyOrder(s + {x}, x, f);
    assert s + {x} - {x} == s;
  }

  /** Taking `x` off what is left adds `f(x)` to what is done. */
  lemma ImageRest<X, Y>(s: set<X>, rest: set<X>, x: X, f: X -> Y)
    requires rest <= s && x in rest
    ensures Image(s - (rest - {x}), f) == Image(s - rest, f) + multiset{f(x)}
  {
    ImageAdd(s - rest, x, f);
    assert s - (rest - {x}) == s - rest + {x};
  }

  lemma PutBack<X>(s: set<X>, t: set<X>, x: X)
    requires x in t
    ensures t - {x} + {x} == t && s + (t - {x}) + {x} == s + t
  {
  }

  lemma {:induction false} ImageUnion<X, Y>(s: set<X>, t: set<X>, f: X -> Y)
    requires s !! t
    ensures Image(s + t, f) == Image(s, f) + Image(t, f)
  {
    if t == {} {
      assert s + t == s;
    } else {
      var x :| x in t;
      var u := t - {x};
      ImageUnion(s, u, f);
      ImageAdd(u, x, f);
      ImageAdd(s + u, x, f);
      PutBack(s, t, x);
    }
  }

  lemma {:induction false} ImageSame<X, Y>(s: set<X>, f: X -> Y, g: X -> Y)
    requires forall x | x in s :: f(x) == g(x)
    ensures Image(s, f) == Image(s, g)
  {
    if s != {} {
      var x :| x in s;
      ImageAnyOrder(s, x, f);
      ImageAnyOrder(s, x, g);
      ImageSame(s - {x}, f, g);
    }
  }
}
