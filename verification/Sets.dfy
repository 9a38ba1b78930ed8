/** Sizes of finite sets. */
module Sets {

  lemma {:induction false} Pick<T>(s: set<T>) returns (x: T)
    requires |s| > 0
    ensures x in s
  {
    x :| x in s;
  }

  lemma {:induction false} SubsetSize<T>(a: set<T>, b: set<T>)
    requires a <= b
    ensures |a| <= |b|
    ensures |a| == |b| ==> a == b
  {
    assert b == a + (b - a);
  }

  lemma {:induction false} UnionSize<T>(a: set<T>, b: set<T>)
    ensures |a + b| <= |a| + |b|
  {
    assert a + b == a + (b - a);
    SubsetSize(b - a, b);
  }

  lemma {:induction false} Singleton<T>(s: set<T>, x: T)
    requires |s| == 1 && x in s
    ensures s == {x}
  {
    assert |s - {x}| == 0;
  }

  /** A set whose every element is f of some element of s is no larger than s is long. */
  lemma {:induction false} ImageOfSeqSize<A, B>(s: seq<A>, f: A -> B, image: set<B>)
    requires forall y :: y in image ==> exists x :: x in s && f(x) == y
    ensures |image| <= |s|
    decreases |s|
  {
    if s == [] {
      assert image == {};
    } else {
      var y := f(s[0]);
      forall z | z in image - {y} ensures exists x :: x in s[1..] && f(x) == z {
        var x :| x in s && f(x) == z;
        assert x in s[1..];
      }
      ImageOfSeqSize(s[1..], f, image - {y});
    }
  }

  /** A set that f maps one-to-one into b is no larger than b. */
  lemma {:induction false} InjectionSize<A, B>(a: set<A>, b: set<B>, f: A -> B)
    requires forall x :: x in a ==> f(x) in b
    requires forall x, y :: x in a && y in a && f(x) == f(y) ==> x == y
    ensures |a| <= |b|
    decreases a
  {
    if a != {} {
      var x :| x in a;
      InjectionSize(a - {x}, b - {f(x)}, f);
    }
  }
}
