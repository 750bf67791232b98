/** Filtering, mapping and counting over sequences. */
module Seqs {

  function Filter<T>(s: seq<T>, p: T -> bool): (r: seq<T>)
    ensures forall x | x in r :: x in s && p(x)
    ensures forall x | x in s && p(x) :: x in r
  {
    if s == [] then []
    else if p(s[0]) then [s[0]] + Filter(s[1..], p)
    else Filter(s[1..], p)
  }

  function Map<T, U>(s: seq<T>, f: T -> U): (r: seq<U>)
    ensures |r| == |s|
    ensures forall i :: 0 <= i < |s| ==> r[i] == f(s[i])
  {
    if s == [] then [] else [f(s[0])] + Map(s[1..], f)
  }

  function Count<T>(s: seq<T>, p: T -> bool): nat {
    |Filter(s, p)|
  }

  lemma {:induction false} FilterAppend<T>(a: seq<T>, b: seq<T>, p: T -> bool)
    ensures Filter(a + b, p) == Filter(a, p) + Filter(b, p)
  {
    if a == [] {
      assert a + b == b;
    } else {
      assert (a + b)[1..] == a[1..] + b;
      FilterAppend(a[1..], b, p);
    }
  }

  lemma FilterSnoc<T>(s: seq<T>, x: T, p: T -> bool)
    ensures Filter(s + [x], p) == if p(x) then Filter(s, p) + [x] else Filter(s, p)
  {
    FilterAppend(s, [x], p);
    assert Filter([x], p) == if p(x) then [x] else [] by { assert [x][1..] == []; }
  }

  lemma {:induction false} MapAppend<T, U>(a: seq<T>, b: seq<T>, f: T -> U)
    ensures Map(a + b, f) == Map(a, f) + Map(b, f)
  {
    if a == [] {
      assert a + b == b;
    } else {
      assert (a + b)[1..] == a[1..] + b;
      MapAppend(a[1..], b, f);
    }
  }

  lemma MapFilterSnoc<T, U>(s: seq<T>, x: T, p: T -> bool, f: T -> U)
    ensures Map(Filter(s + [x], p), f) == Map(Filter(s, p), f) + (if p(x) then [f(x)] else [])
  {
    FilterSnoc(s, x, p);
    if p(x) {
      MapAppend(Filter(s, p), [x], f);
      assert Map([x], f) == [f(x)];
    }
  }

  /** Predicates that agree on the members select the same. */
  lemma {:induction false} FilterSame<T>(s: seq<T>, p: T -> bool, q: T -> bool)
    requires forall x :: x in s ==> p(x) == q(x)
    ensures Filter(s, p) == Filter(s, q)
  {
    if s != [] {
      FilterSame(s[1..], p, q);
    }
  }

  /** Selecting twice is selecting by both. */
  lemma {:induction false} FilterTwice<T>(s: seq<T>, p: T -> bool, q: T -> bool, both: T -> bool)
    requires forall x :: x in s ==> both(x) == (p(x) && q(x))
    ensures Filter(Filter(s, p), q) == Filter(s, both)
  {
    if s != [] {
      FilterTwice(s[1..], p, q, both);
      if p(s[0]) {
        assert ([s[0]] + Filter(s[1..], p))[1..] == Filter(s[1..], p);
      }
    }
  }

  /** Selecting among the views of selected members is selecting the members first. */
  lemma {:induction false} SelectViews<T, U>(s: seq<T>, p: T -> bool, view: T -> U, q: U -> bool, both: T -> bool)
    requires forall x :: x in s ==> both(x) == (p(x) && q(view(x)))
    ensures Filter(Map(Filter(s, p), view), q) == Map(Filter(s, both), view)
  {
    if s != [] {
      var rest := s[1..];
      SelectViews(rest, p, view, q, both);
      var kept, views := Filter(rest, p), Map(Filter(rest, p), view);
      if p(s[0]) {
        assert ([s[0]] + kept)[1..] == kept;
        assert ([view(s[0])] + views)[1..] == views;
      }
      if both(s[0]) {
        assert ([s[0]] + Filter(rest, both))[1..] == Filter(rest, both);
      }
    }
  }

  lemma {:induction false} FilterMapped<T, U>(s: seq<T>, view: T -> U, q: U -> bool, both: T -> bool)
    requires forall x :: x in s ==> both(x) == q(view(x))
    ensures Filter(Map(s, view), q) == Map(Filter(s, both), view)
  {
    if s != [] {
      FilterMapped(s[1..], view, q, both);
      assert Map(s, view)[1..] == Map(s[1..], view);
      if both(s[0]) {
        assert ([s[0]] + Filter(s[1..], both))[1..] == Filter(s[1..], both);
      }
    }
  }

  lemma {:induction false} MapTwice<T, U, V>(s: seq<T>, f: T -> U, g: U -> V, h: T -> V)
    requires forall x :: x in s ==> h(x) == g(f(x))
    ensures Map(Map(s, f), g) == Map(s, h)
  {
    if s != [] {
      assert Map(s, f)[1..] == Map(s[1..], f);
      MapTwice(s[1..], f, g, h);
    }
  }

  lemma CountPrefix<T>(s: seq<T>, i: nat, p: T -> bool)
    requires i < |s|
    ensures Count(s[..i + 1], p) == Count(s[..i], p) + (if p(s[i]) then 1 else 0)
    ensures Count(s[..i + 1], p) <= Count(s, p)
  {
    assert s[..i + 1] == s[..i] + [s[i]];
    FilterSnoc(s[..i], s[i], p);
    assert s == s[..i + 1] + s[i + 1..];
    FilterAppend(s[..i + 1], s[i + 1..], p);
  }

  lemma {:induction false} FilterAll<T>(s: seq<T>, p: T -> bool)
    requires forall x :: x in s ==> p(x)
    ensures Filter(s, p) == s
  {
    if s != [] {
      FilterAll(s[1..], p);
    }
  }

  lemma {:induction false} FilterNone<T>(s: seq<T>, p: T -> bool)
    requires forall x :: x in s ==> !p(x)
    ensures Filter(s, p) == []
  {
    if s != [] {
      FilterNone(s[1..], p);
    }
  }

  lemma {:induction false} MapSame<T, U>(s: seq<T>, f: T -> U, g: T -> U)
    requires forall x :: x in s ==> f(x) == g(x)
    ensures Map(s, f) == Map(s, g)
  {
    if s != [] {
      MapSame(s[1..], f, g);
    }
  }

  /** Two exclusive ways to be selected add up. */
  lemma {:induction false} CountSplit<T>(s: seq<T>, p: T -> bool, a: T -> bool, b: T -> bool)
    requires forall x :: x in s ==> (p(x) <==> a(x) || b(x)) && !(a(x) && b(x))
    ensures Count(s, p) == Count(s, a) + Count(s, b)
  {
    if s != [] {
      CountSplit(s[1..], p, a, b);
    }
  }

  lemma CountSame<T>(s: seq<T>, p: T -> bool, q: T -> bool)
    requires forall x :: x in s ==> p(x) == q(x)
    ensures Count(s, p) == Count(s, q)
  {
    FilterSame(s, p, q);
  }

  lemma {:induction false} CountComplement<T>(s: seq<T>, p: T -> bool, not: T -> bool)
    requires forall x :: x in s ==> not(x) == !p(x)
    ensures Count(s, p) + Count(s, not) == |s|
  {
    if s != [] {
      CountComplement(s[1..], p, not);
    }
  }

  /**
   Selecting and stripping before a conversion, or converting first: the same,
   when the conversion carries the selection and the stripping over.
   */
  lemma {:induction false} StripThenConvert<T(!new), U>(s: seq<T>, here: T -> bool, p: T -> bool, strip: T -> T, conv: T -> U, q: U -> bool, stripped: U -> U)
    requires forall x :: q(conv(x)) == p(x)
    requires forall x :: conv(strip(x)) == stripped(conv(x))
    requires forall x :: here(strip(x)) == here(x)
    ensures Map(Filter(Map(Filter(s, p), strip), here), conv) == Map(Filter(Map(Filter(s, here), conv), q), stripped)
  {
    if s != [] {
      var x, rest := s[0], s[1..];
      StripThenConvert(rest, here, p, strip, conv, q, stripped);
      var kept, mine := Map(Filter(rest, p), strip), Map(Filter(rest, here), conv);
      if p(x) {
        assert Map(Filter(s, p), strip) == [strip(x)] + kept by {
          assert ([x] + Filter(rest, p))[1..] == Filter(rest, p);
        }
        assert ([strip(x)] + kept)[1..] == kept;
      }
      if here(x) {
        assert Map(Filter(s, here), conv) == [conv(x)] + mine by {
          assert ([x] + Filter(rest, here))[1..] == Filter(rest, here);
        }
        assert ([conv(x)] + mine)[1..] == mine;
      }
      if p(x) && here(x) {
        assert ([strip(x)] + Filter(kept, here))[1..] == Filter(kept, here);
        assert ([conv(x)] + Filter(mine, q))[1..] == Filter(mine, q);
      }
    }
  }
}
