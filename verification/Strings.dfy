/** The lexicographic order of strings, sorting by it, and normalize_acl (src/types.rs:62-73). */
module Strings {
  predicate Lt(a: string, b: string) {
    if b == [] then false
    else if a == [] then true
    else a[0] < b[0] || (a[0] == b[0] && Lt(a[1..], b[1..]))
  }

  lemma {:induction false} LtIrreflexive(a: string)
    ensures !Lt(a, a)
  {
    if a != [] {
      LtIrreflexive(a[1..]);
    }
  }

  lemma {:induction false} LtTransitive(a: string, b: string, c: string)
    requires Lt(a, b) && Lt(b, c)
    ensures Lt(a, c)
  {
    if a != [] && a[0] == b[0] && b[0] == c[0] {
      LtTransitive(a[1..], b[1..], c[1..]);
    }
  }

  lemma {:induction false} LtTotal(a: string, b: string)
    ensures a == b || Lt(a, b) || Lt(b, a)
  {
    if a != [] && b != [] && a[0] == b[0] {
      LtTotal(a[1..], b[1..]);
      assert a == [a[0]] + a[1..] && b == [b[0]] + b[1..];
    }
  }

  /** a and b agree up to i, where a ends or has the smaller character. */
  ghost predicate SmallerAt(a: string, b: string, i: nat) {
    && i <= |a| && i < |b| && (forall k :: 0 <= k < i ==> a[k] == b[k])
    && (i < |a| ==> a[i] < b[i])
  }

  /** The order is that of the dictionary: the first difference decides, and a proper prefix comes first. */
  lemma {:induction false} LtIsLexicographic(a: string, b: string)
    ensures Lt(a, b) <==> exists i: nat :: SmallerAt(a, b, i)
  {
    if a != [] && b != [] && a[0] == b[0] {
      LtIsLexicographic(a[1..], b[1..]);
      if Lt(a[1..], b[1..]) {
        var i: nat :| SmallerAt(a[1..], b[1..], i);
        assert SmallerAt(a, b, i + 1);
      }
      if i: nat :| SmallerAt(a, b, i) {
        assert SmallerAt(a[1..], b[1..], i - 1);
      }
    } else if Lt(a, b) {
      assert SmallerAt(a, b, 0);
    }
  }

  lemma LtAsymmetric(a: string, b: string)
    requires Lt(a, b)
    ensures !Lt(b, a) && a != b
  {
    if Lt(b, a) {
      LtTransitive(a, b, a);
    }
    LtIrreflexive(a);
  }

  ghost predicate StrictlySorted(s: seq<string>) {
    forall i, j :: 0 <= i < j < |s| ==> Lt(s[i], s[j])
  }

  /** The position of x in a sorted list, inserting it only if it is new. */
  function Insert(s: seq<string>, x: string): (r: seq<string>)
    ensures forall y :: y in r <==> y == x || y in s
  {
    if s == [] then [x]
    else if x == s[0] then s
    else if Lt(x, s[0]) then [x] + s
    else [s[0]] + Insert(s[1..], x)
  }

  lemma {:induction false} InsertSorted(s: seq<string>, x: string)
    requires StrictlySorted(s)
    ensures StrictlySorted(Insert(s, x))
  {
    if s != [] && x != s[0] {
      if Lt(x, s[0]) {
        forall j | 0 < j < |s| ensures Lt(x, s[j]) { LtTransitive(x, s[0], s[j]); }
      } else {
        LtTotal(x, s[0]);
        InsertSorted(s[1..], x);
        var t := Insert(s[1..], x);
        forall j | 0 <= j < |t| ensures Lt(s[0], t[j]) {
          assert t[j] in t;
          if t[j] != x {
            var k :| 0 <= k < |s[1..]| && s[1..][k] == t[j];
            assert Lt(s[0], s[k + 1]);
          }
        }
      }
    }
  }

  /** sort, then dedup. */
  function NormalizeAcl(acl: seq<string>): (r: seq<string>)
    ensures forall t :: t in r <==> t in acl
  {
    if acl == [] then [] else Insert(NormalizeAcl(acl[1..]), acl[0])
  }

  lemma {:induction false} NormalizedIsSorted(acl: seq<string>)
    ensures StrictlySorted(NormalizeAcl(acl))
  {
    if acl != [] {
      NormalizedIsSorted(acl[1..]);
      InsertSorted(NormalizeAcl(acl[1..]), acl[0]);
    }
  }

  /** Strictly sorted lists with the same members are the same list. */
  lemma {:induction false} SortedUnique(a: seq<string>, b: seq<string>)
    requires StrictlySorted(a) && StrictlySorted(b)
    requires forall x :: x in a <==> x in b
    ensures a == b
  {
    assert b != [] ==> b[0] in b;
    if a != [] {
      assert a[0] in a;
      assert b != [];
      FirstIsLeast(a, b);
      FirstIsLeast(b, a);
      assert a[0] == b[0] by { LtTotal(a[0], b[0]); if a[0] != b[0] { LtAsymmetricBoth(a[0], b[0]); } }
      forall x ensures x in a[1..] <==> x in b[1..] {
        TailMembers(a, x);
        TailMembers(b, x);
      }
      SortedUnique(a[1..], b[1..]);
    }
  }

  lemma LtAsymmetricBoth(a: string, b: string)
    ensures !(Lt(a, b) && Lt(b, a))
  {
    if Lt(a, b) { LtAsymmetric(a, b); }
  }

  lemma FirstIsLeast(a: seq<string>, b: seq<string>)
    requires StrictlySorted(a) && a != [] && b != [] && b[0] in a
    ensures a[0] == b[0] || Lt(a[0], b[0])
  {
    var i :| 0 <= i < |a| && a[i] == b[0];
    assert i > 0 ==> Lt(a[0], a[i]);
  }

  lemma TailMembers(a: seq<string>, x: string)
    requires StrictlySorted(a) && a != []
    ensures x in a[1..] <==> x in a && x != a[0]
  {
    if x in a[1..] {
      var i :| 0 <= i < |a[1..]| && a[1..][i] == x;
      assert Lt(a[0], a[i + 1]);
      LtIrreflexive(x);
    }
  }

  /** Canonical: the result depends only on the set of tags, so normalizing again changes nothing. */
  lemma NormalizeCanonical(a: seq<string>, b: seq<string>)
    requires forall t :: t in a <==> t in b
    ensures NormalizeAcl(a) == NormalizeAcl(b)
    ensures StrictlySorted(a) ==> NormalizeAcl(b) == a
  {
    NormalizedIsSorted(a);
    NormalizedIsSorted(b);
    SortedUnique(NormalizeAcl(a), NormalizeAcl(b));
    if StrictlySorted(a) {
      SortedUnique(a, NormalizeAcl(b));
    }
  }

  /** normalize_acl, tag by tag. */
  method Normalize(acl: seq<string>) returns (r: seq<string>)
    ensures r == NormalizeAcl(acl)
  {
    r := [];
    var i := |acl|;
    assert acl[i..] == [];
    while i > 0
      invariant 0 <= i <= |acl|
      invariant r == NormalizeAcl(acl[i..])
    {
      i := i - 1;
      assert acl[i..][1..] == acl[i + 1..];
      r := Insert(r, acl[i]);
    }
    assert acl[0..] == acl;
  }
}
