/** The total order in which a snapshot lists its edges (src/persist/snapshot.rs:238-259). */
module CsrOrder {
  import opened Types
  import opened Strings
  import opened Perms
  import opened Csr

  /** First by a, ties by b. */
  function Then<T>(a: (T, T) -> bool, b: (T, T) -> bool): (T, T) -> bool {
    (x, y) => a(x, y) && (!a(y, x) || b(x, y))
  }

  lemma ThenIsTotal<T(!new)>(a: (T, T) -> bool, b: (T, T) -> bool)
    requires TotalPreorder(a) && TotalPreorder(b)
    ensures TotalPreorder(Then(a, b))
    ensures forall x, y :: Then(a, b)(x, y) && Then(a, b)(y, x) ==> a(x, y) && a(y, x) && b(x, y) && b(y, x)
  {
    var le := Then(a, b);
    forall x, y, z | le(x, y) && le(y, z) ensures le(x, z) {
      assert a(x, z);
      if a(z, x) {
        assert a(y, x) && a(z, y);
        assert b(x, z);
      }
    }
  }

  predicate StringLe(a: string, b: string) { a == b || Lt(a, b) }

  lemma StringLeIsTotal()
    ensures TotalPreorder(StringLe) && forall a, b :: StringLe(a, b) && StringLe(b, a) ==> a == b
  {
    forall a, b ensures StringLe(a, b) || StringLe(b, a) { LtTotal(a, b); }
    forall a, b, c | StringLe(a, b) && StringLe(b, c) ensures StringLe(a, c) {
      if Lt(a, b) && Lt(b, c) { LtTransitive(a, b, c); }
    }
    forall a, b | StringLe(a, b) && StringLe(b, a) ensures a == b {
      if Lt(a, b) { LtAsymmetric(a, b); }
    }
  }

  /** Absent values first. */
  predicate OptLe<T>(le: (T, T) -> bool, a: Option<T>, b: Option<T>) {
    a.None? || (b.Some? && le(a.value, b.value))
  }

  predicate ListLe(a: seq<string>, b: seq<string>) {
    a == [] || (b != [] && StringLe(a[0], b[0]) && (a[0] != b[0] || ListLe(a[1..], b[1..])))
  }

  lemma {:induction false} ListLeTotal(a: seq<string>, b: seq<string>)
    ensures ListLe(a, b) || ListLe(b, a)
    ensures ListLe(a, b) && ListLe(b, a) ==> a == b
  {
    StringLeIsTotal();
    if a != [] && b != [] {
      ListLeTotal(a[1..], b[1..]);
      assert a == [a[0]] + a[1..] && b == [b[0]] + b[1..];
    }
  }

  lemma {:induction false} ListLeTransitive(a: seq<string>, b: seq<string>, c: seq<string>)
    requires ListLe(a, b) && ListLe(b, c)
    ensures ListLe(a, c)
  {
    StringLeIsTotal();
    if a != [] && b != [] && c != [] && a[0] == b[0] && b[0] == c[0] {
      ListLeTransitive(a[1..], b[1..], c[1..]);
    }
  }

  // ---------------------------------------------------------------------
  // The eight keys, in order
  // ---------------------------------------------------------------------

  predicate FromLe(x: IndexedEdge, y: IndexedEdge) { x.from <= y.from }

  predicate ToLe(x: IndexedEdge, y: IndexedEdge) { x.to <= y.to }

  predicate KindLe(x: IndexedEdge, y: IndexedEdge) { StringLe(x.data.kind, y.data.kind) }

  predicate FieldLe(x: IndexedEdge, y: IndexedEdge) { OptLe(StringLe, x.data.fieldName, y.data.fieldName) }

  predicate WeightLe(x: IndexedEdge, y: IndexedEdge) { x.data.baseWeight <= y.data.baseWeight }

  predicate NatLe(a: nat, b: nat) { a <= b }

  predicate FromTimeLe(x: IndexedEdge, y: IndexedEdge) { OptLe(NatLe, x.data.validFrom, y.data.validFrom) }

  predicate ToTimeLe(x: IndexedEdge, y: IndexedEdge) { OptLe(NatLe, x.data.validTo, y.data.validTo) }

  predicate AclLe(x: IndexedEdge, y: IndexedEdge) { ListLe(x.data.acl, y.data.acl) }

  function LateKeys(): (IndexedEdge, IndexedEdge) -> bool { Then(FromTimeLe, Then(ToTimeLe, AclLe)) }

  function MiddleKeys(): (IndexedEdge, IndexedEdge) -> bool { Then(KindLe, Then(FieldLe, Then(WeightLe, LateKeys()))) }

  function EdgeLe(): (IndexedEdge, IndexedEdge) -> bool { Then(FromLe, Then(ToLe, MiddleKeys())) }

  lemma AclLeTotal()
    ensures TotalPreorder(AclLe)
  {
    forall x, y ensures AclLe(x, y) || AclLe(y, x) { ListLeTotal(x.data.acl, y.data.acl); }
    forall x, y, z | AclLe(x, y) && AclLe(y, z) ensures AclLe(x, z) {
      ListLeTransitive(x.data.acl, y.data.acl, z.data.acl);
    }
  }

  lemma StringKeysTotal()
    ensures TotalPreorder(KindLe) && TotalPreorder(FieldLe)
  {
    StringLeIsTotal();
  }

  lemma LateKeysTotal()
    ensures TotalPreorder(LateKeys())
    ensures forall x, y :: LateKeys()(x, y) && LateKeys()(y, x) ==>
      x.data.validFrom == y.data.validFrom && x.data.validTo == y.data.validTo && x.data.acl == y.data.acl
  {
    AclLeTotal();
    ThenIsTotal(ToTimeLe, AclLe);
    ThenIsTotal(FromTimeLe, Then(ToTimeLe, AclLe));
    forall x: IndexedEdge, y: IndexedEdge | LateKeys()(x, y) && LateKeys()(y, x)
      ensures x.data.validFrom == y.data.validFrom && x.data.validTo == y.data.validTo && x.data.acl == y.data.acl
    {
      ListLeTotal(x.data.acl, y.data.acl);
    }
  }

  lemma MiddleKeysTotal()
    ensures TotalPreorder(MiddleKeys())
    ensures forall x, y :: MiddleKeys()(x, y) && MiddleKeys()(y, x) ==> x.data == y.data
  {
    LateKeysTotal();
    StringKeysTotal();
    StringLeIsTotal();
    ThenIsTotal(WeightLe, LateKeys());
    ThenIsTotal(FieldLe, Then(WeightLe, LateKeys()));
    ThenIsTotal(KindLe, Then(FieldLe, Then(WeightLe, LateKeys())));
  }

  /** The order of lists of tags, by the dictionary of their tags. */
  lemma {:induction false} ListLeIsLexicographic(a: seq<string>, b: seq<string>)
    ensures ListLe(a, b) <==> a == b || exists i: nat :: ListSmallerAt(a, b, i)
  {
    if a != [] && b != [] && a[0] == b[0] {
      ListLeIsLexicographic(a[1..], b[1..]);
      assert a == [a[0]] + a[1..] && b == [b[0]] + b[1..];
      if ListLe(a[1..], b[1..]) && a != b {
        var i: nat :| ListSmallerAt(a[1..], b[1..], i);
        assert ListSmallerAt(a, b, i + 1);
      }
      LtIrreflexive(a[0]);
      if i: nat :| ListSmallerAt(a, b, i) {
        assert ListSmallerAt(a[1..], b[1..], i - 1);
      }
    } else if ListLe(a, b) && a != b {
      assert ListSmallerAt(a, b, 0);
    }
  }

  /** a and b agree up to i, where a ends or has the smaller tag. */
  ghost predicate ListSmallerAt(a: seq<string>, b: seq<string>, i: nat) {
    && i <= |a| && i < |b| && (forall k :: 0 <= k < i ==> a[k] == b[k])
    && (i < |a| ==> Lt(a[i], b[i]))
  }

  /** An absent value comes before every other. */
  predicate Earlier(a: Option<nat>, b: Option<nat>) {
    b.Some? && (a.None? || a.value < b.value)
  }

  /**
   Field by field: an edge is listed before another if it has the smaller source, or
   that alike the smaller target, and so on through kind, field name, weight, validity
   and tags; absent values first.
   */
  ghost predicate ListedFirst(x: IndexedEdge, y: IndexedEdge) {
    || x.from < y.from
    || (x.from == y.from && (
      || x.to < y.to
      || (x.to == y.to && (
        || Lt(x.data.kind, y.data.kind)
        || (x.data.kind == y.data.kind && LateFields(x.data, y.data))))))
  }

  ghost predicate LateFields(d: EdgeData, e: EdgeData) {
    || (e.fieldName.Some? && (d.fieldName.None? || Lt(d.fieldName.value, e.fieldName.value)))
    || (d.fieldName == e.fieldName && (
      || d.baseWeight < e.baseWeight
      || (d.baseWeight == e.baseWeight && (
        || Earlier(d.validFrom, e.validFrom)
        || (d.validFrom == e.validFrom && (
          || Earlier(d.validTo, e.validTo)
          || (d.validTo == e.validTo && (
            || d.acl == e.acl
            || exists i: nat :: ListSmallerAt(d.acl, e.acl, i)))))))))
  }

  lemma FieldByField(x: IndexedEdge, y: IndexedEdge)
    ensures EdgeLe()(x, y) <==> ListedFirst(x, y)
  {
    StrictString(x.data.kind, y.data.kind);
    LateFieldByField(x, y);
    Splits(KindLe, Then(FieldLe, Then(WeightLe, LateKeys())), x, y, Lt(x.data.kind, y.data.kind), x.data.kind == y.data.kind);
    Splits(ToLe, MiddleKeys(), x, y, x.to < y.to, x.to == y.to);
    Splits(FromLe, Then(ToLe, MiddleKeys()), x, y, x.from < y.from, x.from == y.from);
  }

  lemma Splits<T>(a: (T, T) -> bool, b: (T, T) -> bool, x: T, y: T, lt: bool, eq: bool)
    requires lt == (a(x, y) && !a(y, x)) && eq == (a(x, y) && a(y, x))
    ensures Then(a, b)(x, y) == (lt || (eq && b(x, y)))
  {
  }

  lemma StrictString(a: string, b: string)
    ensures Lt(a, b) == (StringLe(a, b) && !StringLe(b, a))
    ensures (a == b) == (StringLe(a, b) && StringLe(b, a))
  {
    LtTotal(a, b);
    LtIrreflexive(a);
    LtAsymmetricBoth(a, b);
  }

  lemma LateFieldByField(x: IndexedEdge, y: IndexedEdge)
    ensures Then(FieldLe, Then(WeightLe, LateKeys()))(x, y) <==> LateFields(x.data, y.data)
  {
    var d, e := x.data, y.data;
    if d.fieldName.Some? && e.fieldName.Some? {
      StrictString(d.fieldName.value, e.fieldName.value);
    }
    ListLeIsLexicographic(d.acl, e.acl);
    Splits(ToTimeLe, AclLe, x, y, Earlier(d.validTo, e.validTo), d.validTo == e.validTo);
    Splits(FromTimeLe, Then(ToTimeLe, AclLe), x, y, Earlier(d.validFrom, e.validFrom), d.validFrom == e.validFrom);
    Splits(WeightLe, LateKeys(), x, y, d.baseWeight < e.baseWeight, d.baseWeight == e.baseWeight);
    Splits(FieldLe, Then(WeightLe, LateKeys()), x, y,
      e.fieldName.Some? && (d.fieldName.None? || Lt(d.fieldName.value, e.fieldName.value)), d.fieldName == e.fieldName);
  }

  /** A total order on whole edges, source first: edges that tie on every key are equal. */
  lemma EdgeLeIsTotal()
    ensures TotalPreorder(EdgeLe())
    ensures forall x, y :: EdgeLe()(x, y) ==> x.from <= y.from
    ensures forall x, y :: EdgeLe()(x, y) && EdgeLe()(y, x) ==> x == y
  {
    MiddleKeysTotal();
    ThenIsTotal(ToLe, MiddleKeys());
    ThenIsTotal(FromLe, Then(ToLe, MiddleKeys()));
  }
}
