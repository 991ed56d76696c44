/**
  Construction of named tuples: the `PNamedTupleType` constructor copies
  the fields and sorts them by name, so that the order in which a program
  declares them does not matter. Names are ordered ordinally (by
  character codes, a proper prefix first).
*/
module NamedTuples {
  import opened PTypes

  /** Ordinal order on names. */
  predicate NameLeq(a: string, b: string)
  {
    |a| == 0 || (|b| > 0 && (a[0] < b[0] || (a[0] == b[0] && NameLeq(a[1..], b[1..]))))
  }

  lemma {:induction false} NameLeqTotal(a: string, b: string)
    ensures NameLeq(a, b) || NameLeq(b, a)
  {
    if |a| > 0 && |b| > 0 && a[0] == b[0] {
      NameLeqTotal(a[1..], b[1..]);
    }
  }

  lemma {:induction false} NameLeqAntisymmetric(a: string, b: string)
    requires NameLeq(a, b) && NameLeq(b, a)
    ensures a == b
  {
    if |a| > 0 {
      NameLeqAntisymmetric(a[1..], b[1..]);
      assert a == [a[0]] + a[1..] && b == [b[0]] + b[1..];
    }
  }

  lemma {:induction false} NameLeqTransitive(a: string, b: string, c: string)
    requires NameLeq(a, b) && NameLeq(b, c)
    ensures NameLeq(a, c)
  {
    if |a| > 0 && a[0] == b[0] && b[0] == c[0] {
      NameLeqTransitive(a[1..], b[1..], c[1..]);
    }
  }

  predicate SortedByName(fs: seq<Field>)
  {
    forall i, j :: 0 <= i < j < |fs| ==> NameLeq(fs[i].0, fs[j].0)
  }

  /** No two fields share a name. */
  predicate UniqueNames(fs: seq<Field>)
  {
    forall i, j :: 0 <= i < j < |fs| ==> fs[i].0 != fs[j].0
  }

  /** Within the collection, a name determines the field. */
  predicate KeyedByName(m: multiset<Field>)
  {
    forall x, y :: x in m && y in m && x.0 == y.0 ==> x == y
  }

  /** Put `f` into place in a list sorted by name. */
  function Insert(f: Field, fs: seq<Field>): (r: seq<Field>)
    ensures multiset(r) == multiset(fs) + multiset{f}
    ensures SortedByName(fs) ==> SortedByName(r)
  {
    if fs == [] then [f]
    else if NameLeq(f.0, fs[0].0) then
      assert SortedByName(fs) ==> forall k :: 0 <= k < |fs| ==> NameLeq(f.0, fs[k].0) by {
        if SortedByName(fs) {
          forall k | 0 < k < |fs| ensures NameLeq(f.0, fs[k].0) {
            NameLeqTransitive(f.0, fs[0].0, fs[k].0);
          }
        }
      }
      [f] + fs
    else
      var rest := Insert(f, fs[1..]);
      assert fs == [fs[0]] + fs[1..];
      assert SortedByName(fs) ==> SortedByName([fs[0]] + rest) by {
        if SortedByName(fs) {
          NameLeqTotal(f.0, fs[0].0);
          forall k | 0 <= k < |rest| ensures NameLeq(fs[0].0, rest[k].0) {
            assert rest[k] in multiset(rest);
            if rest[k] != f {
              assert rest[k] in multiset(fs[1..]);
              var m :| 0 <= m < |fs[1..]| && fs[1..][m] == rest[k];
              assert fs[m + 1] == rest[k];
            }
          }
        }
      }
      [fs[0]] + rest
  }

  /** The fields in name order: `els.Sort(...)` with the name comparison. */
  function SortFields(fs: seq<Field>): (r: seq<Field>)
    ensures SortedByName(r) && multiset(r) == multiset(fs)
  {
    if fs == [] then []
    else
      assert fs == [fs[0]] + fs[1..];
      Insert(fs[0], SortFields(fs[1..]))
  }

  /** `new PNamedTupleType(els)`: the fields stored sorted by name. */
  function MakeNamedTuple(fields: seq<Field>): (t: Type)
    ensures t.NamedTuple? && SortedByName(t.fields) && multiset(t.fields) == multiset(fields)
  {
    NamedTuple(SortFields(fields))
  }

  /** Two name-sorted arrangements of the same name-keyed fields start with the same field. */
  lemma SortedHeadsAgree(s1: seq<Field>, s2: seq<Field>)
    requires |s1| > 0 && |s2| > 0 && SortedByName(s1) && SortedByName(s2)
    requires multiset(s1) == multiset(s2) && KeyedByName(multiset(s1))
    ensures s1[0] == s2[0]
  {
    assert s1[0] in multiset(s2);
    var k :| 0 <= k < |s2| && s2[k] == s1[0];
    assert s2[0] in multiset(s1);
    var m :| 0 <= m < |s1| && s1[m] == s2[0];
    if m > 0 && k > 0 {
      assert NameLeq(s1[0].0, s2[0].0) && NameLeq(s2[0].0, s1[0].0);
      NameLeqAntisymmetric(s1[0].0, s2[0].0);
    }
  }

  /** Dropping the first field keeps a list sorted and takes that field out of its multiset. */
  lemma SortedTail(s: seq<Field>)
    requires |s| > 0 && SortedByName(s)
    ensures SortedByName(s[1..])
    ensures multiset(s[1..]) == multiset(s) - multiset{s[0]}
  {
    assert s == [s[0]] + s[1..];
  }

  lemma KeyedByNameSub(m1: multiset<Field>, m2: multiset<Field>)
    requires m1 <= m2 && KeyedByName(m2)
    ensures KeyedByName(m1)
  {
  }

  /** With names unique, being sorted by name and holding given fields fixes the order. */
  lemma {:induction false} SortedArrangementUnique(s1: seq<Field>, s2: seq<Field>)
    requires SortedByName(s1) && SortedByName(s2)
    requires multiset(s1) == multiset(s2) && KeyedByName(multiset(s1))
    ensures s1 == s2
    decreases |s1|
  {
    if s1 == [] {
      assert |multiset(s2)| == 0;
    } else {
      assert |s2| > 0 && s1[0] == s2[0] by {
        assert |s2| == |multiset(s2)| == |multiset(s1)| == |s1|;
        SortedHeadsAgree(s1, s2);
      }
      assert s1[1..] == s2[1..] by {
        SortedTail(s1);
        SortedTail(s2);
        KeyedByNameSub(multiset(s1[1..]), multiset(s1));
        SortedArrangementUnique(s1[1..], s2[1..]);
      }
      assert s1 == [s1[0]] + s1[1..] && s2 == [s2[0]] + s2[1..];
    }
  }

  lemma UniqueNamesKeyed(fs: seq<Field>)
    requires UniqueNames(fs)
    ensures KeyedByName(multiset(fs))
  {
    forall x: Field, y: Field | x in multiset(fs) && y in multiset(fs) && x.0 == y.0 ensures x == y {
      var i :| 0 <= i < |fs| && fs[i] == x;
      var j :| 0 <= j < |fs| && fs[j] == y;
      assert !(i < j) && !(j < i);
    }
  }

  /**
    Canonical form: two declarations of the same fields, in any order and
    with no name repeated, build the same named tuple with the same stored
    order.
  */
  lemma DeclarationOrderIrrelevant(f1: seq<Field>, f2: seq<Field>)
    requires UniqueNames(f1) && multiset(f1) == multiset(f2)
    ensures MakeNamedTuple(f1) == MakeNamedTuple(f2)
  {
    UniqueNamesKeyed(f1);
    SortedArrangementUnique(MakeNamedTuple(f1).fields, MakeNamedTuple(f2).fields);
  }

  /** Fields declared already in name order, with no name repeated, are stored as declared. */
  lemma SortedDeclarationKept(fs: seq<Field>)
    requires UniqueNames(fs) && SortedByName(fs)
    ensures MakeNamedTuple(fs) == NamedTuple(fs)
  {
    UniqueNamesKeyed(fs);
    SortedArrangementUnique(MakeNamedTuple(fs).fields, fs);
  }

  /** Declaration order does not matter: (b: int, a: bool) and (a: bool, b: int) are one type, stored as (a: bool, b: int). */
  lemma CanonicalExample()
    ensures MakeNamedTuple([("b", Int), ("a", Bool)]) == MakeNamedTuple([("a", Bool), ("b", Int)])
    ensures MakeNamedTuple([("b", Int), ("a", Bool)]) == NamedTuple([("a", Bool), ("b", Int)])
  {
    var f1, f2 := [("b", Int), ("a", Bool)], [("a", Bool), ("b", Int)];
    assert f1[0].0 != f1[1].0 by { assert f1[0].0[0] != f1[1].0[0]; }
    assert multiset(f1) == multiset(f2);
    DeclarationOrderIrrelevant(f1, f2);
    assert NameLeq(f2[0].0, f2[1].0);
    SortedDeclarationKept(f2);
  }
}
