/**
  Structural equality of types: `PType.operator ==` and the `Equals`
  overrides. Primitives compare by registered name only, Any equals Any,
  and compound types need the same shape with pointwise equal parts
  (named-tuple fields compare name and type, position by position).
*/
module Equality {
  import opened Wrappers
  import opened PTypes

  /** `a.Equals(b)`, dispatched on the receiver's class. */
  predicate Equal(a: Type, b: Type)
  {
    match a
    case Nil | Bool | Int | Id | Event(_) | State =>
      IsPrimitive(b) && PrimitiveName(b) == PrimitiveName(a)
    case Any => b.Any?
    case Tuple(es) =>
      b.Tuple? && |es| == |b.elems| &&
      forall i :: 0 <= i < |es| ==> Equal(es[i], b.elems[i])
    case NamedTuple(fs) =>
      b.NamedTuple? && |fs| == |b.fields| &&
      forall i :: 0 <= i < |fs| ==> fs[i].0 == b.fields[i].0 && Equal(fs[i].1, b.fields[i].1)
    case Seq(e) => b.Seq? && Equal(e, b.elem)
  }

  /**
    The comparison as the source runs it: the tuple and named-tuple
    overrides walk the elements by index and return false at the first
    mismatch.
  */
  method Equals(a: Type, b: Type) returns (r: bool)
    ensures r == Equal(a, b)
    decreases a
  {
    match a
    case Nil | Bool | Int | Id | Event(_) | State =>
      r := IsPrimitive(b) && PrimitiveName(b) == PrimitiveName(a);
    case Any =>
      r := b.Any?;
    case Tuple(es) =>
      if !b.Tuple? || |es| != |b.elems| {
        return false;
      }
      var i := 0;
      while i < |es|
        invariant 0 <= i <= |es|
        invariant forall k :: 0 <= k < i ==> Equal(es[k], b.elems[k])
      {
        var same := Equals(es[i], b.elems[i]);
        if !same {
          return false;
        }
        i := i + 1;
      }
      r := true;
    case NamedTuple(fs) =>
      if !b.NamedTuple? || |fs| != |b.fields| {
        return false;
      }
      var i := 0;
      while i < |fs|
        invariant 0 <= i <= |fs|
        invariant forall k :: 0 <= k < i ==> fs[k].0 == b.fields[k].0 && Equal(fs[k].1, b.fields[k].1)
      {
        if fs[i].0 != b.fields[i].0 {
          return false;
        }
        var same := Equals(fs[i].1, b.fields[i].1);
        if !same {
          return false;
        }
        i := i + 1;
      }
      r := true;
    case Seq(e) =>
      if !b.Seq? {
        return false;
      }
      r := Equals(e, b.elem);
  }

  /** Structural equality is exactly equality once Event refinements are dropped. */
  lemma {:induction false} EqualIffErasedSame(a: Type, b: Type)
    ensures Equal(a, b) <==> Erase(a) == Erase(b)
    decreases a
  {
    match a
    case Nil | Bool | Int | Id | Event(_) | State =>
      if IsPrimitive(b) {
        PrimitiveNameInjective(a, b);
      }
    case Any =>
    case Tuple(es) =>
      if b.Tuple? && |es| == |b.elems| {
        forall i | 0 <= i < |es|
          ensures Equal(es[i], b.elems[i]) <==> Erase(es[i]) == Erase(b.elems[i])
        {
          EqualIffErasedSame(es[i], b.elems[i]);
        }
        TupleEqualIffErasedSame(es, b.elems);
      } else if b.Tuple? {
        assert |Erase(a).elems| != |Erase(b).elems|;
      }
    case NamedTuple(fs) =>
      if b.NamedTuple? && |fs| == |b.fields| {
        forall i | 0 <= i < |fs|
          ensures Equal(fs[i].1, b.fields[i].1) <==> Erase(fs[i].1) == Erase(b.fields[i].1)
        {
          EqualIffErasedSame(fs[i].1, b.fields[i].1);
        }
        NamedTupleEqualIffErasedSame(fs, b.fields);
      } else if b.NamedTuple? {
        assert |Erase(a).fields| != |Erase(b).fields|;
      }
    case Seq(e) =>
      if b.Seq? {
        EqualIffErasedSame(e, b.elem);
      }
  }

  lemma TupleEqualIffErasedSame(es: seq<Type>, fs: seq<Type>)
    requires |es| == |fs|
    requires forall i :: 0 <= i < |es| ==> (Equal(es[i], fs[i]) <==> Erase(es[i]) == Erase(fs[i]))
    ensures Equal(Tuple(es), Tuple(fs)) <==> Erase(Tuple(es)) == Erase(Tuple(fs))
  {
    var ea, eb := Erase(Tuple(es)).elems, Erase(Tuple(fs)).elems;
    if Equal(Tuple(es), Tuple(fs)) {
      assert ea == eb;
    }
    if ea == eb {
      forall i | 0 <= i < |es| ensures Equal(es[i], fs[i]) {
        assert ea[i] == eb[i];
      }
    }
  }

  lemma NamedTupleEqualIffErasedSame(fs: seq<Field>, gs: seq<Field>)
    requires |fs| == |gs|
    requires forall i :: 0 <= i < |fs| ==> (Equal(fs[i].1, gs[i].1) <==> Erase(fs[i].1) == Erase(gs[i].1))
    ensures Equal(NamedTuple(fs), NamedTuple(gs)) <==> Erase(NamedTuple(fs)) == Erase(NamedTuple(gs))
  {
    var ea, eb := Erase(NamedTuple(fs)).fields, Erase(NamedTuple(gs)).fields;
    if Equal(NamedTuple(fs), NamedTuple(gs)) {
      assert ea == eb;
    }
    if ea == eb {
      forall i | 0 <= i < |fs| ensures fs[i].0 == gs[i].0 && Equal(fs[i].1, gs[i].1) {
        assert ea[i] == eb[i];
      }
    }
  }

  /** Every type equals itself (`t == t` holds for every constructed type). */
  lemma EqualReflexive(a: Type)
    ensures Equal(a, a)
  {
    EqualIffErasedSame(a, a);
  }

  lemma EqualSymmetric(a: Type, b: Type)
    ensures Equal(a, b) <==> Equal(b, a)
  {
    EqualIffErasedSame(a, b);
    EqualIffErasedSame(b, a);
  }

  lemma EqualTransitive(a: Type, b: Type, c: Type)
    requires Equal(a, b) && Equal(b, c)
    ensures Equal(a, c)
  {
    EqualIffErasedSame(a, b);
    EqualIffErasedSame(b, c);
    EqualIffErasedSame(a, c);
  }

  /** Equal types have the same shape: equality never relates two different variants. */
  lemma EqualSameVariant(a: Type, b: Type)
    requires Equal(a, b)
    ensures a.Nil? == b.Nil? && a.Bool? == b.Bool? && a.Int? == b.Int? && a.Id? == b.Id?
    ensures a.Event? == b.Event? && a.State? == b.State? && a.Any? == b.Any?
    ensures a.Tuple? == b.Tuple? && a.NamedTuple? == b.NamedTuple? && a.Seq? == b.Seq?
  {
    EqualIffErasedSame(a, b);
  }

  /** Events are equal whatever their refinements: `evtName` is ignored. */
  lemma EventRefinementIgnored(x: Option<string>, y: Option<string>)
    ensures Equal(Event(x), Event(y))
  {
    EqualIffErasedSame(Event(x), Event(y));
  }
}
