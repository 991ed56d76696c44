/**
  The subtyping relation: the `isSubtypeOf` overrides and `realtive`.
  Every override accepts an equal type first; Any is the top for all but
  State, Nil also sits below Id and Event, and compound types are
  covariant in their parts.
*/
module Subtyping {
  import opened Wrappers
  import opened PTypes
  import opened Equality

  /** `a.isSubtypeOf(b)`, dispatched on the receiver's class. */
  predicate IsSubtype(a: Type, b: Type)
  {
    match a
    case Nil => Equal(a, b) || b.Any? || b.Id? || b.Event?
    case State => Equal(a, b)
    case Bool | Int | Id | Event(_) => Equal(a, b) || b.Any?
    case Any => b.Any?
    case Tuple(es) =>
      b.Any? || Equal(a, b) ||
      (b.Tuple? && |es| == |b.elems| &&
       forall i :: 0 <= i < |es| ==> IsSubtype(es[i], b.elems[i]))
    case NamedTuple(fs) =>
      b.Any? || Equal(a, b) ||
      (b.NamedTuple? && |fs| == |b.fields| &&
       forall i :: 0 <= i < |fs| ==> fs[i].0 == b.fields[i].0 && IsSubtype(fs[i].1, b.fields[i].1))
    case Seq(e) => b.Any? || Equal(a, b) || (b.Seq? && IsSubtype(e, b.elem))
  }

  /**
    The test as the source runs it: equality first, then, for tuples and
    named tuples, an index loop that returns false at the first field
    that is not a subtype.
  */
  method IsSubtypeOf(a: Type, b: Type) returns (r: bool)
    ensures r == IsSubtype(a, b)
    decreases a
  {
    match a
    case Nil =>
      r := Equals(a, b);
      r := r || b.Any? || b.Id? || b.Event?;
    case State =>
      r := Equals(a, b);
    case Bool | Int | Id | Event(_) =>
      r := Equals(a, b);
      r := r || b.Any?;
    case Any =>
      r := b.Any?;
    case Tuple(es) =>
      if b.Any? {
        return true;
      }
      var same := Equals(a, b);
      if same {
        return true;
      }
      if !b.Tuple? || |es| != |b.elems| {
        return false;
      }
      var i := 0;
      while i < |es|
        invariant 0 <= i <= |es|
        invariant forall k :: 0 <= k < i ==> IsSubtype(es[k], b.elems[k])
      {
        var sub := IsSubtypeOf(es[i], b.elems[i]);
        if !sub {
          return false;
        }
        i := i + 1;
      }
      r := true;
    case NamedTuple(fs) =>
      if b.Any? {
        return true;
      }
      var same := Equals(a, b);
      if same {
        return true;
      }
      if !b.NamedTuple? || |fs| != |b.fields| {
        return false;
      }
      var i := 0;
      while i < |fs|
        invariant 0 <= i <= |fs|
        invariant forall k :: 0 <= k < i ==> fs[k].0 == b.fields[k].0 && IsSubtype(fs[k].1, b.fields[k].1)
      {
        if fs[i].0 != b.fields[i].0 {
          return false;
        }
        var sub := IsSubtypeOf(fs[i].1, b.fields[i].1);
        if !sub {
          return false;
        }
        i := i + 1;
      }
      r := true;
    case Seq(e) =>
      if b.Any? {
        return true;
      }
      var same := Equals(a, b);
      if same {
        return true;
      }
      if !b.Seq? {
        return false;
      }
      r := IsSubtypeOf(e, b.elem);
  }

  /** `a.realtive(b)`: the two types are comparable. */
  predicate Related(a: Type, b: Type)
  {
    Equal(a, b) || IsSubtype(a, b) || IsSubtype(b, a)
  }

  /** Equal types are subtypes of each other. */
  lemma EqualImpliesSubtype(a: Type, b: Type)
    requires Equal(a, b)
    ensures IsSubtype(a, b)
  {
    EqualSameVariant(a, b);
  }

  /** Subtyping is reflexive for every type, State and named tuples included. */
  lemma SubtypeReflexive(t: Type)
    ensures IsSubtype(t, t)
  {
    EqualReflexive(t);
    EqualImpliesSubtype(t, t);
  }

  /** The table of primitive subtyping: only equals, Any (not for State), and Id and Event above Nil. */
  lemma PrimitiveSubtypeIff(a: Type, b: Type)
    requires IsPrimitive(a)
    ensures IsSubtype(a, b) <==>
      Erase(b) == Erase(a) ||
      (b.Any? && !a.State?) ||
      (a.Nil? && (b.Id? || b.Event?))
  {
    EqualIffErasedSame(a, b);
  }

  /** Every type except State is a subtype of Any. */
  lemma SubtypeOfAnyIff(t: Type)
    ensures IsSubtype(t, Any) <==> !t.State?
  {
  }

  /** Any's only supertype is Any. */
  lemma AnySupertypesIff(t: Type)
    ensures IsSubtype(Any, t) <==> t.Any?
  {
  }

  /** State's only supertype is State. */
  lemma StateSupertypesIff(t: Type)
    ensures IsSubtype(State, t) <==> t.State?
  {
    PrimitiveSubtypeIff(State, t);
  }

  /** Nil is below itself, Id, Event and Any, and nothing else. */
  lemma NilSupertypesIff(t: Type)
    ensures IsSubtype(Nil, t) <==> t.Nil? || t.Id? || t.Event? || t.Any?
  {
    PrimitiveSubtypeIff(Nil, t);
  }

  /** Tuples: same arity and pointwise subtypes. */
  lemma TupleSubtypeIff(es: seq<Type>, fs: seq<Type>)
    ensures IsSubtype(Tuple(es), Tuple(fs)) <==>
      |es| == |fs| && forall i :: 0 <= i < |es| ==> IsSubtype(es[i], fs[i])
  {
    if Equal(Tuple(es), Tuple(fs)) {
      forall i | 0 <= i < |es| ensures IsSubtype(es[i], fs[i]) {
        EqualImpliesSubtype(es[i], fs[i]);
      }
    }
  }

  /** Named tuples: same count, same name at each sorted position, pointwise subtypes. */
  lemma NamedTupleSubtypeIff(fs: seq<Field>, gs: seq<Field>)
    ensures IsSubtype(NamedTuple(fs), NamedTuple(gs)) <==>
      |fs| == |gs| && forall i :: 0 <= i < |fs| ==> fs[i].0 == gs[i].0 && IsSubtype(fs[i].1, gs[i].1)
  {
    if Equal(NamedTuple(fs), NamedTuple(gs)) {
      forall i | 0 <= i < |fs| ensures fs[i].0 == gs[i].0 && IsSubtype(fs[i].1, gs[i].1) {
        EqualImpliesSubtype(fs[i].1, gs[i].1);
      }
    }
  }

  /** Sequences are covariant. */
  lemma SeqSubtypeIff(e: Type, f: Type)
    ensures IsSubtype(Seq(e), Seq(f)) <==> IsSubtype(e, f)
  {
    if Equal(Seq(e), Seq(f)) {
      EqualImpliesSubtype(e, f);
    }
  }

  /** A compound type is below only Any and types of its own variant. */
  lemma CompoundSubtypeSameVariant(a: Type, b: Type)
    requires a.Tuple? || a.NamedTuple? || a.Seq?
    requires IsSubtype(a, b)
    ensures b.Any? || (a.Tuple? && b.Tuple?) || (a.NamedTuple? && b.NamedTuple?) || (a.Seq? && b.Seq?)
  {
    if Equal(a, b) {
      EqualSameVariant(a, b);
    }
  }

  lemma {:induction false} SubtypeTransitive(a: Type, b: Type, c: Type)
    requires IsSubtype(a, b) && IsSubtype(b, c)
    ensures IsSubtype(a, c)
    decreases a
  {
    if IsPrimitive(a) {
      PrimitiveSubtypeIff(a, b);
      PrimitiveSubtypeIff(a, c);
      if IsPrimitive(b) {
        PrimitiveSubtypeIff(b, c);
      } else {
        assert b.Any?;
      }
    } else if a.Any? || b.Any? {
      assert c.Any?;
    } else {
      CompoundSubtypeSameVariant(a, b);
      CompoundSubtypeSameVariant(b, c);
      if c.Any? {
      } else if a.Tuple? {
        var es, fs, gs := a.elems, b.elems, c.elems;
        TupleSubtypeIff(es, fs);
        TupleSubtypeIff(fs, gs);
        forall i | 0 <= i < |es| ensures IsSubtype(es[i], gs[i]) {
          SubtypeTransitive(es[i], fs[i], gs[i]);
        }
        TupleSubtypeIff(es, gs);
      } else if a.NamedTuple? {
        var fs, gs, hs := a.fields, b.fields, c.fields;
        NamedTupleSubtypeIff(fs, gs);
        NamedTupleSubtypeIff(gs, hs);
        forall i | 0 <= i < |fs| ensures fs[i].0 == hs[i].0 && IsSubtype(fs[i].1, hs[i].1) {
          SubtypeTransitive(fs[i].1, gs[i].1, hs[i].1);
        }
        NamedTupleSubtypeIff(fs, hs);
      } else {
        SeqSubtypeIff(a.elem, b.elem);
        SeqSubtypeIff(b.elem, c.elem);
        SubtypeTransitive(a.elem, b.elem, c.elem);
        SeqSubtypeIff(a.elem, c.elem);
      }
    }
  }

  /** Two types that are subtypes of each other are equal. */
  lemma {:induction false} SubtypeAntisymmetric(a: Type, b: Type)
    requires IsSubtype(a, b) && IsSubtype(b, a)
    ensures Equal(a, b)
    decreases a
  {
    if IsPrimitive(a) {
      PrimitiveSubtypeIff(a, b);
      EqualIffErasedSame(a, b);
      if IsPrimitive(b) {
        PrimitiveSubtypeIff(b, a);
      }
    } else if a.Any? || b.Any? {
    } else {
      CompoundSubtypeSameVariant(a, b);
      if a.Tuple? {
        var es, fs := a.elems, b.elems;
        TupleSubtypeIff(es, fs);
        TupleSubtypeIff(fs, es);
        forall i | 0 <= i < |es| ensures Equal(es[i], fs[i]) {
          SubtypeAntisymmetric(es[i], fs[i]);
        }
      } else if a.NamedTuple? {
        var fs, gs := a.fields, b.fields;
        NamedTupleSubtypeIff(fs, gs);
        NamedTupleSubtypeIff(gs, fs);
        forall i | 0 <= i < |fs| ensures Equal(fs[i].1, gs[i].1) {
          SubtypeAntisymmetric(fs[i].1, gs[i].1);
        }
      } else {
        SeqSubtypeIff(a.elem, b.elem);
        SeqSubtypeIff(b.elem, a.elem);
        SubtypeAntisymmetric(a.elem, b.elem);
      }
    }
  }

  /** `realtive` is the symmetric closure of subtyping; its equality test adds nothing. */
  lemma RelatedIff(a: Type, b: Type)
    ensures Related(a, b) <==> IsSubtype(a, b) || IsSubtype(b, a)
    ensures Related(a, b) <==> Related(b, a)
  {
    if Equal(a, b) {
      EqualImpliesSubtype(a, b);
    }
    if Equal(b, a) {
      EqualImpliesSubtype(b, a);
    }
  }

  /** Every type but State is comparable with Any. */
  lemma RelatedToAnyIff(t: Type)
    ensures Related(t, Any) <==> !t.State?
  {
    RelatedIff(t, Any);
  }

  /** Concrete cases of the relation. */
  lemma SubtypeExamples()
    ensures IsSubtype(Nil, Id) && IsSubtype(Nil, Event(None))
    ensures IsSubtype(Tuple([Int, Bool]), Tuple([Any, Any]))
    ensures !IsSubtype(Tuple([Int, Bool]), Tuple([Int, Bool, Int]))
    ensures !IsSubtype(State, Any) && !IsSubtype(Id, Nil)
  {
    assert IsSubtype([Int, Bool][1], [Any, Any][1]);
  }
}
