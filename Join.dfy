/**
  The join: the `LUB` overrides and the n-ary fold `computeLUB`, as the
  code behaves. A State receiver throws; every other receiver answers,
  falling back to Any. The join is not symmetric: Nil's override lifts
  Nil into Id or Event, but Id's and Event's do not lift Nil; and a named
  tuple receiver always gives Any, because its field-name check compares
  two LINQ iterators by reference and never succeeds.
*/
module Join {
  import opened Wrappers
  import opened PTypes
  import opened Equality
  import opened Subtyping

  /** `a.LUB(b)`, dispatched on the receiver's class; Err where it throws. */
  function Lub(a: Type, b: Type): Result<Type, Failure>
  {
    match a
    case State => Err(StateInJoin)
    case Any => Ok(Any)
    case Nil => if b.Nil? || b.Id? || b.Event? then Ok(b) else Ok(Any)
    case Bool | Int | Id | Event(_) => if Equal(a, b) then Ok(a) else Ok(Any)
    case Tuple(es) =>
      if b.Tuple? && |b.elems| == |es| then
        if exists i :: 0 <= i < |es| && Lub(es[i], b.elems[i]).Err? then Err(StateInJoin)
        else Ok(Tuple(seq(|es|, i requires 0 <= i < |es| => Lub(es[i], b.elems[i]).value)))
      else Ok(Any)
    case NamedTuple(_) => Ok(Any)
    case Seq(e) =>
      if b.Seq? then
        match Lub(e, b.elem)
        case Ok(j) => Ok(Seq(j))
        case Err(f) => Err(f)
      else Ok(Any)
  }

  /** `Aggregate(seed, (acc, el) => acc.LUB(el))`: the left fold, stopping at the first throw. */
  function FoldLub(acc: Type, ts: seq<Type>): Result<Type, Failure>
    decreases ts
  {
    if ts == [] then Ok(acc)
    else
      match Lub(acc, ts[0])
      case Ok(next) => FoldLub(next, ts[1..])
      case Err(f) => Err(f)
  }

  /**
    `computeLUB(ts)`: Nil for no types, the one type for one, and otherwise
    the fold seeded with the first type and run over all of them, the
    first one included.
  */
  function ComputeLub(ts: seq<Type>): Result<Type, Failure>
  {
    if |ts| == 0 then Ok(Nil)
    else if |ts| == 1 then Ok(ts[0])
    else FoldLub(ts[0], ts)
  }

  /** Only a State receiver throws: a join whose left side holds no State always succeeds, whatever the right side is. */
  lemma {:induction false} LubFailsOnlyOnReceiverState(a: Type, b: Type)
    ensures Lub(a, b).Err? ==> ContainsState(a)
    decreases a
  {
    match a
    case Tuple(es) =>
      if b.Tuple? && |b.elems| == |es| && Lub(a, b).Err? {
        var i :| 0 <= i < |es| && Lub(es[i], b.elems[i]).Err?;
        LubFailsOnlyOnReceiverState(es[i], b.elems[i]);
      }
    case Seq(e) =>
      if b.Seq? {
        LubFailsOnlyOnReceiverState(e, b.elem);
      }
    case _ =>
  }

  /** A State argument is harmless: every receiver but State answers Any. */
  lemma LubWithStateArgument(a: Type)
    ensures Lub(a, State) == if a.State? then Err(StateInJoin) else Ok(Any)
  {
  }

  /** A named-tuple receiver yields Any whatever the argument, even an equal named tuple. */
  lemma NamedTupleJoinIsAny(fs: seq<Field>, b: Type)
    ensures Lub(NamedTuple(fs), b) == Ok(Any)
    ensures Lub(NamedTuple(fs), NamedTuple(fs)) != Ok(NamedTuple(fs))
  {
  }

  /**
    The join is not commutative at Nil: Nil's override lifts Nil into Id or
    Event, but Id's and Event's overrides answer Any.
  */
  lemma NilJoinNotCommutative(t: Type)
    requires t.Id? || t.Event?
    ensures Lub(Nil, t) == Ok(t)
    ensures Lub(t, Nil) == Ok(Any)
  {
    PrimitiveNameInjective(t, Nil);
  }

  /** A join never produces State, not even inside a compound type. */
  lemma {:induction false} LubResultHasNoState(a: Type, b: Type)
    requires Lub(a, b).Ok?
    ensures !ContainsState(Lub(a, b).value)
    decreases a
  {
    match a
    case Tuple(es) =>
      if b.Tuple? && |b.elems| == |es| {
        var r := Lub(a, b).value.elems;
        forall i | 0 <= i < |es| ensures !ContainsState(r[i]) {
          LubResultHasNoState(es[i], b.elems[i]);
        }
      }
    case Seq(e) =>
      if b.Seq? {
        LubResultHasNoState(e, b.elem);
      }
    case _ =>
  }

  /** Upper bound: when neither side holds State, the join succeeds and is a supertype of both sides. */
  lemma {:induction false} LubIsUpperBound(a: Type, b: Type)
    requires !ContainsState(a) && !ContainsState(b)
    ensures Lub(a, b).Ok?
    ensures IsSubtype(a, Lub(a, b).value) && IsSubtype(b, Lub(a, b).value)
    decreases a
  {
    LubFailsOnlyOnReceiverState(a, b);
    var j := Lub(a, b).value;
    SubtypeOfAnyIff(a);
    SubtypeOfAnyIff(b);
    match a
    case Nil =>
      SubtypeReflexive(b);
      NilSupertypesIff(b);
    case Bool | Int | Id | Event(_) =>
      if Equal(a, b) {
        SubtypeReflexive(a);
        EqualSymmetric(a, b);
        EqualImpliesSubtype(b, a);
      }
    case Any =>
    case NamedTuple(_) =>
    case Tuple(es) =>
      if b.Tuple? && |b.elems| == |es| {
        var fs := b.elems;
        forall i | 0 <= i < |es| ensures IsSubtype(es[i], j.elems[i]) && IsSubtype(fs[i], j.elems[i]) {
          assert !ContainsState(es[i]) && !ContainsState(fs[i]);
          LubIsUpperBound(es[i], fs[i]);
        }
        TupleSubtypeIff(es, j.elems);
        TupleSubtypeIff(fs, j.elems);
      }
    case Seq(e) =>
      if b.Seq? {
        LubIsUpperBound(e, b.elem);
        SeqSubtypeIff(e, j.elem);
        SeqSubtypeIff(b.elem, j.elem);
      }
  }

  /**
    Idempotence, as far as it goes: for a type without State, joining it
    with itself gives it back exactly when no named tuple occurs in it
    (each named tuple collapses to Any).
  */
  lemma {:induction false} LubSelfIff(a: Type)
    requires !ContainsState(a)
    ensures Lub(a, a) == Ok(a) <==> !ContainsNamedTuple(a)
    decreases a
  {
    LubFailsOnlyOnReceiverState(a, a);
    match a
    case Bool | Int | Id | Event(_) =>
      EqualReflexive(a);
    case Tuple(es) =>
      var j := Lub(a, a).value.elems;
      forall i | 0 <= i < |es| ensures j[i] == es[i] <==> !ContainsNamedTuple(es[i]) {
        LubSelfIff(es[i]);
      }
      if ContainsNamedTuple(a) {
        var i :| 0 <= i < |es| && ContainsNamedTuple(es[i]);
        assert j[i] != es[i];
      } else {
        assert j == es;
      }
    case Seq(e) =>
      LubSelfIff(e);
    case _ =>
  }

  /**
    Joining a type with itself first changes nothing for a later join:
    each named tuple has become Any, and a named-tuple receiver gives Any
    anyway.
  */
  lemma {:induction false} LubAfterSelfLub(a: Type, b: Type)
    requires !ContainsState(a)
    ensures Lub(a, a).Ok? && Lub(Lub(a, a).value, b) == Lub(a, b)
    decreases a
  {
    LubFailsOnlyOnReceiverState(a, a);
    var d := Lub(a, a).value;
    match a
    case Bool | Int | Id | Event(_) =>
      EqualReflexive(a);
    case Tuple(es) =>
      if b.Tuple? && |b.elems| == |es| {
        var fs := b.elems;
        forall i | 0 <= i < |es| ensures Lub(d.elems[i], fs[i]) == Lub(es[i], fs[i]) {
          LubAfterSelfLub(es[i], fs[i]);
        }
        if exists i :: 0 <= i < |es| && Lub(es[i], fs[i]).Err? {
          var i :| 0 <= i < |es| && Lub(es[i], fs[i]).Err?;
          assert Lub(d.elems[i], fs[i]).Err?;
        } else {
          assert Lub(d, b).value.elems == Lub(a, b).value.elems;
        }
      }
    case Seq(e) =>
      if b.Seq? {
        LubAfterSelfLub(e, b.elem);
      }
    case _ =>
  }

  /** The fold's result lies above its seed and above every folded type, when none holds State. */
  lemma {:induction false} FoldLubIsUpperBound(acc: Type, ts: seq<Type>)
    requires !ContainsState(acc)
    requires forall i :: 0 <= i < |ts| ==> !ContainsState(ts[i])
    ensures FoldLub(acc, ts).Ok?
    ensures IsSubtype(acc, FoldLub(acc, ts).value)
    ensures forall i :: 0 <= i < |ts| ==> IsSubtype(ts[i], FoldLub(acc, ts).value)
    decreases ts
  {
    if ts == [] {
      SubtypeReflexive(acc);
    } else {
      LubIsUpperBound(acc, ts[0]);
      var next := Lub(acc, ts[0]).value;
      LubResultHasNoState(acc, ts[0]);
      FoldLubIsUpperBound(next, ts[1..]);
      var r := FoldLub(acc, ts).value;
      SubtypeTransitive(acc, next, r);
      SubtypeTransitive(ts[0], next, r);
      forall i | 0 <= i < |ts| ensures IsSubtype(ts[i], r) {
        if i > 0 {
          assert ts[i] == ts[1..][i - 1];
        }
      }
    }
  }

  /** `computeLUB` yields a common supertype of all its inputs, when none holds State. */
  lemma ComputeLubIsUpperBound(ts: seq<Type>)
    requires forall i :: 0 <= i < |ts| ==> !ContainsState(ts[i])
    ensures ComputeLub(ts).Ok?
    ensures forall i :: 0 <= i < |ts| ==> IsSubtype(ts[i], ComputeLub(ts).value)
  {
    if |ts| == 1 {
      SubtypeReflexive(ts[0]);
    } else if |ts| > 1 {
      FoldLubIsUpperBound(ts[0], ts);
    }
  }

  /**
    Folding the first type in twice is harmless when it holds no State:
    the result is the fold seeded with the first type over the rest.
  */
  lemma ComputeLubSkipsFirstWhenStateFree(ts: seq<Type>)
    requires |ts| >= 2 && !ContainsState(ts[0])
    ensures ComputeLub(ts) == FoldLub(ts[0], ts[1..])
  {
    LubAfterSelfLub(ts[0], ts[1]);
    LubFailsOnlyOnReceiverState(ts[0], ts[0]);
    var d := Lub(ts[0], ts[0]).value;
    assert FoldLub(ts[0], ts) == FoldLub(d, ts[1..]);
    assert ts[1..][1..] == ts[2..];
  }

  /**
    Leastness: away from a named tuple in the receiver and a Nil in the
    argument, the join lies below every common supertype of its operands.
  */
  lemma {:induction false} LubIsLeast(a: Type, b: Type, c: Type)
    requires !ContainsState(a) && !ContainsState(b)
    requires !ContainsNamedTuple(a) && !ContainsNil(b)
    requires IsSubtype(a, c) && IsSubtype(b, c)
    ensures Lub(a, b).Ok? && IsSubtype(Lub(a, b).value, c)
    decreases a
  {
    LubFailsOnlyOnReceiverState(a, b);
    if c.Any? {
      LubResultHasNoState(a, b);
      SubtypeOfAnyIff(Lub(a, b).value);
    } else {
      match a
      case Nil =>
        NilSupertypesIff(c);
        if !(b.Nil? || b.Id? || b.Event?) {
          BelowNonAny(b, c);
        }
      case Bool | Int | Id | Event(_) =>
        PrimitiveSubtypeIff(a, c);
        if !Equal(a, b) {
          BelowNonAny(b, c);
          PrimitiveSubtypeIff(b, c);
          PrimitiveNameInjective(a, b);
        }
      case Any =>
        AnySupertypesIff(c);
      case Tuple(es) =>
        CompoundSubtypeSameVariant(a, c);
        var gs := c.elems;
        TupleSubtypeIff(es, gs);
        BelowNonAny(b, c);
        CompoundSubtypeSameVariant(b, c);
        TupleSubtypeIff(b.elems, gs);
        var r := Lub(a, b).value.elems;
        forall i | 0 <= i < |es| ensures IsSubtype(r[i], gs[i]) {
          LubIsLeast(es[i], b.elems[i], gs[i]);
        }
        TupleSubtypeIff(r, gs);
      case Seq(e) =>
        CompoundSubtypeSameVariant(a, c);
        SeqSubtypeIff(e, c.elem);
        BelowNonAny(b, c);
        CompoundSubtypeSameVariant(b, c);
        SeqSubtypeIff(b.elem, c.elem);
        LubIsLeast(e, b.elem, c.elem);
        SeqSubtypeIff(Lub(a, b).value.elem, c.elem);
      case _ =>
    }
  }

  /** Below a type that is neither Any nor Nil lies only a type of its own variant, or Nil. */
  lemma BelowNonAny(b: Type, c: Type)
    requires IsSubtype(b, c) && !c.Any? && !b.Nil?
    ensures IsPrimitive(b) == IsPrimitive(c)
    ensures c.Tuple? ==> b.Tuple?
    ensures c.Seq? ==> b.Seq?
  {
    if IsPrimitive(b) {
      PrimitiveSubtypeIff(b, c);
    } else if b.Any? {
      AnySupertypesIff(c);
    } else {
      CompoundSubtypeSameVariant(b, c);
    }
  }

  /** Not least at Nil: Id bounds Id and Nil, but `Id.LUB(Nil)` is Any, which Id does not bound. */
  lemma LubNotLeastAtNil()
    ensures IsSubtype(Id, Id) && IsSubtype(Nil, Id)
    ensures Lub(Id, Nil) == Ok(Any) && !IsSubtype(Any, Id)
  {
    SubtypeReflexive(Id);
    NilJoinNotCommutative(Id);
  }

  /** Not least at a named tuple: it bounds itself, but its join with itself is Any. */
  lemma NamedTupleSelfJoinNotLeast(fs: seq<Field>)
    ensures IsSubtype(NamedTuple(fs), NamedTuple(fs))
    ensures Lub(NamedTuple(fs), NamedTuple(fs)) == Ok(Any) && !IsSubtype(Any, NamedTuple(fs))
  {
    SubtypeReflexive(NamedTuple(fs));
    AnySupertypesIff(NamedTuple(fs));
  }

  /** Concrete joins: same-kind and mixed primitives, Nil lifting, State, sequences and named tuples. */
  lemma LubExamples()
    ensures Lub(Int, Int) == Ok(Int) && Lub(Int, Bool) == Ok(Any)
    ensures Lub(Nil, Id) == Ok(Id) && Lub(Id, Nil) == Ok(Any)
    ensures Lub(Nil, Event(None)) == Ok(Event(None)) && Lub(Event(None), Nil) == Ok(Any)
    ensures Lub(Seq(Int), Seq(Bool)) == Ok(Seq(Any))
    ensures Lub(State, Int).Err? && Lub(Int, State) == Ok(Any)
    ensures Lub(NamedTuple([("x", Int)]), NamedTuple([("x", Int)])) == Ok(Any)
  {
    EqualReflexive(Int);
    PrimitiveNameInjective(Int, Bool);
    NilJoinNotCommutative(Id);
    NilJoinNotCommutative(Event(None));
    NamedTupleJoinIsAny([("x", Int)], NamedTuple([("x", Int)]));
  }

  /** Tuples of the same arity join pointwise. */
  lemma LubTupleExample()
    ensures Lub(Tuple([Int, Nil]), Tuple([Bool, Id])) == Ok(Tuple([Any, Id]))
  {
    PrimitiveNameInjective(Int, Bool);
    var es, fs := [Int, Nil], [Bool, Id];
    assert Lub(es[0], fs[0]) == Ok(Any) && Lub(es[1], fs[1]) == Ok(Id);
    assert seq(2, i requires 0 <= i < 2 => Lub(es[i], fs[i]).value) == [Any, Id];
  }

  /** The n-ary join on small lists, and where the doubled first type throws. */
  lemma ComputeLubExamples()
    ensures ComputeLub([]) == Ok(Nil) && ComputeLub([Int]) == Ok(Int)
    ensures ComputeLub([Int, Bool, Int]) == Ok(Any)
    ensures ComputeLub([Tuple([State]), Int]).Err?
    ensures FoldLub(Tuple([State]), [Int]) == Ok(Any)
  {
    EqualReflexive(Int);
    PrimitiveNameInjective(Int, Bool);
    assert Lub([State][0], [State][0]).Err?;
  }
}
