/**
  The type universe of the P compiler's type checker: the closed set of
  type shapes (PType and its ten concrete subclasses) as one datatype,
  the registered primitive names, and the structural predicates that the
  other modules state their laws with.
*/
module PTypes {
  import opened Wrappers

  /** A named-tuple field: its name and its type (C# `Tuple<string, PType>`). */
  type Field = (string, Type)

  datatype Type =
    | Nil
    | Bool
    | Int
    | Id
      /** `evtName` is informational: equality, hashing, subtyping and display never read it. */
    | Event(evtName: Option<string>)
    | State
    | Any
    | Tuple(elems: seq<Type>)
      /** Built through NamedTuples.MakeNamedTuple, which stores the fields sorted by name. */
    | NamedTuple(fields: seq<Field>)
    | Seq(elem: Type)

  /** The places where the source throws. */
  datatype Failure =
    | UnknownPrimitive(name: string)  // primtiveTypeFromName on an unregistered name
    | StateInJoin                     // PStateType.LUB
    | EmptyNamedTupleDisplay          // PNamedTupleType.ToString on no fields

  // The registered names of the primitives. In the compiler they are the
  // names of external constants. Most laws need only that they are
  // distinct; the example lemmas use these spellings, and the failing
  // registry lookups need that none is "any" or starts with "(" or "seq[".
  const NilName: string := "nil"
  const BoolName: string := "bool"
  const IntName: string := "int"
  const IdName: string := "id"
  const EventName: string := "event"
  const StateName: string := "state"

  /** The subclasses of PPrimitiveType (Any is not one of them). */
  predicate IsPrimitive(t: Type)
  {
    t.Nil? || t.Bool? || t.Int? || t.Id? || t.Event? || t.State?
  }

  /** The name a primitive is constructed with (`pDataName`). */
  function PrimitiveName(t: Type): string
    requires IsPrimitive(t)
  {
    match t
    case Nil => NilName
    case Bool => BoolName
    case Int => IntName
    case Id => IdName
    case Event(_) => EventName
    case State => StateName
  }

  /** The type with every Event refinement dropped: what equality looks at. */
  function Erase(t: Type): Type
  {
    match t
    case Event(_) => Event(None)
    case Tuple(es) => Tuple(seq(|es|, i requires 0 <= i < |es| => Erase(es[i])))
    case NamedTuple(fs) => NamedTuple(seq(|fs|, i requires 0 <= i < |fs| => (fs[i].0, Erase(fs[i].1))))
    case Seq(e) => Seq(Erase(e))
    case _ => t
  }

  /** Whether State occurs anywhere in `t`. */
  predicate ContainsState(t: Type)
  {
    match t
    case State => true
    case Tuple(es) => exists i :: 0 <= i < |es| && ContainsState(es[i])
    case NamedTuple(fs) => exists i :: 0 <= i < |fs| && ContainsState(fs[i].1)
    case Seq(e) => ContainsState(e)
    case _ => false
  }

  /** Whether Nil occurs anywhere in `t`, `t` itself included. */
  predicate ContainsNil(t: Type)
  {
    match t
    case Nil => true
    case Tuple(es) => exists i :: 0 <= i < |es| && ContainsNil(es[i])
    case NamedTuple(fs) => exists i :: 0 <= i < |fs| && ContainsNil(fs[i].1)
    case Seq(e) => ContainsNil(e)
    case _ => false
  }

  /** Whether a named tuple occurs anywhere in `t`, `t` itself included. */
  predicate ContainsNamedTuple(t: Type)
  {
    match t
    case NamedTuple(_) => true
    case Tuple(es) => exists i :: 0 <= i < |es| && ContainsNamedTuple(es[i])
    case Seq(e) => ContainsNamedTuple(e)
    case _ => false
  }

  /**
    Two primitives have the same registered name exactly when they are the
    same kind of primitive; an Event's refinement plays no part.
  */
  lemma PrimitiveNameInjective(a: Type, b: Type)
    requires IsPrimitive(a) && IsPrimitive(b)
    ensures PrimitiveName(a) == PrimitiveName(b) <==> Erase(a) == Erase(b)
  {
    PrimitiveNamesDistinct();
  }

  /** The six registered primitive names are pairwise distinct. */
  lemma PrimitiveNamesDistinct()
    ensures |{NilName, BoolName, IntName, IdName, EventName, StateName}| == 6
  {
    assert NilName[0] == 'n' && BoolName[0] == 'b' && IntName[0] == 'i' && IdName[0] == 'i';
    assert EventName[0] == 'e' && StateName[0] == 's' && IntName[1] != IdName[1];
  }
}
