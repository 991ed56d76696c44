/**
  Hash codes of types: the `GetHashCode` overrides. C# `int` arithmetic is
  unchecked, so a product keeps its low 32 bits: exactly `bv32`
  multiplication. `string.GetHashCode` is not part of this model and is
  the parameter `strHash`.
*/
module Hashing {
  import opened PTypes
  import opened Equality

  const NilHash: bv32 := 2
  const IntHash: bv32 := 3
  const BoolHash: bv32 := 5
  const IdHash: bv32 := 7
  const EventHash: bv32 := 11
  const StateHash: bv32 := 13
  const AnyHash: bv32 := 17
  const TupleHash: bv32 := 19
  const NamedTupleHash: bv32 := 23
  const SeqHash: bv32 := 29

  /** C# unchecked `int` multiplication: the low 32 bits of the product. */
  function Mul(x: bv32, y: bv32): bv32
  {
    x * y
  }

  /** `Aggregate(1, (c, h) => c * h)`: the left-to-right product from `acc`. */
  function Product(acc: bv32, hs: seq<bv32>): bv32
    decreases hs
  {
    if hs == [] then acc else Product(Mul(acc, hs[0]), hs[1..])
  }

  /** `Aggregate(1, (c, e) => c * hash(e.Item1) * e.Item2.GetHashCode())`. */
  function PairProduct(acc: bv32, hs: seq<(bv32, bv32)>): bv32
    decreases hs
  {
    if hs == [] then acc else PairProduct(Mul(Mul(acc, hs[0].0), hs[0].1), hs[1..])
  }

  /** `t.GetHashCode()`. */
  function Hash(t: Type, strHash: string -> bv32): bv32
  {
    match t
    case Nil => NilHash
    case Int => IntHash
    case Bool => BoolHash
    case Id => IdHash
    case Event(_) => EventHash
    case State => StateHash
    case Any => AnyHash
    case Tuple(es) =>
      Mul(TupleHash, Product(1, seq(|es|, i requires 0 <= i < |es| => Hash(es[i], strHash))))
    case NamedTuple(fs) =>
      Mul(NamedTupleHash, PairProduct(1, seq(|fs|, i requires 0 <= i < |fs| => (strHash(fs[i].0), Hash(fs[i].1, strHash)))))
    case Seq(e) => Mul(SeqHash, Hash(e, strHash))
  }

  /** The hash never reads an Event refinement. */
  lemma {:induction false} HashOfErased(t: Type, strHash: string -> bv32)
    ensures Hash(Erase(t), strHash) == Hash(t, strHash)
    decreases t
  {
    match t
    case Tuple(es) =>
      forall i | 0 <= i < |es| ensures Hash(Erase(es[i]), strHash) == Hash(es[i], strHash) {
        HashOfErased(es[i], strHash);
      }
      TupleHashOfErased(es, strHash);
    case NamedTuple(fs) =>
      forall i | 0 <= i < |fs| ensures Hash(Erase(fs[i].1), strHash) == Hash(fs[i].1, strHash) {
        HashOfErased(fs[i].1, strHash);
      }
      NamedTupleHashOfErased(fs, strHash);
    case Seq(e) =>
      HashOfErased(e, strHash);
    case _ =>
  }

  lemma TupleHashOfErased(es: seq<Type>, strHash: string -> bv32)
    requires forall i :: 0 <= i < |es| ==> Hash(Erase(es[i]), strHash) == Hash(es[i], strHash)
    ensures Hash(Erase(Tuple(es)), strHash) == Hash(Tuple(es), strHash)
  {
    var e := Erase(Tuple(es)).elems;
    var he := seq(|e|, i requires 0 <= i < |e| => Hash(e[i], strHash));
    var hs := seq(|es|, i requires 0 <= i < |es| => Hash(es[i], strHash));
    assert he == hs;
  }

  lemma NamedTupleHashOfErased(fs: seq<Field>, strHash: string -> bv32)
    requires forall i :: 0 <= i < |fs| ==> Hash(Erase(fs[i].1), strHash) == Hash(fs[i].1, strHash)
    ensures Hash(Erase(NamedTuple(fs)), strHash) == Hash(NamedTuple(fs), strHash)
  {
    var g := Erase(NamedTuple(fs)).fields;
    var hg := seq(|g|, i requires 0 <= i < |g| => (strHash(g[i].0), Hash(g[i].1, strHash)));
    var hf := seq(|fs|, i requires 0 <= i < |fs| => (strHash(fs[i].0), Hash(fs[i].1, strHash)));
    assert hg == hf;
  }

  /** Equal types hash alike, whatever the string hash is. */
  lemma EqualTypesHashAlike(a: Type, b: Type, strHash: string -> bv32)
    requires Equal(a, b)
    ensures Hash(a, strHash) == Hash(b, strHash)
  {
    EqualIffErasedSame(a, b);
    HashOfErased(a, strHash);
    HashOfErased(b, strHash);
  }
}
