/**
  Display strings: the `ToString` overrides. Primitives print their
  registered name, Any prints "any", tuples "(t1,...,tn)", named tuples
  "(n1:t1,...,nk:tk)" in stored (sorted) order and sequences "seq[t]".
  Both tuple overrides build ",x1,x2,..." with a left fold and drop the
  first character; the named-tuple override does so unconditionally, so
  it throws on a named tuple without fields.
*/
module Printing {
  import opened Wrappers
  import opened PTypes
  import opened Equality

  /** `ss.Aggregate(acc, (a, e) => a + "," + e)`. */
  function CommaFold(acc: string, ss: seq<string>): string
    decreases ss
  {
    if ss == [] then acc else CommaFold(acc + "," + ss[0], ss[1..])
  }

  /** The pieces joined with commas between them (`string.Join(",", ss)`): the reference form. */
  function JoinCommas(ss: seq<string>): string
  {
    if ss == [] then ""
    else if |ss| == 1 then ss[0]
    else ss[0] + "," + JoinCommas(ss[1..])
  }

  /** `t.ToString()`; Err where it throws. */
  function Display(t: Type): Result<string, Failure>
  {
    match t
    case Nil | Bool | Int | Id | Event(_) | State => Ok(PrimitiveName(t))
    case Any => Ok("any")
    case Tuple(es) =>
      if exists i :: 0 <= i < |es| && Display(es[i]).Err? then Err(EmptyNamedTupleDisplay)
      else
        var inner := CommaFold("", seq(|es|, i requires 0 <= i < |es| => Display(es[i]).value));
        Ok("(" + (if |inner| > 0 then inner[1..] else "") + ")")
    case NamedTuple(fs) =>
      if exists i :: 0 <= i < |fs| && Display(fs[i].1).Err? then Err(EmptyNamedTupleDisplay)
      else
        // a + "," + name + ":" + type is a + "," + (name + ":" + type)
        var inner := CommaFold("", seq(|fs|, i requires 0 <= i < |fs| => fs[i].0 + ":" + Display(fs[i].1).value));
        if |inner| == 0 then Err(EmptyNamedTupleDisplay)  // "".Substring(1) throws
        else Ok("(" + inner[1..] + ")")
    case Seq(e) =>
      match Display(e)
      case Ok(s) => Ok("seq[" + s + "]")
      case Err(f) => Err(f)
  }

  /** Whether a named tuple without fields occurs anywhere in `t`. */
  predicate ContainsEmptyNamedTuple(t: Type)
  {
    match t
    case NamedTuple(fs) => |fs| == 0 || exists i :: 0 <= i < |fs| && ContainsEmptyNamedTuple(fs[i].1)
    case Tuple(es) => exists i :: 0 <= i < |es| && ContainsEmptyNamedTuple(es[i])
    case Seq(e) => ContainsEmptyNamedTuple(e)
    case _ => false
  }

  /** The fold with its leading comma is a comma-joined list behind one extra comma. */
  lemma {:induction false} CommaFoldIsJoin(acc: string, ss: seq<string>)
    ensures CommaFold(acc, ss) == if ss == [] then acc else acc + "," + JoinCommas(ss)
    decreases ss
  {
    if ss != [] {
      CommaFoldIsJoin(acc + "," + ss[0], ss[1..]);
      if |ss| > 1 {
        assert acc + "," + ss[0] + "," + JoinCommas(ss[1..]) == acc + "," + (ss[0] + "," + JoinCommas(ss[1..]));
      }
    }
  }

  /** Displaying fails exactly when a named tuple without fields occurs somewhere. */
  lemma {:induction false} DisplayOkIff(t: Type)
    ensures Display(t).Ok? <==> !ContainsEmptyNamedTuple(t)
    decreases t
  {
    match t
    case Tuple(es) =>
      forall i | 0 <= i < |es| ensures Display(es[i]).Ok? <==> !ContainsEmptyNamedTuple(es[i]) {
        DisplayOkIff(es[i]);
      }
    case NamedTuple(fs) =>
      forall i | 0 <= i < |fs| ensures Display(fs[i].1).Ok? <==> !ContainsEmptyNamedTuple(fs[i].1) {
        DisplayOkIff(fs[i].1);
      }
      if |fs| > 0 && !ContainsEmptyNamedTuple(t) {
        var pieces := seq(|fs|, i requires 0 <= i < |fs| => fs[i].0 + ":" + Display(fs[i].1).value);
        CommaFoldIsJoin("", pieces);
      }
    case Seq(e) =>
      DisplayOkIff(e);
    case _ =>
  }

  /** A tuple prints as its elements' strings, comma-separated, in parentheses; "()" when empty. */
  lemma TupleDisplay(es: seq<Type>)
    requires forall i :: 0 <= i < |es| ==> Display(es[i]).Ok?
    ensures Display(Tuple(es)) ==
      Ok("(" + JoinCommas(seq(|es|, i requires 0 <= i < |es| => Display(es[i]).value)) + ")")
  {
    var ss := seq(|es|, i requires 0 <= i < |es| => Display(es[i]).value);
    CommaFoldIsJoin("", ss);
    if ss != [] {
      assert ("" + "," + JoinCommas(ss))[1..] == JoinCommas(ss);
    }
  }

  /** A named tuple with fields prints as "name:type" pieces, comma-separated, in parentheses. */
  lemma NamedTupleDisplay(fs: seq<Field>)
    requires |fs| > 0
    requires forall i :: 0 <= i < |fs| ==> Display(fs[i].1).Ok?
    ensures Display(NamedTuple(fs)) ==
      Ok("(" + JoinCommas(seq(|fs|, i requires 0 <= i < |fs| => fs[i].0 + ":" + Display(fs[i].1).value)) + ")")
  {
    var ss := seq(|fs|, i requires 0 <= i < |fs| => fs[i].0 + ":" + Display(fs[i].1).value);
    CommaFoldIsJoin("", ss);
    assert ("" + "," + JoinCommas(ss))[1..] == JoinCommas(ss);
  }

  /** The display string never shows an Event refinement. */
  lemma {:induction false} DisplayOfErased(t: Type)
    ensures Display(Erase(t)) == Display(t)
    decreases t
  {
    match t
    case Tuple(es) =>
      var e := Erase(t).elems;
      forall i | 0 <= i < |es| ensures Display(e[i]) == Display(es[i]) {
        DisplayOfErased(es[i]);
      }
      if !exists i :: 0 <= i < |es| && Display(es[i]).Err? {
        assert seq(|e|, i requires 0 <= i < |e| => Display(e[i]).value)
            == seq(|es|, i requires 0 <= i < |es| => Display(es[i]).value);
      }
    case NamedTuple(fs) =>
      var g := Erase(t).fields;
      forall i | 0 <= i < |fs| ensures Display(g[i].1) == Display(fs[i].1) {
        DisplayOfErased(fs[i].1);
      }
      if !exists i :: 0 <= i < |fs| && Display(fs[i].1).Err? {
        assert seq(|g|, i requires 0 <= i < |g| => g[i].0 + ":" + Display(g[i].1).value)
            == seq(|fs|, i requires 0 <= i < |fs| => fs[i].0 + ":" + Display(fs[i].1).value);
      }
    case Seq(e) =>
      DisplayOfErased(e);
    case _ =>
  }

  /** Equal types print alike. */
  lemma EqualTypesDisplayAlike(a: Type, b: Type)
    requires Equal(a, b)
    ensures Display(a) == Display(b)
  {
    EqualIffErasedSame(a, b);
    DisplayOfErased(a);
    DisplayOfErased(b);
  }

  /** The named tuple of the nested example below. */
  lemma DisplayNamedTupleExample()
    ensures Display(NamedTuple([("x", Int), ("y", Bool)])) == Ok("(x:int,y:bool)")
  {
    var fs := [("x", Int), ("y", Bool)];
    NamedTupleDisplay(fs);
    var ps := seq(2, i requires 0 <= i < 2 => fs[i].0 + ":" + Display(fs[i].1).value);
    assert ps[0] == "x" + ":" + "int" == "x:int";
    assert ps[1] == "y" + ":" + "bool" == "y:bool";
    assert JoinCommas(ps) == "x:int" + "," + "y:bool";
    assert "(" + ("x:int" + "," + "y:bool") + ")" == "(x:int,y:bool)";
  }

  /** A pair prints as its two strings in parentheses. */
  lemma DisplayPair(a: Type, b: Type, sa: string, sb: string)
    requires Display(a) == Ok(sa) && Display(b) == Ok(sb)
    ensures Display(Tuple([a, b])) == Ok("(" + sa + "," + sb + ")")
  {
    var es := [a, b];
    TupleDisplay(es);
    var ss := seq(2, i requires 0 <= i < 2 => Display(es[i]).value);
    assert ss == [sa, sb];
    assert JoinCommas(ss) == sa + "," + sb;
    assert "(" + (sa + "," + sb) + ")" == "(" + sa + "," + sb + ")";
  }

  /** A nested shape: a tuple of a named tuple and a sequence. */
  lemma DisplayNestedExample()
    ensures Display(Tuple([NamedTuple([("x", Int), ("y", Bool)]), Seq(Id)])) == Ok("((x:int,y:bool),seq[id])")
  {
    var nt, sq := NamedTuple([("x", Int), ("y", Bool)]), Seq(Id);
    DisplayNamedTupleExample();
    DisplaySeqExample();
    DisplayPair(nt, sq, "(x:int,y:bool)", "seq[id]");
    assert "(" + "(x:int,y:bool)" + "," + "seq[id]" + ")" == "((x:int,y:bool),seq[id])";
  }

  lemma DisplaySeqExample()
    ensures Display(Seq(Id)) == Ok("seq[id]")
  {
    assert "seq[" + "id" + "]" == "seq[id]";
  }

  /** The empty tuple prints as "()"; the empty named tuple throws. */
  lemma DisplayEmptyExamples()
    ensures Display(Tuple([])) == Ok("()")
    ensures Display(NamedTuple([])).Err?
  {
    TupleDisplay([]);
    assert "(" + JoinCommas([]) + ")" == "()";
  }
}
