/**
  The primitive registry: the static `nameToPrimType` dictionary, filled
  once in the static constructor of PType and only read afterwards, and
  `primtiveTypeFromName`, which throws on an unregistered name.
*/
module Registry {
  import opened Wrappers
  import opened PTypes
  import opened Equality
  import opened Printing

  /** One canonical instance per registered name; the Event instance has no refinement. */
  const NameToPrimType: map<string, Type> :=
    map[NilName := Nil, BoolName := Bool, IntName := Int, IdName := Id,
        EventName := Event(None), StateName := State]

  /** `primtiveTypeFromName(s)`; Err where it throws. */
  function PrimitiveTypeFromName(s: string): Result<Type, Failure>
  {
    if s in NameToPrimType then Ok(NameToPrimType[s]) else Err(UnknownPrimitive(s))
  }

  /** The registry holds the six primitive names, each mapped to the primitive of that name. */
  lemma RegistryContents()
    ensures NameToPrimType.Keys == {NilName, BoolName, IntName, IdName, EventName, StateName}
    ensures forall s :: s in NameToPrimType ==>
      IsPrimitive(NameToPrimType[s]) && PrimitiveName(NameToPrimType[s]) == s
  {
    PrimitiveNamesDistinct();
  }

  /** Looking a name up and printing the result gives the name back; unregistered names fail. */
  lemma LookupThenDisplay(s: string)
    ensures PrimitiveTypeFromName(s).Ok? <==> s in {NilName, BoolName, IntName, IdName, EventName, StateName}
    ensures PrimitiveTypeFromName(s).Ok? ==>
      IsPrimitive(PrimitiveTypeFromName(s).value) && Display(PrimitiveTypeFromName(s).value) == Ok(s)
  {
    RegistryContents();
  }

  /**
    Printing a primitive and looking its string up gives back the same
    primitive: the canonical instance, equal to the original (an Event
    loses only its refinement).
  */
  lemma DisplayThenLookup(t: Type)
    requires IsPrimitive(t)
    ensures Display(t).Ok? && PrimitiveTypeFromName(Display(t).value) == Ok(Erase(t))
    ensures Equal(PrimitiveTypeFromName(Display(t).value).value, t)
  {
    RegistryContents();
    var r := NameToPrimType[PrimitiveName(t)];
    PrimitiveNameInjective(r, t);
    EqualIffErasedSame(r, t);
  }

  /** Any is not registered: looking its display string up fails. */
  lemma LookupAnyFails()
    ensures PrimitiveTypeFromName("any") == Err(UnknownPrimitive("any"))
  {
    RegistryContents();
    assert "any"[0] == 'a';
  }

  /**
    Only primitives are registered: looking up the display string of Any
    or of any compound type fails.
  */
  lemma LookupNonPrimitiveFails(t: Type)
    requires !IsPrimitive(t) && Display(t).Ok?
    ensures PrimitiveTypeFromName(Display(t).value) == Err(UnknownPrimitive(Display(t).value))
  {
    RegistryContents();
    var s := Display(t).value;
    assert NilName[0] == 'n' && BoolName[0] == 'b' && IntName[0] == 'i' && IdName[0] == 'i';
    assert EventName[0] == 'e' && StateName[0] == 's' && StateName[1] == 't';
    match t
    case Any =>
      assert s[0] == 'a';
    case Tuple(_) =>
      assert s[0] == '(';
    case NamedTuple(_) =>
      assert s[0] == '(';
    case Seq(_) =>
      assert s[0] == 's' && s[1] == 'e';
  }
}
