# The P compiler's type algebra, in Dafny

This project models `PTypes.cs` of the P compiler (`DemoCompiler` namespace):
the closed family of types a P program can mention, and the operations the
type checker asks of them. The abstract class `PType` and its ten concrete
subclasses become one datatype `PTypes.Type` with ten variants: `Nil`, `Bool`,
`Int`, `Id`, `Event(evtName)`, `State`, `Any`, `Tuple(elems)`,
`NamedTuple(fields)` and `Seq(elem)`. Each C# override becomes one recursive
function over that datatype, dispatched on the receiver:

| module (file) | source | what it holds |
|---|---|---|
| `PTypes` (Types.dfy) | `PType`, `PPrimitiveType` and subclasses | the datatype, the registered primitive names, `Erase` (drops Event refinements), `ContainsState`, `ContainsNamedTuple`, `ContainsNil` |
| `Equality` (Equality.dfy) | `operator ==`, the `Equals` overrides | `Equal`, and the method `Equals` that runs the source's index loops |
| `Hashing` (Hashing.dfy) | the `GetHashCode` overrides | `Hash` over `bv32`, with the string hash as a parameter |
| `Subtyping` (Subtyping.dfy) | the `isSubtypeOf` overrides, `realtive` | `IsSubtype`, the method `IsSubtypeOf` with the source's loops, `Related` |
| `Join` (Join.dfy) | the `LUB` overrides, `computeLUB` | `Lub`, `FoldLub`, `ComputeLub` |
| `Printing` (Printing.dfy) | the `ToString` overrides | `Display` |
| `NamedTuples` (NamedTuples.dfy) | the `PNamedTupleType` constructor | ordinal name order, insertion sort, `MakeNamedTuple` |
| `Registry` (Registry.dfy) | `nameToPrimType`, `primtiveTypeFromName` | the registry map and the lookup |
| `Wrappers` (Wrappers.dfy) | none | `Option` (for C# `null`), `Result` (for thrown exceptions) |

The three places where the code throws are `Err` results of type
`PTypes.Failure`. `primtiveTypeFromName` throws on an unknown name.
`PStateType.LUB` throws. `PNamedTupleType.ToString` throws on a named tuple
with no fields, because it calls `Substring(1)` on `""`.

Equality and subtyping appear twice. `Equality.Equal` and
`Subtyping.IsSubtype` are the specification functions, and the laws are
proved about them. `Equality.Equals` and `Subtyping.IsSubtypeOf` are methods
written the way the source runs the check: index loops that return false at
the first mismatch. Each method is proved to return exactly its function's
value.

## Where the code departs from a symmetric join

A least upper bound is usually symmetric and idempotent, and two of the
source's own comments state an intent. The model follows the code, and it
proves each of these departures:

- A symmetric join would give `Id.LUB(Nil) = Id` and `Event.LUB(Nil) =
  Event`, as `Nil.LUB(Id)` and `Nil.LUB(Event)` do. In the code only
  `PNilType.LUB` lifts Nil. `Id.LUB(Nil)` and `Event.LUB(Nil)` are `Any`
  (`Join.NilJoinNotCommutative`).
- The comment on `PStateType.LUB` (PTypes.cs:205-207) says State must be
  kept out of joins. In the code only a State receiver throws. `x.LUB(State)`
  is `Any` for every other receiver (`Join.LubWithStateArgument`,
  `Join.LubFailsOnlyOnReceiverState`).
- The comment "Check fields names match up." (PTypes.cs:344) says two named
  tuples with the same field names are meant to join field by field, as
  line 348 does. The check itself compares two LINQ `Select` iterators with
  reference `Equals`. That comparison is always false, so a named-tuple
  receiver always yields `Any` (`Join.NamedTupleJoinIsAny`).
- A least upper bound lies below every common supertype of its operands.
  The code's join is least whenever neither side holds State, the receiver
  holds no named tuple and the argument holds no Nil (`Join.LubIsLeast`).
  It is not least at `Id.LUB(Nil)`: `Id` bounds both `Id` and `Nil`, yet
  the join is `Any` (`Join.LubNotLeastAtNil`). Nor is it least at a named
  tuple's join with itself, which is `Any` (`Join.NamedTupleSelfJoinNotLeast`).
- An idempotent join would give `a.LUB(a) = a`. In the code this fails for
  every type that contains a named tuple (`Join.LubSelfIff`).
- `computeLUB` seeds `Aggregate` with the first type and then folds over all
  the types, the first one included. When the first type holds no State this
  changes nothing (`Join.ComputeLubSkipsFirstWhenStateFree`). Otherwise it
  can throw where a fold from the first type over the rest would not:
  `computeLUB([Tuple([State]), Int])` throws (`Join.ComputeLubExamples`).

## Model

| member | source | states |
|---|---|---|
| `PTypes.PrimitiveNamesDistinct` | Src/Compilers/PCompiler/PTypes.cs:31-36 | the six placeholder names are pairwise distinct, so none of the six registrations overwrites another |
| `PTypes.PrimitiveNameInjective` | Src/Compilers/PCompiler/PTypes.cs:154-197 | two primitives have the same registered name iff they are the same kind of primitive, whatever an Event's refinement |
| `Equality.Equals` | Src/Compilers/PCompiler/PTypes.cs:221-234 | the loop-based `Equals` (tuple and named-tuple loops with early exit, primitives by name, Any, Seq) returns exactly `Equal(a, b)` |
| `Equality.EqualIffErasedSame` | Src/Compilers/PCompiler/PTypes.cs:108-112 | structural equality holds iff the two types are identical once Event refinements are dropped: primitives by name, compounds by variant and pointwise |
| `Equality.EqualReflexive` | Src/Compilers/PCompiler/PTypes.cs:290-303 | every type equals itself |
| `Equality.EqualSymmetric` | Src/Compilers/PCompiler/PTypes.cs:12-21 | `a == b` iff `b == a` |
| `Equality.EqualTransitive` | Src/Compilers/PCompiler/PTypes.cs:12-21 | equality is transitive |
| `Equality.EqualSameVariant` | Src/Compilers/PCompiler/PTypes.cs:221-225 | equal types are of the same variant: a type of another class is never equal |
| `Equality.EventRefinementIgnored` | Src/Compilers/PCompiler/PTypes.cs:186-193 | two Event types are equal whatever their `evtName` |
| `Hashing.HashOfErased` | Src/Compilers/PCompiler/PTypes.cs:114-130 | the hash never depends on an Event refinement |
| `Hashing.EqualTypesHashAlike` | Src/Compilers/PCompiler/PTypes.cs:236-239 | equal types have equal hash codes, for every string hash function |
| `Subtyping.IsSubtypeOf` | Src/Compilers/PCompiler/PTypes.cs:250-267 | the loop-based `isSubtypeOf` (Any first, then `Equals`, then the pointwise loops with early exit) returns exactly `IsSubtype(a, b)` |
| `Subtyping.EqualImpliesSubtype` | Src/Compilers/PCompiler/PTypes.cs:252-253 | a type is a subtype of every type equal to it |
| `Subtyping.SubtypeReflexive` | Src/Compilers/PCompiler/PTypes.cs:137-140 | every type, State included, is a subtype of itself |
| `Subtyping.PrimitiveSubtypeIff` | Src/Compilers/PCompiler/PTypes.cs:158-162 | a primitive is below exactly: its own kind, Any (unless it is State), and, for Nil, Id and Event |
| `Subtyping.SubtypeOfAnyIff` | Src/Compilers/PCompiler/PTypes.cs:198-201 | every type except State is a subtype of Any |
| `Subtyping.AnySupertypesIff` | Src/Compilers/PCompiler/PTypes.cs:371-374 | Any's only supertype is Any |
| `Subtyping.StateSupertypesIff` | Src/Compilers/PCompiler/PTypes.cs:198-201 | State's only supertype is State |
| `Subtyping.NilSupertypesIff` | Src/Compilers/PCompiler/PTypes.cs:158-162 | Nil is below exactly Nil, Id, Event and Any |
| `Subtyping.TupleSubtypeIff` | Src/Compilers/PCompiler/PTypes.cs:250-267 | a tuple is below a tuple iff the arities match and the elements are pointwise subtypes |
| `Subtyping.NamedTupleSubtypeIff` | Src/Compilers/PCompiler/PTypes.cs:317-335 | a named tuple is below a named tuple iff the counts match, the names agree position by position and the field types are pointwise subtypes |
| `Subtyping.SeqSubtypeIff` | Src/Compilers/PCompiler/PTypes.cs:409-418 | `Seq(e)` is below `Seq(f)` iff e is below f |
| `Subtyping.CompoundSubtypeSameVariant` | Src/Compilers/PCompiler/PTypes.cs:255-256 | a compound type is below only Any and types of its own variant |
| `Subtyping.SubtypeTransitive` | Src/Compilers/PCompiler/PTypes.cs:262-266 | subtyping is transitive |
| `Subtyping.SubtypeAntisymmetric` | Src/Compilers/PCompiler/PTypes.cs:329-334 | two types that are subtypes of each other are equal |
| `Subtyping.RelatedIff` | Src/Compilers/PCompiler/PTypes.cs:91-94 | `realtive` holds iff one type is a subtype of the other (its equality test adds nothing), and it is symmetric |
| `Subtyping.RelatedToAnyIff` | Src/Compilers/PCompiler/PTypes.cs:91-94 | every type but State is related to Any |
| `Subtyping.SubtypeExamples` | Src/Compilers/PCompiler/PTypes.cs:158-162 | Nil is below Id and Event; `(int,bool)` is below `(any,any)` but not below `(int,bool,int)`; State is not below Any; Id is not below Nil |
| `Join.LubFailsOnlyOnReceiverState` | Src/Compilers/PCompiler/PTypes.cs:203-209 | a join fails only if its receiver holds State; whatever the argument is, a State-free receiver gets a result |
| `Join.LubWithStateArgument` | Src/Compilers/PCompiler/PTypes.cs:142-148 | joining with a State argument gives Any for every receiver but State, which throws |
| `Join.NamedTupleJoinIsAny` | Src/Compilers/PCompiler/PTypes.cs:338-349 | a named-tuple receiver yields Any for every argument, so a named tuple joined with itself is not itself |
| `Join.NilJoinNotCommutative` | Src/Compilers/PCompiler/PTypes.cs:142-170 | for Id and for Event with any refinement, `Nil.LUB(t)` is `t` but `t.LUB(Nil)` is Any |
| `Join.LubResultHasNoState` | Src/Compilers/PCompiler/PTypes.cs:269-275 | a join's result never contains State |
| `Join.LubIsUpperBound` | Src/Compilers/PCompiler/PTypes.cs:142-148 | when neither side contains State, the join succeeds and is a supertype of both sides |
| `Join.LubIsLeast` | Src/Compilers/PCompiler/PTypes.cs:142-429 | when neither side holds State, the receiver holds no named tuple and the argument holds no Nil, the join succeeds and lies below every common supertype `c` of the two sides |
| `Join.LubNotLeastAtNil` | Src/Compilers/PCompiler/PTypes.cs:142-170 | Id bounds Id and Nil, but `Id.LUB(Nil)` is Any, which is not below Id |
| `Join.NamedTupleSelfJoinNotLeast` | Src/Compilers/PCompiler/PTypes.cs:338-349 | every named tuple is below itself, but its join with itself is Any, which is not below it |
| `Join.LubSelfIff` | Src/Compilers/PCompiler/PTypes.cs:338-349 | for a State-free type, joining it with itself gives it back iff it contains no named tuple |
| `Join.LubAfterSelfLub` | Src/Compilers/PCompiler/PTypes.cs:79-89 | for a State-free `a`, joining `a.LUB(a)` with `b` gives the same result as joining `a` with `b` |
| `Join.FoldLubIsUpperBound` | Src/Compilers/PCompiler/PTypes.cs:88 | the left fold of joins succeeds on State-free types and lies above its seed and every folded type |
| `Join.ComputeLubIsUpperBound` | Src/Compilers/PCompiler/PTypes.cs:79-89 | `computeLUB` of State-free types succeeds and is a common supertype of all of them |
| `Join.ComputeLubSkipsFirstWhenStateFree` | Src/Compilers/PCompiler/PTypes.cs:88 | with two or more types and a State-free first one, `computeLUB` equals the fold seeded with the first over the rest |
| `Join.LubExamples` | Src/Compilers/PCompiler/PTypes.cs:164-170 | `int ⊔ int = int`, `int ⊔ bool = any`, `Nil.LUB(Id) = Id` but `Id.LUB(Nil) = any` (same for Event), `seq[int] ⊔ seq[bool] = seq[any]`, only a State receiver throws, a named tuple joined with itself is `any` |
| `Join.LubTupleExample` | Src/Compilers/PCompiler/PTypes.cs:269-275 | `(int, nil) ⊔ (bool, id) = (any, id)`: tuples of the same arity join element by element |
| `Join.ComputeLubExamples` | Src/Compilers/PCompiler/PTypes.cs:79-89 | `computeLUB([])` is Nil, `[int]` gives int, `[int, bool, int]` gives any; `[(state), int]` throws although the fold from the first type over the rest would not |
| `Printing.CommaFoldIsJoin` | Src/Compilers/PCompiler/PTypes.cs:245-247 | the fold `a + "," + e` from `acc` equals `acc` followed by a comma and the comma-joined list (just `acc` for no pieces) |
| `Printing.DisplayOkIff` | Src/Compilers/PCompiler/PTypes.cs:312-315 | `ToString` succeeds iff no named tuple without fields occurs in the type |
| `Printing.TupleDisplay` | Src/Compilers/PCompiler/PTypes.cs:243-248 | a tuple prints as its elements' strings joined by commas in parentheses, `()` when empty |
| `Printing.NamedTupleDisplay` | Src/Compilers/PCompiler/PTypes.cs:312-315 | a named tuple with fields prints as `name:type` pieces in stored order, joined by commas, in parentheses |
| `Printing.DisplayOfErased` | Src/Compilers/PCompiler/PTypes.cs:132-135 | the display string never shows an Event refinement |
| `Printing.EqualTypesDisplayAlike` | Src/Compilers/PCompiler/PTypes.cs:132-135 | equal types print alike |
| `Printing.DisplayPair` | Src/Compilers/PCompiler/PTypes.cs:243-248 | a two-element tuple prints as `(s1,s2)` |
| `Printing.DisplayNamedTupleExample` | Src/Compilers/PCompiler/PTypes.cs:312-315 | `(x: int, y: bool)` prints as `(x:int,y:bool)` |
| `Printing.DisplaySeqExample` | Src/Compilers/PCompiler/PTypes.cs:404-407 | `seq[id]` prints as `seq[id]` |
| `Printing.DisplayNestedExample` | Src/Compilers/PCompiler/PTypes.cs:243-248 | a tuple of a named tuple and a sequence prints as `((x:int,y:bool),seq[id])` |
| `Printing.DisplayEmptyExamples` | Src/Compilers/PCompiler/PTypes.cs:312-315 | the empty tuple prints as `()`; the empty named tuple throws |
| `NamedTuples.NameLeqTotal` | Src/Compilers/PCompiler/PTypes.cs:287 | any two names are ordered one way or the other |
| `NamedTuples.NameLeqAntisymmetric` | Src/Compilers/PCompiler/PTypes.cs:287 | names ordered both ways are equal |
| `NamedTuples.NameLeqTransitive` | Src/Compilers/PCompiler/PTypes.cs:287 | the name order is transitive |
| `NamedTuples.Insert` | Src/Compilers/PCompiler/PTypes.cs:287 | inserting a field adds exactly that field and keeps a name-sorted list sorted |
| `NamedTuples.SortFields` | Src/Compilers/PCompiler/PTypes.cs:284-287 | the result is sorted by name and is a permutation of the input |
| `NamedTuples.MakeNamedTuple` | Src/Compilers/PCompiler/PTypes.cs:282-288 | the constructed type is a named tuple whose stored fields are the given ones, sorted by name |
| `NamedTuples.SortedArrangementUnique` | Src/Compilers/PCompiler/PTypes.cs:285-287 | when a name determines its field, two name-sorted lists holding the same fields are identical |
| `NamedTuples.DeclarationOrderIrrelevant` | Src/Compilers/PCompiler/PTypes.cs:282-288 | field lists with unique names that are permutations of each other build identical named tuples, with identical stored order |
| `NamedTuples.SortedDeclarationKept` | Src/Compilers/PCompiler/PTypes.cs:282-288 | fields declared already in name order, with unique names, are stored as declared |
| `NamedTuples.CanonicalExample` | Src/Compilers/PCompiler/PTypes.cs:285-287 | `(b: int, a: bool)` and `(a: bool, b: int)` build the same type, stored as `(a: bool, b: int)` |
| `Registry.RegistryContents` | Src/Compilers/PCompiler/PTypes.cs:27-36 | the registry holds exactly the six primitive names, each mapped to the primitive of that name |
| `Registry.LookupThenDisplay` | Src/Compilers/PCompiler/PTypes.cs:50-56 | lookup succeeds iff the name is registered, and the result is a primitive that prints as the name |
| `Registry.DisplayThenLookup` | Src/Compilers/PCompiler/PTypes.cs:50-56 | looking up a primitive's printed name gives the canonical instance, equal to the primitive |
| `Registry.LookupAnyFails` | Src/Compilers/PCompiler/PTypes.cs:50-53 | `any` is not a registered name, so its lookup fails |
| `Registry.LookupNonPrimitiveFails` | Src/Compilers/PCompiler/PTypes.cs:50-53 | only primitives are registered: the display string of Any or of any printable compound type is not a registered name, so its lookup fails |

## Left out

- Null operands of `operator ==` (PTypes.cs:12-21): a Dafny datatype value cannot be null.
- `operator !=` has no member of its own: it is the negation of `Equal`.
- The primitive names come from external constants (`PData.Cnst_*.Node.Name`). The model uses six distinct placeholder strings (`"nil"`, `"bool"`, ...). Most laws rely only on their distinctness. The printing examples (`Printing.DisplayNamedTupleExample`, `Printing.DisplaySeqExample`, `Printing.DisplayNestedExample`) use the placeholder spellings. `Registry.LookupAnyFails` holds because no placeholder is `"any"`. `Registry.LookupNonPrimitiveFails` holds because no placeholder is `"any"` or starts with `(` or `seq[`.
- `string.GetHashCode` is a call into the runtime. `Hashing.Hash` takes it as a parameter `strHash`. Every law is proved for all such functions.
- `NamedTuples.SortFields`: `Comparer<string>.Default` orders names by culture rules. The model orders them ordinally, by character codes.
- `NamedTuples.MakeNamedTuple`: `List.Sort` is not stable, so with a repeated field name the C# order among equal names is unspecified. The model keeps one valid sorted order. Canonical form is proved for unique names only.
- The `throw` at the end of `PPrimitiveType.GetHashCode` (PTypes.cs:129) cannot be reached: every primitive is one of the six listed kinds.
- Exception classes and messages are not modelled. A failure is the `Err` value naming where it happens.
- The static constructor fills `nameToPrimType` once and nothing writes it later. The model is the resulting constant map `Registry.NameToPrimType`, not the step-by-step fill.
- The static singletons `PType.Nil`, `PType.Any` and so on are not modelled. Types are compared structurally, so these are just the datatype values.
- Object identity is not modelled, nor `Equals` on arguments that are not types.
- The accessors `elements`, `T`, `name` and `evtName` are the datatype's destructors.
