/**
 * Scope boundaries, expression typing and import-string ranges (`GoPsiImplUtil`).
 *
 * Resolution of a type reference expression is not part of this model: it is
 * the `resolve` parameter, giving the element the reference resolves to, if any.
 * The types here are type nodes of the syntax tree, not the typing values of
 * module GoTypes.
 */
module PsiImplUtil {
  import opened Wrappers
  import opened PsiTree

  // ---------------------------------------------------------------------------
  // processDeclarations

  /** What `processDeclarations` does at node `o`: the default walk, or the processor on `o` alone. */
  datatype Action = DefaultWalk | ExecuteOnly(node: nat)

  /** The eight node kinds that hide their declarations from lookups that start outside them. */
  predicate IsScopeBoundary(k: NodeKind): (b: bool)
    ensures !b <==> k.File? || k.FunctionDeclaration? || k.MethodDeclaration? || k.ShortVarDeclaration? ||
                    k.VarDeclaration? || k.SimpleStatement? || k.ExpressionNode? || k.OtherNode?
  {
    match k
    case Block | IfStatement | SwitchStatement | ForStatement | CommClause | FunctionLit | TypeCaseClause | ExprCaseClause =>
      true
    case _ => false
  }

  function ProcessDeclarations(t: Tree, o: nat, place: nat): (a: Action)
    requires Valid(t) && IsNode(t, o) && IsNode(t, place)
    ensures IsAncestor(t, o, place) ==> a == DefaultWalk
    ensures a == ExecuteOnly(o) <==> !IsAncestor(t, o, place) && IsScopeBoundary(t.kinds[o])
    ensures a == DefaultWalk || a == ExecuteOnly(o)
  {
    if IsAncestor(t, o, place) then DefaultWalk
    else if IsScopeBoundary(t.kinds[o]) then ExecuteOnly(o)
    else DefaultWalk
  }

  /** The containment test is non-strict: a node takes the default walk for a lookup at itself. */
  lemma ProcessDeclarationsAtPlace(t: Tree, place: nat)
    requires Valid(t) && IsNode(t, place)
    ensures ProcessDeclarations(t, place, place) == DefaultWalk
  {
  }

  /**
   * A boundary node that is a sibling of a subtree holding the lookup place
   * (an `else` block beside an `if` body, say) is seen only as a whole: the
   * declarations inside it are not walked.
   */
  lemma SiblingBoundaryIsOpaque(t: Tree, o: nat, sibling: nat, place: nat)
    requires Valid(t) && IsNode(t, o) && IsNode(t, sibling) && IsNode(t, place)
    requires o != sibling && t.parents[o] == t.parents[sibling] && t.parents[o] >= 0
    requires IsAncestor(t, sibling, place)
    requires IsScopeBoundary(t.kinds[o])
    ensures ProcessDeclarations(t, o, place) == ExecuteOnly(o)
  {
    SiblingSubtreesDisjoint(t, sibling, o, place);
  }

  /**
   * A boundary node with a larger arena index than the lookup place (so it
   * cannot contain it) is seen only as a whole.
   */
  lemma LaterBoundaryIsOpaque(t: Tree, o: nat, place: nat)
    requires Valid(t) && IsNode(t, o) && IsNode(t, place)
    requires place < o && IsScopeBoundary(t.kinds[o])
    ensures ProcessDeclarations(t, o, place) == ExecuteOnly(o)
  {
  }

  // ---------------------------------------------------------------------------
  // Expression typing

  /** A type reference expression, named by its text. */
  datatype TypeRefExpr = TypeRefExpr(refText: string)

  /** A type node of the syntax tree, with its type reference expression if it has one. */
  datatype TypeNode = TypeNode(typeText: string, typeRef: Option<TypeRefExpr>)

  datatype TypeSpec = TypeSpec(specName: string, specType: TypeNode)

  /** What a type reference can resolve to. */
  datatype Element = TypeSpecElement(spec: TypeSpec) | NonTypeSpec(description: string)

  /** The arguments of a builtin call, with the type argument if there is one. */
  datatype BuiltinArgs = BuiltinArgs(argType: Option<TypeNode>)

  datatype Expression =
    | UnaryExpr(operator: string, operand: Option<Expression>)
    | CompositeLit(literalTypeRef: Option<TypeRefExpr>)
    | BuiltinCallExpr(builtinName: string, args: Option<BuiltinArgs>)
    | OtherExpr(exprText: string)

  /** The declared type of the type spec a type reference resolves to (`getType`). */
  function ResolveType(resolve: TypeRefExpr -> Option<Element>, r: Option<TypeRefExpr>): (t: Option<TypeNode>)
    ensures t.Some? <==> r.Some? && resolve(r.value).Some? && resolve(r.value).value.TypeSpecElement?
    ensures t.Some? ==> t.value == resolve(r.value).value.spec.specType
  {
    match r
    case None => None
    case Some(ref) =>
      match resolve(ref)
      case Some(TypeSpecElement(spec)) => Some(spec.specType)
      case _ => None
  }

  /** Whether a builtin call names `new` or `make`. */
  predicate IsAllocationBuiltin(name: string) {
    name == "new" || name == "make"
  }

  /**
   * The static type of an expression (`getGoType`). Any type it infers is the
   * declared type of a type spec that some type reference resolves to.
   */
  function TypeOf(resolve: TypeRefExpr -> Option<Element>, e: Expression): (r: Option<TypeNode>)
    ensures r.Some? ==> exists ref :: resolve(ref).Some? && resolve(ref).value.TypeSpecElement? &&
                                      r.value == resolve(ref).value.spec.specType
    decreases e
  {
    match e
    case UnaryExpr(_, operand) =>
      (match operand
       case None => None
       case Some(x) => TypeOf(resolve, x))
    case CompositeLit(r) => ResolveType(resolve, r)
    case BuiltinCallExpr(name, args) =>
      if IsAllocationBuiltin(name) && args.Some? && args.value.argType.Some? then
        ResolveType(resolve, args.value.argType.value.typeRef)
      else
        None
    case OtherExpr(_) => None
  }

  /**
   * The type reference an expression names, looking through unary wrappers:
   * a composite literal's type, or the type argument of `new` or `make`.
   */
  function NamedTypeRef(e: Expression): Option<TypeRefExpr>
    decreases e
  {
    match e
    case UnaryExpr(_, operand) =>
      (match operand
       case None => None
       case Some(x) => NamedTypeRef(x))
    case CompositeLit(r) => r
    case BuiltinCallExpr(name, args) =>
      if IsAllocationBuiltin(name) && args.Some? && args.value.argType.Some? then
        args.value.argType.value.typeRef
      else
        None
    case OtherExpr(_) => None
  }

  /**
   * Every inferred type is the declared type of the type spec that the
   * expression's named type reference resolves to; when there is no such
   * reference, or it resolves to something other than a type spec, no type
   * is inferred.
   */
  lemma {:induction false} TypeOfResolvesNamedTypeRef(resolve: TypeRefExpr -> Option<Element>, e: Expression)
    ensures TypeOf(resolve, e) == ResolveType(resolve, NamedTypeRef(e))
    decreases e
  {
    match e
    case UnaryExpr(_, Some(x)) => TypeOfResolvesNamedTypeRef(resolve, x);
    case _ =>
  }

  /** Unary operators, applied innermost first. */
  function WrapUnary(operators: seq<string>, e: Expression): Expression
    decreases |operators|
  {
    if |operators| == 0 then e
    else UnaryExpr(operators[|operators| - 1], Some(WrapUnary(operators[..|operators| - 1], e)))
  }

  /** Unary operators are transparent to typing: no pointer is added or removed. */
  lemma {:induction false} UnaryIsTransparent(resolve: TypeRefExpr -> Option<Element>, operators: seq<string>, e: Expression)
    ensures TypeOf(resolve, WrapUnary(operators, e)) == TypeOf(resolve, e)
    decreases |operators|
  {
    if |operators| > 0 {
      UnaryIsTransparent(resolve, operators[..|operators| - 1], e);
    }
  }

  /**
   * The typing cases: a unary expression without operand, an expression of
   * another kind, and a builtin other than `new` and `make` or one without a
   * type argument, have no type; `new(T)` and `make(T)` have the type of
   * `T{}`.
   */
  lemma TypeOfCases(resolve: TypeRefExpr -> Option<Element>, e: Expression)
    ensures e.UnaryExpr? && e.operand.None? ==> TypeOf(resolve, e) == None
    ensures e.OtherExpr? ==> TypeOf(resolve, e) == None
    ensures e.BuiltinCallExpr? && !IsAllocationBuiltin(e.builtinName) ==> TypeOf(resolve, e) == None
    ensures e.BuiltinCallExpr? && (e.args.None? || e.args.value.argType.None?) ==> TypeOf(resolve, e) == None
    ensures e.BuiltinCallExpr? && IsAllocationBuiltin(e.builtinName) && e.args.Some? && e.args.value.argType.Some? ==>
              TypeOf(resolve, e) == TypeOf(resolve, CompositeLit(e.args.value.argType.value.typeRef))
  {
  }

  // ---------------------------------------------------------------------------
  // Types of variables declared by a short variable declaration

  /** A variable definition; `declaredType` is what the named element reports as its own type. */
  datatype VarDefinition = VarDefinition(id: nat, varName: string, declaredType: Option<TypeNode>)

  /** The parent of a variable definition. */
  datatype VarParent =
    | ShortVarDecl(definitions: seq<VarDefinition>, expressions: seq<Expression>)
    | OtherParent

  /** `List.get` past the end of the list. */
  datatype TypingError = IndexOutOfBounds(index: nat, size: nat)

  /** The position of the first definition equal to `o`, or the number of definitions if there is none. */
  function IndexOf(defs: seq<VarDefinition>, o: VarDefinition): (i: nat)
    ensures i <= |defs|
    ensures i < |defs| ==> defs[i] == o
    ensures forall j :: 0 <= j < i ==> defs[j] != o
    ensures i == |defs| <==> o !in defs
    decreases |defs|
  {
    if |defs| == 0 then 0
    else if defs[0] == o then 0
    else 1 + IndexOf(defs[1..], o)
  }

  /** The loop that counts the definitions before `o`. */
  method DefinitionIndex(defs: seq<VarDefinition>, o: VarDefinition) returns (i: nat)
    ensures i == IndexOf(defs, o)
  {
    i := 0;
    while i < |defs|
      invariant i <= |defs|
      invariant forall j :: 0 <= j < i ==> defs[j] != o
    {
      if defs[i] == o {
        break;
      }
      i := i + 1;
    }
    IndexOfIsUnique(defs, o, i);
  }

  /** The position `IndexOf` computes is the only one with its properties. */
  lemma IndexOfIsUnique(defs: seq<VarDefinition>, o: VarDefinition, k: nat)
    requires k <= |defs|
    requires k < |defs| ==> defs[k] == o
    requires forall j :: 0 <= j < k ==> defs[j] != o
    ensures k == IndexOf(defs, o)
  {
  }

  /**
   * The type of a variable definition as the source computes it: the guard
   * `size < i` lets `i == size` through to `get(i)`, which then fails.
   */
  function VarTypeAsWritten(resolve: TypeRefExpr -> Option<Element>, o: VarDefinition, parent: VarParent)
    : (r: Result<Option<TypeNode>, TypingError>)
    ensures r.Err? ==> parent.ShortVarDecl? && r.error.index == r.error.size == |parent.expressions|
    ensures parent.OtherParent? ==> r == Ok(o.declaredType)
  {
    match parent
    case ShortVarDecl(defs, exprs) =>
      var i := IndexOf(defs, o);
      if |exprs| < i then Ok(None)
      else if i < |exprs| then Ok(TypeOf(resolve, exprs[i]))
      else Err(IndexOutOfBounds(i, |exprs|))
    case OtherParent => Ok(o.declaredType)
  }

  /**
   * The type of a variable definition with the guard corrected to `size <= i`:
   * a definition with no matching right-hand expression has no type here.
   */
  function VarType(resolve: TypeRefExpr -> Option<Element>, o: VarDefinition, parent: VarParent): (r: Option<TypeNode>)
    ensures parent.ShortVarDecl? && o in parent.definitions && r.Some? ==>
              exists k :: 0 <= k < |parent.definitions| && k < |parent.expressions| &&
                          parent.definitions[k] == o && r == TypeOf(resolve, parent.expressions[k])
    ensures parent.ShortVarDecl? && o !in parent.definitions && |parent.expressions| <= |parent.definitions| ==>
              r == None
    ensures parent.OtherParent? ==> r == o.declaredType
  {
    match parent
    case ShortVarDecl(defs, exprs) =>
      var i := IndexOf(defs, o);
      if |exprs| <= i then None
      else
        assert o in defs ==> defs[i] == o;
        TypeOf(resolve, exprs[i])
    case OtherParent => o.declaredType
  }

  method GetVarTypeAsWritten(resolve: TypeRefExpr -> Option<Element>, o: VarDefinition, parent: VarParent)
    returns (r: Result<Option<TypeNode>, TypingError>)
    ensures r == VarTypeAsWritten(resolve, o, parent)
  {
    if parent.ShortVarDecl? {
      var i := DefinitionIndex(parent.definitions, o);
      var exprs := parent.expressions;
      if |exprs| < i {
        return Ok(None);
      }
      if i >= |exprs| {
        return Err(IndexOutOfBounds(i, |exprs|));
      }
      return Ok(TypeOf(resolve, exprs[i]));
    }
    return Ok(o.declaredType);
  }

  method GetVarType(resolve: TypeRefExpr -> Option<Element>, o: VarDefinition, parent: VarParent)
    returns (r: Option<TypeNode>)
    ensures r == VarType(resolve, o, parent)
  {
    if parent.ShortVarDecl? {
      var i := DefinitionIndex(parent.definitions, o);
      var exprs := parent.expressions;
      if |exprs| <= i {
        return None;
      }
      return TypeOf(resolve, exprs[i]);
    }
    return o.declaredType;
  }

  /**
   * The source fails exactly when the definition's position equals the
   * number of right-hand expressions; that includes the last name of
   * `a, b := f()`, and a definition missing from its own declaration.
   */
  lemma AsWrittenFailsExactlyAtSize(resolve: TypeRefExpr -> Option<Element>, o: VarDefinition, parent: VarParent)
    ensures VarTypeAsWritten(resolve, o, parent).Err? <==>
              parent.ShortVarDecl? && IndexOf(parent.definitions, o) == |parent.expressions|
  {
  }

  /** `a, b := f()`: typing `b` indexes past the single right-hand expression. */
  lemma AsWrittenFailsOnMultiValueCall(resolve: TypeRefExpr -> Option<Element>)
    ensures var a := VarDefinition(0, "a", None);
            var b := VarDefinition(1, "b", None);
            VarTypeAsWritten(resolve, b, ShortVarDecl([a, b], [OtherExpr("f()")])) == Err(IndexOutOfBounds(1, 1))
  {
  }

  /** Wherever the source does not fail, the corrected typing agrees with it. */
  lemma CorrectedAgreesWhereSourceSucceeds(resolve: TypeRefExpr -> Option<Element>, o: VarDefinition, parent: VarParent)
    ensures VarTypeAsWritten(resolve, o, parent).Ok? ==>
              VarTypeAsWritten(resolve, o, parent) == Ok(VarType(resolve, o, parent))
  {
  }

  /**
   * The k-th of distinct names in a short variable declaration takes the type
   * of the k-th right-hand expression when there is one, and no type
   * otherwise; a variable declared elsewhere has its declared type.
   */
  lemma VarTypeIsPositional(resolve: TypeRefExpr -> Option<Element>, defs: seq<VarDefinition>, exprs: seq<Expression>, k: nat)
    requires k < |defs|
    requires forall i, j :: 0 <= i < j < |defs| ==> defs[i] != defs[j]
    ensures k < |exprs| ==> VarType(resolve, defs[k], ShortVarDecl(defs, exprs)) == TypeOf(resolve, exprs[k])
    ensures |exprs| <= k ==> VarType(resolve, defs[k], ShortVarDecl(defs, exprs)) == None
    ensures forall o :: VarType(resolve, o, OtherParent) == o.declaredType
  {
  }

  // ---------------------------------------------------------------------------
  // Import strings

  /** A UTF-16 code unit: element text lengths and offsets count these. */
  newtype CodeUnit = x: int | 0 <= x < 0x1_0000

  /** The UTF-16 encoding of one character: one code unit, or a surrogate pair above the Basic Multilingual Plane. */
  function Utf16Char(c: char): (units: seq<CodeUnit>)
    ensures |units| == (if c as int < 0x1_0000 then 1 else 2)
  {
    var v := c as int;
    if v < 0x1_0000 then [v as CodeUnit]
    else
      var w := v - 0x1_0000;
      [(0xD800 + w / 0x400) as CodeUnit, (0xDC00 + w % 0x400) as CodeUnit]
  }

  /** The UTF-16 encoding of a string, as the text of an element is held. */
  function Utf16(s: string): seq<CodeUnit>
    decreases |s|
  {
    if |s| == 0 then [] else Utf16Char(s[0]) + Utf16(s[1..])
  }

  /** A text range `[startOffset, endOffset)` inside an element, in code units. */
  datatype TextRange = TextRange(startOffset: int, endOffset: int)

  /** `TextRange.from`: the range of `length` code units starting at `offset`. */
  function RangeFrom(offset: int, length: int): TextRange {
    TextRange(offset, offset + length)
  }

  /**
   * The range an import string's reference covers, given the string's text in
   * code units: inside the quotes, if the text is at least two code units long.
   */
  function ImportReferenceRange(text: seq<CodeUnit>): (r: Option<TextRange>)
    ensures r.None? <==> |text| < 2
    ensures r.Some? ==> r.value.startOffset == 1 && r.value.endOffset == |text| - 1
    ensures r.Some? ==> 0 <= r.value.startOffset <= r.value.endOffset <= |text|
  {
    if |text| < 2 then None else Some(RangeFrom(1, |text| - 2))
  }

  /** The range of a quoted import path covers exactly the path. */
  lemma ImportRangeIsThePath(open: CodeUnit, path: seq<CodeUnit>, close: CodeUnit)
    ensures var s := [open] + path + [close];
            var r := ImportReferenceRange(s);
            r.Some? && s[r.value.startOffset..r.value.endOffset] == path
  {
  }

  /**
   * Offsets count code units, not characters: a quoted character outside the
   * Basic Multilingual Plane spans offsets 1 to 3, and that character alone,
   * two code units long, still has a reference, with the empty range at 1.
   */
  lemma ImportRangeCountsCodeUnits()
    ensures ImportReferenceRange(Utf16("\"\U{1D538}\"")) == Some(TextRange(1, 3))
    ensures ImportReferenceRange(Utf16("\U{1D538}")) == Some(TextRange(1, 1))
  {
  }
}
