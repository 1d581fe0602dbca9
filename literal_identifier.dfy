/**
 * Reference classification for a Go identifier occurrence
 * (`GoLiteralIdentifierImpl`): which resolution strategies apply to an
 * identifier, decided from its syntactic context, and the identifier's own
 * small queries and its iota value.
 *
 * The pattern matchers that inspect the identifier's surroundings are not
 * part of this model: each one's verdict is a field of `Context`.
 */
module LiteralIdentifiers {
  import opened Wrappers
  import opened GoTypes
  import opened References

  /** A Java `int`, the argument type of `setIotaValue`. */
  newtype Int32 = x: int | -0x8000_0000 <= x < 0x8000_0000

  /** What the syntactic matchers report about the identifier's position. */
  datatype Context = Context(
    // the identifier is the key expression of a composite-literal element
    insideCompositeKey: bool,
    // the type of the nearest enclosing composite value, if there is one
    enclosingCompositeValue: Option<GoType>,
    // the function-or-type-name matcher accepts the identifier
    functionOrTypeName: bool,
    // the identifier is declared by a short variable declaration
    shortVarDeclaration: bool,
    // when the parent is a selector expression: the types of its base expression
    selectorBase: Option<seq<GoType>>,
    // the var-or-const matcher accepts the identifier
    varOrConst: bool,
    // the identifier starts a type name
    insideTypeName: bool)

  /** The matchers `getUseScope` consults. */
  datatype DeclarationContext = DeclarationContext(
    globalConstDecl: bool,
    globalVarDecl: bool,
    functionDeclaration: bool,
    methodDeclaration: bool)

  /** Which search scope `getUseScope` builds: the global one for a name, or the local one. */
  datatype SearchScopeChoice = GlobalScope(name: string) | LocalScope

  // ---------------------------------------------------------------------------
  // Composite-literal keys

  /** What the composite-key visitor adds for one visited type: something only for a struct or a map. */
  function KeyReferences(u: GoType): (refs: seq<Reference>)
    ensures |refs| <= 1
    ensures refs != [] <==> u.Struct? || u.Map?
  {
    match u
    case Struct(_) => [StructFieldReference(u)]
    case Map(key, _) => [TypedConstReference(key)]
    case _ => []
  }

  /**
   * The references of an identifier used as a composite-literal key whose
   * enclosing composite value has type `enclosing`: the key visitor run on
   * the underlying type of `enclosing`.
   */
  function CompositeKeyReferences(enclosing: GoType): (refs: seq<Reference>)
    ensures |refs| <= 1
    ensures UnderlyingType(enclosing).Struct? ==>
              refs == [StructFieldReference(UnderlyingType(enclosing))]
    ensures UnderlyingType(enclosing).Map? ==>
              refs == [TypedConstReference(UnderlyingType(enclosing).keyType)]
    ensures refs != [] <==> UnderlyingType(enclosing).Struct? || UnderlyingType(enclosing).Map?
  {
    KeyReferences(UnderlyingType(enclosing))
  }

  // ---------------------------------------------------------------------------
  // Selectors

  /**
   * What the selector visitor adds, in order, when it visits `t`: a pointer
   * is looked through, a package other than `C` offers its symbols, a named
   * type offers interface methods then methods and also its underlying type
   * when that is neither itself nor another named type, a primitive offers
   * methods and a struct its fields.
   */
  function SelectorReferences(t: GoType): (refs: seq<Reference>)
    ensures forall r :: r in refs ==> SelectorKind(r)
    decreases t
  {
    match t
    case Pointer(target) => SelectorReferences(target)
    case Package(pkg) => if pkg != CPackage then [PackageSymbolReference(pkg)] else []
    case Name(_, definition) =>
      [InterfaceMethodReference(t), MethodReference(t)]
      + (match definition
         case SelfUnderlying => []
         case Defined(u) => if !u.Name? then SelectorReferences(u) else [])
    case Primitive(_) => [MethodReference(t)]
    case Struct(_) => [StructFieldReference(t)]
    case _ => []
  }

  /**
   * The selector visitor applied to the first of the base expression's types,
   * if any: the types after the first never contribute.
   */
  function VisitFirstType(types: seq<GoType>): (refs: seq<Reference>)
    ensures |types| == 0 ==> refs == []
    ensures |types| > 0 ==> refs == SelectorReferences(types[0])
    ensures forall r :: r in refs ==> SelectorKind(r)
  {
    if |types| == 0 then [] else SelectorReferences(types[0])
  }

  /**
   * The kinds of reference a selector can produce, each with its proper
   * payload: never a symbol of the `C` package.
   */
  predicate SelectorKind(r: Reference) {
    match r
    case StructFieldReference(s) => s.Struct?
    case MethodReference(receiver) => receiver.Name? || receiver.Primitive?
    case InterfaceMethodReference(named) => named.Name?
    case PackageSymbolReference(pkg) => pkg != CPackage
    case _ => false
  }

  /** Looking through any number of pointers changes nothing. */
  lemma {:induction false} SelectorThroughPointers(n: nat, t: GoType)
    ensures SelectorReferences(Pointers(n, t)) == SelectorReferences(t)
    decreases n
  {
    if n > 0 {
      SelectorThroughPointers(n - 1, t);
    }
  }

  /**
   * Every interface-method reference is immediately followed by the method
   * reference for the same named type.
   */
  lemma {:induction false} InterfaceMethodThenMethod(t: GoType)
    ensures forall i :: 0 <= i < |SelectorReferences(t)| && SelectorReferences(t)[i].InterfaceMethodReference? ==>
              i + 1 < |SelectorReferences(t)| &&
              SelectorReferences(t)[i + 1] == MethodReference(SelectorReferences(t)[i].namedType)
    decreases t
  {
    match t
    case Pointer(target) => InterfaceMethodThenMethod(target);
    case Name(_, Defined(u)) =>
      if !u.Name? {
        InterfaceMethodThenMethod(u);
        var rest := SelectorReferences(u);
        assert SelectorReferences(t) == [InterfaceMethodReference(t), MethodReference(t)] + rest;
        forall i | 2 <= i < |SelectorReferences(t)|
          ensures SelectorReferences(t)[i] == rest[i - 2]
        {
        }
      }
    case _ =>
  }

  /**
   * A named type first offers its interface methods and then its methods;
   * nothing follows unless its underlying type is a distinct, non-named type,
   * whose own references then follow.
   */
  lemma NamedTypeReferences(t: GoType)
    requires t.Name?
    ensures SelectorReferences(t)[..2] == [InterfaceMethodReference(t), MethodReference(t)]
    ensures UnderlyingType(t).Name? ==> SelectorReferences(t) == [InterfaceMethodReference(t), MethodReference(t)]
    ensures !UnderlyingType(t).Name? ==>
              SelectorReferences(t) == [InterfaceMethodReference(t), MethodReference(t)] + SelectorReferences(UnderlyingType(t))
  {
  }

  // ---------------------------------------------------------------------------
  // Precedence of the classification rules

  datatype Rule =
    | CompositeKeyRule
    | FunctionOrTypeNameRule
    | ShortVarRule
    | SelectorRule
    | VarOrConstRule
    | TypeNameRule

  /** The rules in the order they are tried. */
  const Precedence: seq<Rule> :=
    [CompositeKeyRule, FunctionOrTypeNameRule, ShortVarRule, SelectorRule, VarOrConstRule, TypeNameRule]

  /** Whether a rule's matcher accepts the identifier. */
  predicate Matches(ctx: Context, rule: Rule) {
    match rule
    case CompositeKeyRule => ctx.insideCompositeKey
    case FunctionOrTypeNameRule => ctx.functionOrTypeName
    case ShortVarRule => ctx.shortVarDeclaration
    case SelectorRule => ctx.selectorBase.Some?
    case VarOrConstRule => ctx.varOrConst
    case TypeNameRule => ctx.insideTypeName
  }

  /** The references a rule produces once it has been chosen. */
  function RuleReferences(ctx: Context, rule: Rule): seq<Reference> {
    match rule
    case CompositeKeyRule =>
      (match ctx.enclosingCompositeValue
       case None => []
       case Some(t) => CompositeKeyReferences(t))
    case FunctionOrTypeNameRule => [FunctionOrTypeNameReference]
    case ShortVarRule => [ShortVarReference]
    case SelectorRule =>
      (match ctx.selectorBase
       case None => []
       case Some(types) => VisitFirstType(types))
    case VarOrConstRule => [VarOrConstReference, PackageReference]
    case TypeNameRule => [PackageReference]
  }

  /** The position of the first rule in `rules` that matches, or `|rules|` if none does. */
  function FirstMatchIndex(ctx: Context, rules: seq<Rule>): (k: nat)
    ensures k <= |rules|
    ensures k < |rules| ==> Matches(ctx, rules[k])
    ensures forall j :: 0 <= j < k ==> !Matches(ctx, rules[j])
    decreases |rules|
  {
    if |rules| == 0 then 0
    else if Matches(ctx, rules[0]) then 0
    else 1 + FirstMatchIndex(ctx, rules[1..])
  }

  /**
   * The classifier as the source writes it: the rules tried one after the
   * other. It gives references only when some rule matches, and at most one
   * for a composite key.
   */
  function Classify(ctx: Context): (refs: seq<Reference>)
    ensures refs != [] ==>
              ctx.insideCompositeKey || ctx.functionOrTypeName || ctx.shortVarDeclaration ||
              ctx.selectorBase.Some? || ctx.varOrConst || ctx.insideTypeName
    ensures ctx.insideCompositeKey ==> |refs| <= 1
  {
    if ctx.insideCompositeKey then
      match ctx.enclosingCompositeValue
      case None => []
      case Some(t) => CompositeKeyReferences(t)
    else if ctx.functionOrTypeName then [FunctionOrTypeNameReference]
    else if ctx.shortVarDeclaration then [ShortVarReference]
    else if ctx.selectorBase.Some? then VisitFirstType(ctx.selectorBase.value)
    else if ctx.varOrConst then [VarOrConstReference, PackageReference]
    else if ctx.insideTypeName then [PackageReference]
    else []
  }

  /** The classifier's result is that of the first matching rule in precedence order, or empty. */
  lemma ClassifyFollowsPrecedence(ctx: Context)
    ensures FirstMatchIndex(ctx, Precedence) < |Precedence| ==>
              Classify(ctx) == RuleReferences(ctx, Precedence[FirstMatchIndex(ctx, Precedence)])
    ensures FirstMatchIndex(ctx, Precedence) == |Precedence| ==> Classify(ctx) == []
  {
  }

  /**
   * Once a rule matches, the rules after it are never consulted: when rule
   * `k` is the first to match, any context that agrees on the rules up to
   * and including `k`, and on rule `k`'s references, classifies alike.
   */
  lemma LaterRulesNeverConsulted(ctx: Context, other: Context, k: nat)
    requires k < |Precedence| && Matches(ctx, Precedence[k])
    requires forall j :: 0 <= j < k ==> !Matches(ctx, Precedence[j])
    requires forall j :: 0 <= j <= k ==> Matches(other, Precedence[j]) == Matches(ctx, Precedence[j])
    requires RuleReferences(other, Precedence[k]) == RuleReferences(ctx, Precedence[k])
    ensures Classify(other) == Classify(ctx)
  {
    ClassifyFollowsPrecedence(ctx);
    ClassifyFollowsPrecedence(other);
    var a := FirstMatchIndex(ctx, Precedence);
    var b := FirstMatchIndex(other, Precedence);
    assert a == k;
    assert Matches(other, Precedence[k]);
    assert b == k;
  }

  /**
   * The classifications by context: a composite key with no enclosing
   * composite value, and no matching rule at all, give nothing; a var-or-const
   * position gives the variable-or-constant reference and then the package
   * reference; a type-name position gives only the package reference.
   */
  lemma ClassifyCases(ctx: Context)
    ensures ctx.insideCompositeKey && ctx.enclosingCompositeValue.None? ==> Classify(ctx) == []
    ensures (forall rule :: !Matches(ctx, rule)) ==> Classify(ctx) == []
    ensures (forall rule :: rule != VarOrConstRule && Matches(ctx, rule) ==> rule == TypeNameRule) && ctx.varOrConst ==>
              Classify(ctx) == [VarOrConstReference, PackageReference]
    ensures (forall rule :: rule != TypeNameRule ==> !Matches(ctx, rule)) && ctx.insideTypeName ==>
              Classify(ctx) == [PackageReference]
  {
    if forall rule :: !Matches(ctx, rule) {
      assert !Matches(ctx, CompositeKeyRule) && !Matches(ctx, FunctionOrTypeNameRule) && !Matches(ctx, ShortVarRule);
      assert !Matches(ctx, SelectorRule) && !Matches(ctx, VarOrConstRule) && !Matches(ctx, TypeNameRule);
    }
    if (forall rule :: rule != VarOrConstRule && Matches(ctx, rule) ==> rule == TypeNameRule) && ctx.varOrConst {
      assert !Matches(ctx, CompositeKeyRule) && !Matches(ctx, FunctionOrTypeNameRule);
      assert !Matches(ctx, ShortVarRule) && !Matches(ctx, SelectorRule);
    }
    if (forall rule :: rule != TypeNameRule ==> !Matches(ctx, rule)) && ctx.insideTypeName {
      assert !Matches(ctx, CompositeKeyRule) && !Matches(ctx, FunctionOrTypeNameRule) && !Matches(ctx, ShortVarRule);
      assert !Matches(ctx, SelectorRule) && !Matches(ctx, VarOrConstRule);
    }
  }

  // ---------------------------------------------------------------------------
  // The visitors, filling a shared list in place

  /** The composite-key visitor: adds a field reference for a struct, a typed-constant reference for a map. */
  class CompositeKeyVisitor {
    const data: ReferenceList

    constructor (data: ReferenceList)
      ensures this.data == data
    {
      this.data := data;
    }

    method Visit(u: GoType)
      modifies data
      ensures data.items == old(data.items) + KeyReferences(u)
    {
      match u
      case Struct(_) => data.Add(StructFieldReference(u));
      case Map(key, _) => data.Add(TypedConstReference(key));
      case _ =>
    }
  }

  /** The selector visitor: re-enters itself for a pointer's target and a named type's underlying type. */
  class SelectorVisitor {
    const data: ReferenceList

    constructor (data: ReferenceList)
      ensures this.data == data
    {
      this.data := data;
    }

    method Visit(t: GoType)
      modifies data
      ensures data.items == old(data.items) + SelectorReferences(t)
      decreases t
    {
      match t
      case Pointer(target) =>
        Visit(target);
      case Package(pkg) =>
        if pkg != CPackage {
          data.Add(PackageSymbolReference(pkg));
        }
      case Name(_, definition) =>
        data.Add(InterfaceMethodReference(t));
        data.Add(MethodReference(t));
        if definition.Defined? && !definition.underlying.Name? {
          Visit(definition.underlying);
        }
      case Primitive(_) =>
        data.Add(MethodReference(t));
      case Struct(_) =>
        data.Add(StructFieldReference(t));
      case _ =>
    }
  }

  // ---------------------------------------------------------------------------
  // The identifier

  class LiteralIdentifier {
    const text: string
    const isIota: bool
    var iotaValue: Option<int>

    constructor (text: string, isIota: bool)
      ensures this.text == text && this.isIota == isIota && iotaValue == None
    {
      this.text := text;
      this.isIota := isIota;
      iotaValue := None;
    }

    /** The identifier's name: its text. */
    function Name(): string {
      text
    }

    /** The identifier's value: its text. */
    function Value(): string {
      text
    }

    /** Name and value are both the identifier's text, unchanged. */
    lemma NameAndValueAreText()
      ensures Name() == text && Value() == text && Name() == Value()
    {
    }

    /** The blank identifier `_`. */
    function IsBlank(): (b: bool)
      ensures b <==> Name() == "_"
      ensures b ==> |text| == 1
    {
      text == "_"
    }

    /** The predeclared `nil`. */
    function IsNil(): (b: bool)
      ensures b <==> Name() == "nil"
      ensures b ==> !IsBlank()
    {
      text == "nil"
    }

    /** The iota value last set, if any. */
    function IotaValue(): Option<int>
      reads this
    {
      iotaValue
    }

    method SetIotaValue(value: Int32)
      modifies this
      ensures IotaValue() == Some(value as int)
    {
      iotaValue := Some(value as int);
    }

    /** Renaming is not supported: nothing changes and no element is returned. */
    method SetName(name: string) returns (r: Option<LiteralIdentifier>)
      ensures r == None
    {
      r := None;
    }

    /** Which search scope the identifier's uses are looked up in. */
    function UseScope(decl: DeclarationContext): (s: SearchScopeChoice)
      ensures s.GlobalScope? <==>
                decl.globalConstDecl || decl.globalVarDecl || decl.functionDeclaration || decl.methodDeclaration
      ensures s.GlobalScope? ==> s.name == Name()
    {
      if decl.globalConstDecl || decl.globalVarDecl || decl.functionDeclaration || decl.methodDeclaration then
        GlobalScope(Name())
      else
        LocalScope
    }

    /** The references of this identifier in context `ctx`, built with the visitors. */
    method DefineReferences(ctx: Context) returns (refs: seq<Reference>)
      ensures refs == Classify(ctx)
    {
      if ctx.insideCompositeKey {
        if ctx.enclosingCompositeValue.None? {
          return [];
        }
        var data := new ReferenceList();
        var visitor := new CompositeKeyVisitor(data);
        visitor.Visit(UnderlyingType(ctx.enclosingCompositeValue.value));
        return data.items;
      }
      if ctx.functionOrTypeName {
        return [FunctionOrTypeNameReference];
      }
      if ctx.shortVarDeclaration {
        return [ShortVarReference];
      }
      if ctx.selectorBase.Some? {
        var baseTypes := ctx.selectorBase.value;
        var data := new ReferenceList();
        var visitor := new SelectorVisitor(data);
        if |baseTypes| > 0 {
          visitor.Visit(baseTypes[0]);
        }
        return data.items;
      }
      if ctx.varOrConst {
        return [VarOrConstReference, PackageReference];
      }
      if ctx.insideTypeName {
        return [PackageReference];
      }
      return [];
    }
  }
}
