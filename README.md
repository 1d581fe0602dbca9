# Name resolution and expression typing of a Go IDE plugin, in Dafny

This project models two pieces of the Go language plugin's program-structure layer
and proves properties of the model:

- **Reference classification** of a Go identifier occurrence (`GoLiteralIdentifierImpl`):
  from the identifier's syntactic context, pick the resolution strategies that apply.
  The rules are tried in a fixed order and the first match wins: composite-literal key,
  function-or-type name, short variable declaration, selector, variable-or-constant,
  type name. For a composite-literal key and for a selector, the Go type involved is
  walked with a per-kind visitor that appends references to a shared list. The
  identifier also answers `isBlank`/`isNil`, reports its name and value, picks its use
  scope and stores an iota value.
- **Scope boundaries and expression typing** (`GoPsiImplUtil`):
  - whether `processDeclarations` walks a node's declarations or only hands the node
    itself to the processor;
  - the static type of unary expressions, composite literals and `new`/`make` calls;
  - the type of a variable declared by a short variable declaration;
  - the text range of an import string's reference.

Modules:

- `GoTypes` (go_types.dfy): the closed set of Go type kinds. It also defines the
  underlying type.
- `References` (references.dfy): the reference strategies, and the mutable list the
  visitors fill.
- `LiteralIdentifiers` (literal_identifier.dfy):
  - the classifier, as a pure function `Classify` plus its precedence lemmas;
  - the two visitors, as classes sharing one `ReferenceList`;
  - the identifier class, whose `DefineReferences` method builds the references
    imperatively and is proved equal to `Classify`.
- `PsiTree` (psi_tree.dfy): the syntax tree as an arena of parent links. Node `n`'s
  parent has a smaller index. It provides the non-strict ancestor test.
- `PsiImplUtil` (psi_impl_util.dfy): the scope-boundary decision, expression typing,
  short-variable typing (as written and corrected) and the import-string range.
- `Wrappers` (wrappers.dfy): `Option` and `Result`.

Inputs the modelled code takes from collaborators outside the model:

- The IntelliJ pattern matchers are not modelled. Each matcher's verdict is a field of
  `LiteralIdentifiers.Context` or `LiteralIdentifiers.DeclarationContext`.
- Type-reference resolution is not modelled. It is the `resolve` function parameter.
- A named Go type carries its `getUnderlyingType` result as payload:
  - `SelfUnderlying` means the method returns the named type object itself;
  - `Defined(u)` means it returns `u`.
  Every other kind is its own underlying type. Go types are finite datatype values, so
  recursive types such as `type T *T` cannot be expressed (see "## Left out").
- The default methods of `GoType.ForwardingVisitor`/`GoType.Second` are taken to do nothing, so a kind that a visitor does not handle adds no reference (the wildcard arms of the visitors).
- `GoTypes.visitFirstType` is taken to visit the first base type and to give the
  initial (empty) list when there is none.
- The `C` package is recognised by its import path `"C"`.

Behaviour of the modelled code worth knowing:

- `defineReferences` never consults `isBlank`/`isNil`, so `_` and `nil` are classified like any other identifier.
- A selector visits only the first of the base expression's types (`visitFirstType`).
- A unary expression has the type of its operand, unchanged.
- At a scope boundary the result is the processor's own verdict on the boundary node.

## Model

| member | source | states |
|---|---|---|
| `GoTypes.UnderlyingType` | src/ro/redeul/google/go/lang/psi/impl/expressions/literals/GoLiteralIdentifierImpl.java:194 | a named type's underlying type is its definition, or itself when it is its own underlying type; every other kind is its own underlying type |
| `References.ReferenceList.constructor` | src/ro/redeul/google/go/lang/psi/impl/expressions/literals/GoLiteralIdentifierImpl.java:143 | a visitor's list starts empty |
| `References.ReferenceList.Add` | src/ro/redeul/google/go/lang/psi/impl/expressions/literals/GoLiteralIdentifierImpl.java:147 | adding appends exactly one reference at the end |
| `LiteralIdentifiers.KeyReferences` | src/ro/redeul/google/go/lang/psi/impl/expressions/literals/GoLiteralIdentifierImpl.java:145-153 | what the composite-key visitor adds for one type: at most one reference, and one exactly for a struct or a map; the rest of its contract is in `CompositeKeyReferences` |
| `LiteralIdentifiers.CompositeKeyReferences` | src/ro/redeul/google/go/lang/psi/impl/expressions/literals/GoLiteralIdentifierImpl.java:141-157 | a composite key gets at most one reference: one struct-field reference for that struct when the underlying type is a struct, one typed-constant reference carrying the key type when it is a map, and none for any other kind |
| `LiteralIdentifiers.CompositeKeyVisitor.constructor` | src/ro/redeul/google/go/lang/psi/impl/expressions/literals/GoLiteralIdentifierImpl.java:142-144 | the visitor shares the list it is given |
| `LiteralIdentifiers.CompositeKeyVisitor.Visit` | src/ro/redeul/google/go/lang/psi/impl/expressions/literals/GoLiteralIdentifierImpl.java:145-155 | visiting appends the struct or map reference to the shared list and leaves the rest of it unchanged |
| `LiteralIdentifiers.SelectorReferences` | src/ro/redeul/google/go/lang/psi/impl/expressions/literals/GoLiteralIdentifierImpl.java:176-206 | what the selector visitor adds for a type, in order. Every reference is a struct-field reference to a struct, a method reference on a named or primitive type, an interface-method reference on a named type or a package-symbol reference, never one for package `C`. See also `SelectorThroughPointers`, `InterfaceMethodThenMethod` and `NamedTypeReferences` |
| `LiteralIdentifiers.VisitFirstType` | src/ro/redeul/google/go/lang/psi/impl/expressions/literals/GoLiteralIdentifierImpl.java:169-170 | only the first base type is visited: no base type gives nothing, otherwise exactly the selector references of the first type, so the types after it never contribute |
| `LiteralIdentifiers.SelectorVisitor.constructor` | src/ro/redeul/google/go/lang/psi/impl/expressions/literals/GoLiteralIdentifierImpl.java:170-172 | the visitor shares the list it is given |
| `LiteralIdentifiers.SelectorVisitor.Visit` | src/ro/redeul/google/go/lang/psi/impl/expressions/literals/GoLiteralIdentifierImpl.java:176-206 | visiting appends, in order, the selector references of the type to the shared list, re-entering itself for a pointer's target and for a named type's distinct non-named underlying type |
| `LiteralIdentifiers.SelectorThroughPointers` | src/ro/redeul/google/go/lang/psi/impl/expressions/literals/GoLiteralIdentifierImpl.java:177-179 | any number of pointers around a type add nothing and change nothing: the references are those of the pointee |
| `LiteralIdentifiers.InterfaceMethodThenMethod` | src/ro/redeul/google/go/lang/psi/impl/expressions/literals/GoLiteralIdentifierImpl.java:189-196 | every interface-method reference is immediately followed by the method reference for the same named type, through any depth of pointers and underlying types |
| `LiteralIdentifiers.NamedTypeReferences` | src/ro/redeul/google/go/lang/psi/impl/expressions/literals/GoLiteralIdentifierImpl.java:189-196 | a named type gives the interface-method reference and then the method reference; its underlying type's references follow exactly when that type is not a named type (itself included) |
| `LiteralIdentifiers.Classify` | src/ro/redeul/google/go/lang/psi/impl/expressions/literals/GoLiteralIdentifierImpl.java:131-219 | the rules tried in the source's order. It gives references only when some matcher accepts, and at most one for a composite key. Its precedence is stated by `ClassifyFollowsPrecedence`, `LaterRulesNeverConsulted` and `ClassifyCases` |
| `LiteralIdentifiers.FirstMatchIndex` | src/ro/redeul/google/go/lang/psi/impl/expressions/literals/GoLiteralIdentifierImpl.java:131-219 | the chosen position is the first rule that matches, or past the end when none does |
| `LiteralIdentifiers.ClassifyFollowsPrecedence` | src/ro/redeul/google/go/lang/psi/impl/expressions/literals/GoLiteralIdentifierImpl.java:131-219 | the classification is that of the first matching rule in the order composite key, function/type name, short var, selector, var-or-const, type name, and empty when none matches |
| `LiteralIdentifiers.LaterRulesNeverConsulted` | src/ro/redeul/google/go/lang/psi/impl/expressions/literals/GoLiteralIdentifierImpl.java:131-219 | once a rule matches first, the matchers after it cannot change the result |
| `LiteralIdentifiers.ClassifyCases` | src/ro/redeul/google/go/lang/psi/impl/expressions/literals/GoLiteralIdentifierImpl.java:131-219 | a composite key without an enclosing composite value gives nothing; var-or-const gives the var-or-const reference then the package reference; type name gives only the package reference; no match gives nothing |
| `LiteralIdentifiers.LiteralIdentifier.constructor` | src/ro/redeul/google/go/lang/psi/impl/expressions/literals/GoLiteralIdentifierImpl.java:74-81 | an identifier keeps its text and iota flag and has no iota value yet |
| `LiteralIdentifiers.LiteralIdentifier.Name` | src/ro/redeul/google/go/lang/psi/impl/expressions/literals/GoLiteralIdentifierImpl.java:109-113 | the identifier's text; stated by `NameAndValueAreText` |
| `LiteralIdentifiers.LiteralIdentifier.Value` | src/ro/redeul/google/go/lang/psi/impl/expressions/literals/GoLiteralIdentifierImpl.java:94-98 | the identifier's text; stated by `NameAndValueAreText` |
| `LiteralIdentifiers.LiteralIdentifier.NameAndValueAreText` | src/ro/redeul/google/go/lang/psi/impl/expressions/literals/GoLiteralIdentifierImpl.java:94-113 | the name and the value are both the identifier's text, unchanged |
| `LiteralIdentifiers.LiteralIdentifier.IsBlank` | src/ro/redeul/google/go/lang/psi/impl/expressions/literals/GoLiteralIdentifierImpl.java:83-86 | blank exactly when the name is `_` |
| `LiteralIdentifiers.LiteralIdentifier.IsNil` | src/ro/redeul/google/go/lang/psi/impl/expressions/literals/GoLiteralIdentifierImpl.java:91-92 | nil exactly when the name is `nil`, and then not blank |
| `LiteralIdentifiers.LiteralIdentifier.IotaValue` | src/ro/redeul/google/go/lang/psi/impl/expressions/literals/GoLiteralIdentifierImpl.java:259-262 | the stored iota value, none until one is set; the round trip is stated by `SetIotaValue` |
| `LiteralIdentifiers.LiteralIdentifier.SetIotaValue` | src/ro/redeul/google/go/lang/psi/impl/expressions/literals/GoLiteralIdentifierImpl.java:254-262 | after setting an iota value, reading it gives that value |
| `LiteralIdentifiers.LiteralIdentifier.SetName` | src/ro/redeul/google/go/lang/psi/impl/expressions/literals/GoLiteralIdentifierImpl.java:115-119 | renaming returns no element and changes nothing |
| `LiteralIdentifiers.LiteralIdentifier.UseScope` | src/ro/redeul/google/go/lang/psi/impl/expressions/literals/GoLiteralIdentifierImpl.java:235-252 | the global scope for the identifier's name exactly when it declares a global constant, a global variable, a function or a method; the local scope otherwise |
| `LiteralIdentifiers.LiteralIdentifier.DefineReferences` | src/ro/redeul/google/go/lang/psi/impl/expressions/literals/GoLiteralIdentifierImpl.java:121-220 | the references built with the visitors and their shared list are exactly the first-match classification |
| `PsiTree.IsAncestor` | src/com/goide/psi/impl/GoPsiImplUtil.java:63 | the non-strict ancestor test of `isAncestor(o, place, false)`: a node is its own ancestor, and so is each node on its parent chain. An ancestor never has a larger arena index than its descendant |
| `PsiTree.AncestorsAreOrdered` | src/com/goide/psi/impl/GoPsiImplUtil.java:63 | two ancestors of one node are on one chain |
| `PsiTree.SiblingSubtreesDisjoint` | src/com/goide/psi/impl/GoPsiImplUtil.java:63 | no node lies below two distinct siblings |
| `PsiImplUtil.IsScopeBoundary` | src/com/goide/psi/impl/GoPsiImplUtil.java:66-73 | exactly the eight kinds block, if, switch, for, comm clause, function literal, type case clause and expression case clause; files, declarations, simple statements, expressions and other nodes are not boundaries |
| `PsiImplUtil.ProcessDeclarations` | src/com/goide/psi/impl/GoPsiImplUtil.java:57-77 | the default walk when the node contains the place (non-strictly); otherwise the processor on the node alone exactly when the node is a block, if, switch, for, comm clause, function literal, type case clause or expression case clause; the default walk for any other kind |
| `PsiImplUtil.ProcessDeclarationsAtPlace` | src/com/goide/psi/impl/GoPsiImplUtil.java:63-64 | a node takes the default walk for a lookup at itself |
| `PsiImplUtil.SiblingBoundaryIsOpaque` | src/com/goide/psi/impl/GoPsiImplUtil.java:63-75 | a boundary node beside the subtree holding the place is seen only as a whole |
| `PsiImplUtil.LaterBoundaryIsOpaque` | src/com/goide/psi/impl/GoPsiImplUtil.java:63-75 | a boundary node with a larger arena index than the place is seen only as a whole |
| `PsiImplUtil.ResolveType` | src/com/goide/psi/impl/GoPsiImplUtil.java:152-158 | a type exactly when there is a reference and it resolves to a type spec, and then the spec's declared type |
| `PsiImplUtil.TypeOf` | src/com/goide/psi/impl/GoPsiImplUtil.java:128-150 | the static type of an expression by its shape. Any type it infers is the declared type of a type spec that some type reference resolves to. See also `TypeOfResolvesNamedTypeRef`, `UnaryIsTransparent` and `TypeOfCases` |
| `PsiImplUtil.TypeOfResolvesNamedTypeRef` | src/com/goide/psi/impl/GoPsiImplUtil.java:128-150 | an expression's type is the resolution of the type reference it names through its unary wrappers: a composite literal's type, or the type argument of `new`/`make` |
| `PsiImplUtil.UnaryIsTransparent` | src/com/goide/psi/impl/GoPsiImplUtil.java:130-133 | any stack of unary operators leaves the type of the operand unchanged |
| `PsiImplUtil.TypeOfCases` | src/com/goide/psi/impl/GoPsiImplUtil.java:128-150 | no type for a unary expression without operand, a builtin other than `new`/`make`, a builtin without type argument, or any other expression kind; `new(T)` and `make(T)` type as `T{}` |
| `PsiImplUtil.IndexOf` | src/com/goide/psi/impl/GoPsiImplUtil.java:164-169 | the position of the first definition equal to the variable, and the list length exactly when it is absent |
| `PsiImplUtil.IndexOfIsUnique` | src/com/goide/psi/impl/GoPsiImplUtil.java:164-169 | only one position has the first-occurrence properties |
| `PsiImplUtil.DefinitionIndex` | src/com/goide/psi/impl/GoPsiImplUtil.java:165-169 | the counting loop stops at the first equal definition, or the list length |
| `PsiImplUtil.VarTypeAsWritten` | src/com/goide/psi/impl/GoPsiImplUtil.java:160-175 | the source's typing of a variable definition. It fails only inside a short variable declaration, with an index equal to the number of right-hand expressions. A variable declared elsewhere has its declared type. See also `AsWrittenFailsExactlyAtSize` |
| `PsiImplUtil.VarType` | src/com/goide/psi/impl/GoPsiImplUtil.java:160-175 | the corrected typing. A definition listed in its short variable declaration gets a type only from the right-hand expression at its own position. An absent one gets none when there are no more expressions than names. A variable declared elsewhere has its declared type. See also `VarTypeIsPositional` |
| `PsiImplUtil.GetVarTypeAsWritten` | src/com/goide/psi/impl/GoPsiImplUtil.java:160-175 | the source's typing of a variable definition, including the failing `get(i)` when the index equals the number of expressions |
| `PsiImplUtil.GetVarType` | src/com/goide/psi/impl/GoPsiImplUtil.java:160-175 | the corrected typing: the matching right-hand expression's type, none when there is none, and the declared type outside a short variable declaration |
| `PsiImplUtil.AsWrittenFailsExactlyAtSize` | src/com/goide/psi/impl/GoPsiImplUtil.java:170-172 | the source fails exactly when the definition's index equals the number of right-hand expressions |
| `PsiImplUtil.AsWrittenFailsOnMultiValueCall` | src/com/goide/psi/impl/GoPsiImplUtil.java:171-172 | typing `b` in `a, b := f()` indexes past the end |
| `PsiImplUtil.CorrectedAgreesWhereSourceSucceeds` | src/com/goide/psi/impl/GoPsiImplUtil.java:170-172 | where the source does not fail, the corrected typing gives the same result |
| `PsiImplUtil.VarTypeIsPositional` | src/com/goide/psi/impl/GoPsiImplUtil.java:160-175 | the k-th of distinct names takes the k-th expression's type or none; a variable declared elsewhere has its declared type |
| `PsiImplUtil.Utf16Char` | src/com/goide/psi/impl/GoPsiImplUtil.java:43 | a character takes one UTF-16 code unit inside the Basic Multilingual Plane and two outside it, the units the text length counts |
| `PsiImplUtil.ImportReferenceRange` | src/com/goide/psi/impl/GoPsiImplUtil.java:41-45 | no reference when the text is under two code units; otherwise the range from 1 to length-1, within the text |
| `PsiImplUtil.ImportRangeIsThePath` | src/com/goide/psi/impl/GoPsiImplUtil.java:43-44 | the range of a quoted import path covers exactly the path |
| `PsiImplUtil.ImportRangeCountsCodeUnits` | src/com/goide/psi/impl/GoPsiImplUtil.java:43-44 | offsets count code units: a quoted character outside the Basic Multilingual Plane spans 1 to 3, and that character alone still has a reference, with the empty range at 1 |

## Left out

- Lookup-element creation (`createFunctionOrMethodLookupElement`, `createTypeLookupElement`, `createVariableLikeLookupElement`, `createImportLookupElement`, `createDirectoryLookupElement`): icons, insert handlers and completion priorities are editor UI.
- The IntelliJ pattern matchers (`INSIDE_COMPOSITE_KEY`, `SELECTOR_MATCHER`, `FunctionOrTypeNameReference.MATCHER`, `ShortVarReference.SHORT_VAR_DECLARATION`, `VarOrConstReference.MATCHER`, `insideStarting`, `GoElementPatterns.*`): their verdicts are inputs.
- The references' own `resolve` logic, `precessDeclarationDefault`, `GoNamedElementImpl.getType`, `GoTypeName.getUnderlyingType` and `GoTypes.visitFirstType`: their code is not part of this model. They are a parameter, a stated assumption, or a datatype payload.
- The `SearchScope` contents of `getGlobalElementSearchScope`/`getLocalElementSearchScope`: only the choice between them is modelled.
- PsiImplUtil.ProcessDeclarations: gives which collaborator runs, not the boolean it returns. Both collaborators are outside this model, and their boolean is passed back unchanged.
- Trivial getters and plumbing are not modelled, because each only returns a field or delegates to a collaborator:
  - `getQualifier` (both) and `getReference` of type-reference and reference expressions;
  - `getGoType(GoReceiver)`, `accept`, the identifier's `getType` (which returns `Type.Identifier`), `getNameIdentifier` and `isIota`;
  - the identifier's own `processDeclarations`, which hands itself to the processor.
- Null-pointer failures on shapes the code assumes are present are not modelled. Three shapes are assumed present:
  - a composite value without a type;
  - a selector without a base expression;
  - a composite literal without a literal type expression.
- LiteralIdentifiers.SelectorVisitor.Visit and LiteralIdentifiers.SelectorReferences: recursive Go types such as `type T *T` are not modelled. The selector visitor has no guard against cycles: it re-enters a named type's pointer underlying type (line 194) and then the pointer's target (line 178). For `x.f` with `x` of such a type, that can recurse without end if `getUnderlyingType`/`getTargetType` return the named type again. Finite datatype values cannot express these types, and the recursion's termination proof depends on that.
- Object identity: PSI elements are compared as values, and `GoPackages.C` is recognised by its import path.
- LiteralIdentifiers.LiteralIdentifier.SetIotaValue: the `BigInteger` iota value is an unbounded `int`; the argument is kept to the 32-bit range of a Java `int`.

## Findings

| source | as written | input that shows it | evidently intended | confidence | as-written member | corrected member |
|---|---|---|---|---|---|---|
| src/com/goide/psi/impl/GoPsiImplUtil.java:171-172 | returns null only when `exprs.size() < i`, then calls `exprs.get(i)`, which throws when `i == exprs.size()` | `a, b := f()`, typing `b`: its index is 1 and there is 1 expression | return null when `exprs.size() <= i` (no type when there is no matching expression) | high; not executed | `PsiImplUtil.AsWrittenFailsOnMultiValueCall` | `PsiImplUtil.GetVarType` |
