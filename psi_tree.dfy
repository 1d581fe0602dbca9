/**
 * The syntax tree as an arena: node `n` has a kind and the index of its parent,
 * which is smaller than `n` (or -1 for a root). Only the parent links and the
 * non-strict ancestor test that scope resolution needs are modelled.
 */
module PsiTree {

  datatype NodeKind =
    | File
    | Block
    | IfStatement
    | SwitchStatement
    | ForStatement
    | CommClause
    | FunctionLit
    | TypeCaseClause
    | ExprCaseClause
    | FunctionDeclaration
    | MethodDeclaration
    | ShortVarDeclaration
    | VarDeclaration
    | SimpleStatement
    | ExpressionNode
    | OtherNode

  datatype Tree = Tree(kinds: seq<NodeKind>, parents: seq<int>)

  /** Parents precede their children, so every upward walk ends. */
  predicate Valid(t: Tree) {
    |t.kinds| == |t.parents| &&
    forall n :: 0 <= n < |t.parents| ==> -1 <= t.parents[n] < n
  }

  predicate IsNode(t: Tree, n: int) {
    0 <= n < |t.kinds|
  }

  /**
   * `a` is `n` or one of the nodes above it (the non-strict test). An
   * ancestor never has a larger index than its descendant.
   */
  predicate IsAncestor(t: Tree, a: nat, n: nat): (b: bool)
    requires Valid(t) && IsNode(t, n)
    ensures b ==> a <= n
    decreases n
  {
    a == n || (t.parents[n] >= 0 && IsAncestor(t, a, t.parents[n]))
  }

  /** Two ancestors of the same node lie on one chain: one is an ancestor of the other. */
  lemma {:induction false} AncestorsAreOrdered(t: Tree, a: nat, b: nat, n: nat)
    requires Valid(t) && IsNode(t, n)
    requires IsAncestor(t, a, n) && IsAncestor(t, b, n)
    ensures IsNode(t, a) && IsNode(t, b)
    ensures IsAncestor(t, a, b) || IsAncestor(t, b, a)
    decreases n
  {
    if a != n && b != n {
      AncestorsAreOrdered(t, a, b, t.parents[n]);
    }
  }

  /**
   * Of two distinct children of one parent, neither is an ancestor of a node
   * below the other: sibling subtrees are disjoint.
   */
  lemma SiblingSubtreesDisjoint(t: Tree, s: nat, o: nat, n: nat)
    requires Valid(t) && IsNode(t, n) && IsNode(t, s) && IsNode(t, o)
    requires s != o && t.parents[s] == t.parents[o] && t.parents[s] >= 0
    requires IsAncestor(t, s, n)
    ensures !IsAncestor(t, o, n)
  {
    if IsAncestor(t, o, n) {
      AncestorsAreOrdered(t, o, s, n);
    }
  }
}
