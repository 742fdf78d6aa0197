/**
  The part of clang's `Stmt` hierarchy that the parent map relies on: a
  statement class (the `getStmtClass()` discriminant), an ordered sequence of
  child slots each of which may be empty, and the accessors `getCond`,
  `getTarget`, `getLHS`/`getRHS` and `getOpcode`.

  Statements are objects: the parent map is keyed by node identity, so two
  structurally equal nodes are different keys.  Their fields never change
  after construction.  The ghost `height` is a termination measure; a node is
  `WellFounded` when every child sits strictly lower, which rules out cycles,
  and a `Tree` when moreover no node is shared between two child slots.
 */
module Ast {

  /** `BinaryOperator::Opcode`. */
  datatype Opcode =
    | PtrMemD | PtrMemI
    | Mul | Div | Rem | Add | Sub | Shl | Shr
    | LT | GT | LE | GE | EQ | NE
    | And | Xor | Or | LAnd | LOr
    | Assign | MulAssign | DivAssign | RemAssign | AddAssign | SubAssign
    | ShlAssign | ShrAssign | AndAssign | XorAssign | OrAssign
    | Comma

  /** `Stmt::StmtClass`; the two binary-operator classes carry their opcode. */
  datatype StmtClass =
      // statements
    | NullStmt | CompoundStmt | CaseStmt | DefaultStmt | LabelStmt
    | IfStmt | SwitchStmt | WhileStmt | DoStmt | ForStmt
    | GotoStmt | IndirectGotoStmt | ContinueStmt | BreakStmt
    | ReturnStmt | DeclStmt
      // expressions
    | DeclRefExpr | IntegerLiteral | StringLiteral | ParenExpr
    | UnaryOperator | ArraySubscriptExpr | CallExpr | MemberExpr
    | ConditionalOperator
    | BinaryOperator(opcode: Opcode)
    | CompoundAssignOperator(opcode: Opcode)
      // the `CastExpr` family
    | ImplicitCastExpr | CStyleCastExpr
    | CXXStaticCastExpr | CXXDynamicCastExpr | CXXReinterpretCastExpr
    | CXXConstCastExpr | CXXFunctionalCastExpr
  {
    /** `isa<CastExpr>`: one of the classes derived from `CastExpr`. */
    predicate IsCast()
    {
      || ImplicitCastExpr? || CStyleCastExpr?
      || CXXStaticCastExpr? || CXXDynamicCastExpr? || CXXReinterpretCastExpr?
      || CXXConstCastExpr? || CXXFunctionalCastExpr?
    }

    /** `isa<Expr>`: an expression rather than a plain statement. */
    predicate IsExpr()
    {
      || DeclRefExpr? || IntegerLiteral? || StringLiteral? || ParenExpr?
      || UnaryOperator? || ArraySubscriptExpr? || CallExpr? || MemberExpr?
      || ConditionalOperator? || BinaryOperator? || CompoundAssignOperator?
      || IsCast()
    }

    /** `isa<ParenExpr> || isa<CastExpr>`: the wrappers the consumed-value query looks through. */
    predicate IsParenOrCast()
    {
      ParenExpr? || IsCast()
    }

    /** The classes that have a `getCond()` accessor. */
    predicate HasCond()
    {
      IfStmt? || SwitchStmt? || WhileStmt? || DoStmt? || ForStmt?
    }

    /**
      Child slot of the condition, following the layout of the sub-statement
      arrays: `IfStmt` {COND, THEN, ELSE}, `SwitchStmt` {COND, BODY},
      `WhileStmt` {COND, BODY}, `DoStmt` {BODY, COND},
      `ForStmt` {INIT, COND, INC, BODY}.
     */
    function CondSlot(): nat
      requires HasCond()
    {
      if DoStmt? || ForStmt? then 1 else 0
    }
  }

  /** `BinaryOperator` keeps {LHS, RHS}; `IndirectGotoStmt` keeps its target as its only child. */
  const LhsSlot: nat := 0
  const RhsSlot: nat := 1
  const TargetSlot: nat := 0

  class Stmt {
    const kind: StmtClass
    const children: seq<Stmt?>
    ghost const height: nat

    constructor (kind: StmtClass, children: seq<Stmt?>)
      requires forall i :: 0 <= i < |children| && children[i] != null ==> WellFounded(children[i])
      ensures this.kind == kind && this.children == children
      ensures WellFounded(this)
    {
      this.kind := kind;
      this.children := children;
      this.height := MaxHeight(children) + 1;
    }

    /** The child in slot `i`, or null when the slot is empty or missing. */
    function Slot(i: nat): Stmt?
    {
      if i < |children| then children[i] else null
    }

    /** `getCond()` of an if, switch, while, do or for statement. */
    function GetCond(): Stmt?
      requires kind.HasCond()
    {
      Slot(kind.CondSlot())
    }

    /** `IndirectGotoStmt::getTarget()`. */
    function GetTarget(): Stmt?
      requires kind.IndirectGotoStmt?
    {
      Slot(TargetSlot)
    }

    /** `BinaryOperator::getLHS()`. */
    function GetLHS(): Stmt?
      requires kind.BinaryOperator?
    {
      Slot(LhsSlot)
    }

    /** `BinaryOperator::getRHS()`. */
    function GetRHS(): Stmt?
      requires kind.BinaryOperator?
    {
      Slot(RhsSlot)
    }

    /** `BinaryOperator::getOpcode()`. */
    function GetOpcode(): Opcode
      requires kind.BinaryOperator?
    {
      kind.opcode
    }
  }

  /** The largest height among the present children (0 when there are none). */
  ghost function MaxHeight(cs: seq<Stmt?>): (h: nat)
    ensures forall i :: 0 <= i < |cs| && cs[i] != null ==> cs[i].height <= h
  {
    if cs == [] then 0
    else
      var rest := MaxHeight(cs[1..]);
      assert forall i :: 1 <= i < |cs| ==> cs[i] == cs[1..][i - 1];
      if cs[0] != null && cs[0].height > rest then cs[0].height else rest
  }

  /** Every present child lies strictly lower, recursively: there is no cycle. */
  ghost predicate WellFounded(s: Stmt)
    decreases s.height
  {
    forall i :: 0 <= i < |s.children| && s.children[i] != null ==>
      s.children[i].height < s.height && WellFounded(s.children[i])
  }

  /** The nodes reachable from `s` through present child slots, `s` included. */
  ghost function Nodes(s: Stmt): set<Stmt>
    requires WellFounded(s)
    decreases s.height, 1, 0
  {
    {s} + Below(s, 0)
  }

  /** The nodes reachable through the child slots `i..` of `s`. */
  ghost function Below(s: Stmt, i: nat): set<Stmt>
    requires WellFounded(s) && i <= |s.children|
    decreases s.height, 0, |s.children| - i
  {
    if i == |s.children| then {}
    else if s.children[i] == null then Below(s, i + 1)
    else Nodes(s.children[i]) + Below(s, i + 1)
  }

  /** No cycle, and no node is reachable through two different child slots. */
  ghost predicate Tree(s: Stmt)
    decreases s.height
  {
    && WellFounded(s)
    && (forall i, j :: 0 <= i < j < |s.children| && s.children[i] != null && s.children[j] != null ==>
          Nodes(s.children[i]) !! Nodes(s.children[j]))
    && (forall i :: 0 <= i < |s.children| && s.children[i] != null ==> Tree(s.children[i]))
  }

  /** Every node below `s` is well founded and lies strictly lower than `s`. */
  lemma {:induction false} NodesBelow(s: Stmt)
    requires WellFounded(s)
    ensures forall x :: x in Nodes(s) ==> WellFounded(x) && x.height <= s.height
    ensures forall x :: x in Below(s, 0) ==> x.height < s.height
    ensures s !in Below(s, 0)
    decreases s.height, 1, 0
  {
    BelowBelow(s, 0);
  }

  lemma {:induction false} BelowBelow(s: Stmt, i: nat)
    requires WellFounded(s) && i <= |s.children|
    ensures forall x :: x in Below(s, i) ==> WellFounded(x) && x.height < s.height
    decreases s.height, 0, |s.children| - i
  {
    if i < |s.children| {
      BelowBelow(s, i + 1);
      var c := s.children[i];
      if c != null {
        NodesBelow(c);
      }
    }
  }

  /** `Below(s, i)` is exactly the union of the subtrees hanging from slots `i..`. */
  lemma {:induction false} BelowMembers(s: Stmt, i: nat, x: Stmt)
    requires WellFounded(s) && i <= |s.children|
    ensures x in Below(s, i) <==>
      exists j :: i <= j < |s.children| && s.children[j] != null && x in Nodes(s.children[j])
    decreases |s.children| - i
  {
    if i < |s.children| {
      BelowMembers(s, i + 1, x);
    }
  }

  /** A present child of a node reachable from `s` is itself reachable from `s`. */
  lemma {:induction false} NodesClosed(s: Stmt, p: Stmt, k: nat)
    requires WellFounded(s) && p in Nodes(s)
    requires k < |p.children| && p.children[k] != null
    ensures WellFounded(p) && p.children[k] in Nodes(s)
    decreases s.height
  {
    NodesBelow(s);
    if p == s {
      BelowMembers(s, 0, p.children[k]);
      assert p.children[k] in Nodes(p.children[k]);
    } else {
      BelowMembers(s, 0, p);
      var j :| 0 <= j < |s.children| && s.children[j] != null && p in Nodes(s.children[j]);
      NodesClosed(s.children[j], p, k);
      BelowMembers(s, 0, p.children[k]);
    }
  }

  /** In a tree, the subtree of slot `i` shares no node with the slots after it. */
  lemma {:induction false} SlotDisjointFromLater(s: Stmt, i: nat, k: nat)
    requires Tree(s) && i < k <= |s.children| && s.children[i] != null
    ensures Nodes(s.children[i]) !! Below(s, k)
    decreases |s.children| - k
  {
    if k < |s.children| {
      SlotDisjointFromLater(s, i, k + 1);
    }
  }

  /** Every node reachable from the root of a tree is itself the root of a tree. */
  lemma {:induction false} TreeNodes(s: Stmt)
    requires Tree(s)
    ensures forall x :: x in Nodes(s) ==> Tree(x)
    decreases s.height
  {
    forall x | x in Nodes(s) && x != s
      ensures Tree(x)
    {
      BelowMembers(s, 0, x);
      var j :| 0 <= j < |s.children| && s.children[j] != null && x in Nodes(s.children[j]);
      TreeNodes(s.children[j]);
    }
  }
}
