/**
  Small statement trees built node by node, a parent map built over each,
  and what the consumed-value query answers on them.  The first two show the
  inputs on which the query as written and the intended query disagree.
 */
module Scenarios {
  import opened Ast
  import opened ParentMaps

  /** A node with no children. */
  method Leaf(kind: StmtClass) returns (s: Stmt)
    ensures fresh(s) && s.kind == kind && s.children == []
    ensures Tree(s) && Nodes(s) == {s}
  {
    s := new Stmt(kind, []);
    assert Below(s, 0) == {};
  }

  /** The nodes hanging from the present slots of `cs`. */
  ghost function SlotNodes(cs: seq<Stmt?>): set<Stmt>
    requires forall j :: 0 <= j < |cs| && cs[j] != null ==> WellFounded(cs[j])
  {
    if cs == [] then {}
    else (if cs[0] == null then {} else Nodes(cs[0])) + SlotNodes(cs[1..])
  }

  lemma {:induction false} BelowIsSlotNodes(s: Stmt, i: nat)
    requires WellFounded(s) && i <= |s.children|
    ensures Below(s, i) == SlotNodes(s.children[i..])
    decreases |s.children| - i
  {
    if i < |s.children| {
      BelowIsSlotNodes(s, i + 1);
      assert s.children[i..][1..] == s.children[i + 1..];
    }
  }

  lemma SlotNodesOfPair(a: Stmt, b: Stmt)
    requires WellFounded(a) && WellFounded(b)
    ensures SlotNodes([a, b]) == Nodes(a) + Nodes(b)
  {
    assert [a, b][1..] == [b];
    assert [b][1..] == [];
    assert SlotNodes([b]) == Nodes(b);
  }

  /** A node over child slots that are trees sharing no node. */
  method Node(kind: StmtClass, cs: seq<Stmt?>) returns (s: Stmt)
    requires forall j :: 0 <= j < |cs| && cs[j] != null ==> WellFounded(cs[j]) && Tree(cs[j])
    requires forall i, j :: 0 <= i < j < |cs| && cs[i] != null && cs[j] != null ==> Nodes(cs[i]) !! Nodes(cs[j])
    ensures fresh(s) && s.kind == kind && s.children == cs
    ensures Tree(s) && Nodes(s) == {s} + SlotNodes(cs)
  {
    s := new Stmt(kind, cs);
    BelowIsSlotNodes(s, 0);
  }

  /** `a op b` over two fresh names. */
  method BinaryOfNames(op: Opcode) returns (s: Stmt, a: Stmt, b: Stmt)
    ensures fresh(s) && fresh(a) && fresh(b)
    ensures Tree(s) && s.kind == BinaryOperator(op) && s.children == [a, b]
    ensures a.kind == DeclRefExpr && b.kind == DeclRefExpr && Nodes(s) == {s, a, b}
  {
    a := Leaf(DeclRefExpr);
    b := Leaf(DeclRefExpr);
    s := Node(BinaryOperator(op), [a, b]);
    SlotNodesOfPair(a, b);
  }

  /** The tree of `return (x);`. */
  method ParenReturnTree() returns (ret: Stmt, paren: Stmt)
    ensures Tree(ret) && ret.kind == ReturnStmt && ret.children == [paren]
    ensures paren.kind == ParenExpr && |paren.children| == 1
  {
    var x := Leaf(DeclRefExpr);
    paren := Node(ParenExpr, [x]);
    ret := Node(ReturnStmt, [paren]);
  }

  /** `return (x);`, asking about the parenthesised `(x)`. */
  method ParenthesizedReturnValue() returns (asWritten: bool, intended: bool)
    ensures !asWritten && intended
  {
    var ret, paren := ParenReturnTree();
    var pm := new ParentMap(ret);
    asWritten := pm.IsConsumedExpr(paren);
    intended := pm.IsConsumedExprIntended(paren);
    pm.WrappersAreTransparent([paren], ret);
  }

  /** The tree of `return a + b;`. */
  method SumReturnTree() returns (ret: Stmt, sum: Stmt, a: Stmt)
    ensures Tree(ret) && ret.kind == ReturnStmt && ret.children == [sum]
    ensures sum.kind == BinaryOperator(Add) && |sum.children| == 2 && sum.children[0] == a
    ensures a.kind == DeclRefExpr && sum in Nodes(ret) && a in Nodes(ret)
  {
    var b;
    sum, a, b := BinaryOfNames(Add);
    ret := Node(ReturnStmt, [sum]);
    assert [sum][1..] == [];
    NodesClosed(ret, ret, 0);
    NodesClosed(ret, sum, 0);
  }

  /** `return a + b;`, asking about the operand `a`. */
  method SumOperandInReturn() returns (asWritten: bool, intended: bool)
    ensures !asWritten && intended
  {
    var ret, sum, a := SumReturnTree();
    var pm := new ParentMap(ret);
    asWritten := pm.IsConsumedExpr(a);
    intended := pm.IsConsumedExprIntended(a);
    pm.WrappersAreTransparent([a], sum);
  }

  /** The condition `a < b` and the statement `return c + d;` of an `if`. */
  method IfParts() returns (less: Stmt, ret: Stmt, sum: Stmt)
    ensures Tree(less) && Tree(ret) && Nodes(less) !! Nodes(ret)
    ensures less.kind == BinaryOperator(LT)
    ensures ret.kind == ReturnStmt && ret.children == [sum]
    ensures sum.kind == BinaryOperator(Add)
  {
    var a, b, c, d;
    less, a, b := BinaryOfNames(LT);
    sum, c, d := BinaryOfNames(Add);
    ret := Node(ReturnStmt, [sum]);
    assert [sum][1..] == [];
  }

  /** The tree of `if (a < b) return c + d;`, with no else branch. */
  method IfReturnTree() returns (ifs: Stmt, less: Stmt, ret: Stmt, sum: Stmt)
    ensures Tree(ifs) && ifs.kind == IfStmt && ifs.children == [less, ret, null]
    ensures less.kind == BinaryOperator(LT)
    ensures ret.kind == ReturnStmt && ret.children == [sum]
    ensures sum.kind == BinaryOperator(Add)
  {
    less, ret, sum := IfParts();
    ifs := Node(IfStmt, [less, ret, null]);
  }

  /**
    `if (a < b) return c + d;`: the condition of the `if` and the operand of
    the `return` are both used.
   */
  method IfConditionAndReturnValue() returns (condUsed: bool, resultUsed: bool)
    ensures condUsed && resultUsed
  {
    var ifs, less, ret, sum := IfReturnTree();
    var pm := new ParentMap(ifs);
    NodesClosed(ifs, ifs, 1);
    condUsed := pm.IsConsumedExpr(less);
    assert ifs.children[0] == less;
    resultUsed := pm.IsConsumedExpr(sum);
    assert ret.children[0] == sum;
  }

  /** The tree of `{ f(); }`. */
  method CallBlockTree() returns (block: Stmt, call: Stmt)
    ensures Tree(block) && block.kind == CompoundStmt && block.children == [call]
    ensures call.kind == CallExpr
  {
    var f := Leaf(DeclRefExpr);
    call := Node(CallExpr, [f]);
    block := Node(CompoundStmt, [call]);
  }

  /** `{ f(); }`: a call evaluated as a statement of a block is not used. */
  method CallStatementInBlock() returns (used: bool)
    ensures !used
  {
    var block, call := CallBlockTree();
    var pm := new ParentMap(block);
    used := pm.IsConsumedExpr(call);
    assert block.children[0] == call;
  }

  /** The tree of `for (; i < n; ++i) ;`. */
  method ForTree() returns (loop: Stmt, less: Stmt, inc: Stmt, i: Stmt)
    ensures Tree(loop) && loop.kind == ForStmt && |loop.children| == 4
    ensures loop.children[0] == null && loop.children[1] == less && loop.children[2] == inc
    ensures less.kind == BinaryOperator(LT)
    ensures inc.kind == UnaryOperator && inc.children == [i]
    ensures i.kind == DeclRefExpr
  {
    var i1, n;
    less, i1, n := BinaryOfNames(LT);
    i := Leaf(DeclRefExpr);
    inc := Node(UnaryOperator, [i]);
    assert [i][1..] == [];
    var body := Leaf(NullStmt);
    loop := Node(ForStmt, [null, less, inc, body]);
  }

  /**
    `for (; i < n; ++i) ;`: the empty init slot is skipped; the condition is
    used, the increment `++i` is not, and `i` inside it is (its parent is an
    expression).
   */
  method ForLoopParts() returns (condUsed: bool, incUsed: bool, incOperandUsed: bool)
    ensures condUsed && !incUsed && incOperandUsed
  {
    var loop, less, inc, i := ForTree();
    var pm := new ParentMap(loop);
    condUsed := pm.IsConsumedExpr(less);
    incUsed := pm.IsConsumedExpr(inc);
    NodesClosed(loop, loop, 2);
    incOperandUsed := pm.IsConsumedExpr(i);
    assert inc.children[0] == i;
  }

  /** The operands `((T)f())` and `g` of a comma expression. */
  method CommaParts() returns (paren: Stmt, cast: Stmt, call: Stmt, g: Stmt)
    ensures Tree(paren) && Tree(g) && Nodes(paren) !! Nodes(g)
    ensures paren.kind == ParenExpr && paren.children == [cast]
    ensures cast.kind == CStyleCastExpr && cast.children == [call]
    ensures call.kind == CallExpr
  {
    var f := Leaf(DeclRefExpr);
    call := Node(CallExpr, [f]);
    cast := Node(CStyleCastExpr, [call]);
    paren := Node(ParenExpr, [cast]);
    g := Leaf(DeclRefExpr);
  }

  /** The tree of `return ((T)f()), g;`. */
  method CommaReturnTree() returns (ret: Stmt, comma: Stmt, paren: Stmt, cast: Stmt, call: Stmt)
    ensures Tree(ret) && ret.kind == ReturnStmt && ret.children == [comma]
    ensures comma.kind == BinaryOperator(Comma) && |comma.children| == 2 && comma.children[0] == paren
    ensures paren.kind == ParenExpr && paren.children == [cast]
    ensures cast.kind == CStyleCastExpr && cast.children == [call]
    ensures call.kind == CallExpr && cast in Nodes(ret) && call in Nodes(ret)
  {
    var g;
    paren, cast, call, g := CommaParts();
    comma := Node(BinaryOperator(Comma), [paren, g]);
    ret := Node(ReturnStmt, [comma]);
    NodesClosed(ret, ret, 0);
    NodesClosed(ret, comma, 0);
    NodesClosed(ret, paren, 0);
    NodesClosed(ret, cast, 0);
  }

  /**
    `return ((T)f()), g;`: the parenthesis is a wrapper, so as written it is
    never used; the call inside the cast is used (its parent is an
    expression), and so is the comma expression under the `return`.
   */
  method WrappedCommaOperand() returns (parenUsed: bool, callUsed: bool, commaUsed: bool)
    ensures !parenUsed && callUsed && commaUsed
  {
    var ret, comma, paren, cast, call := CommaReturnTree();
    var pm := new ParentMap(ret);
    parenUsed := pm.IsConsumedExpr(paren);
    callUsed := pm.IsConsumedExpr(call);
    assert cast.children[0] == call;
    commaUsed := pm.IsConsumedExpr(comma);
    assert ret.children[0] == comma;
  }
}
