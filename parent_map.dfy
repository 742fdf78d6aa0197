/**
  clang's `ParentMap`: a table from each statement of a tree to the statement
  whose child slot holds it, filled by one pre-order walk from the root, and
  the query "is the value of this expression used by its context" that reads
  the table.

  The table (`MapTy`, an `llvm::DenseMap<Stmt*, Stmt*>`) is an object the map
  allocates and fills in place; `ParentMap.impl` is null when the map was
  built from a null root.  `Build` and `BuildFrom` state, as functions, what
  the walk leaves in the table; `Writes` lists the keys it writes, in order.
 */
module ParentMaps {
  import opened Ast

  /** The `DenseMap<Stmt*, Stmt*>` behind `ParentMap::Impl`. */
  class MapTy {
    var entries: map<Stmt?, Stmt?>

    constructor ()
      ensures entries == map[]
    {
      entries := map[];
    }
  }

  /** The table after `BuildParentMap(M, s)` when it held `m` before. */
  ghost function Build(m: map<Stmt?, Stmt?>, s: Stmt): map<Stmt?, Stmt?>
    requires WellFounded(s)
    decreases s.height, 1, 0
  {
    BuildFrom(m, s, 0)
  }

  /** The table after the loop of `BuildParentMap(M, s)` has run over child slots `i..`. */
  ghost function BuildFrom(m: map<Stmt?, Stmt?>, s: Stmt, i: nat): map<Stmt?, Stmt?>
    requires WellFounded(s) && i <= |s.children|
    decreases s.height, 0, |s.children| - i
  {
    if i == |s.children| then m
    else if s.children[i] == null then BuildFrom(m, s, i + 1)
    else BuildFrom(Build(m[s.children[i] := s], s.children[i]), s, i + 1)
  }

  /** The keys `BuildParentMap(M, s)` writes, in the order it writes them. */
  ghost function Writes(s: Stmt): seq<Stmt>
    requires WellFounded(s)
    decreases s.height, 1, 0
  {
    WritesFrom(s, 0)
  }

  ghost function WritesFrom(s: Stmt, i: nat): seq<Stmt>
    requires WellFounded(s) && i <= |s.children|
    decreases s.height, 0, |s.children| - i
  {
    if i == |s.children| then []
    else if s.children[i] == null then WritesFrom(s, i + 1)
    else [s.children[i]] + Writes(s.children[i]) + WritesFrom(s, i + 1)
  }

  ghost predicate NoDuplicates(q: seq<Stmt>)
  {
    forall a, b :: 0 <= a < b < |q| ==> q[a] != q[b]
  }

  /** Every present child of every node reachable from `s` is a key of `r`, mapped to that node. */
  ghost predicate RecordsParents(r: map<Stmt?, Stmt?>, s: Stmt)
    requires WellFounded(s)
  {
    forall p, k :: p in Nodes(s) && 0 <= k < |p.children| && p.children[k] != null ==>
      p.children[k] in r && r[p.children[k]] == p
  }

  /**
    `BuildParentMap`: for each present child `C` of `s`, in slot order, record
    `M[C] = s` and descend into `C`; empty slots are skipped.  The ghost result
    logs the keys as they are written.
   */
  method BuildParentMap(M: MapTy, s: Stmt) returns (ghost written: seq<Stmt>)
    requires WellFounded(s)
    modifies M
    ensures M.entries == Build(old(M.entries), s)
    ensures written == Writes(s)
    decreases s.height
  {
    written := [];
    for i := 0 to |s.children|
      invariant BuildFrom(M.entries, s, i) == Build(old(M.entries), s)
      invariant written + WritesFrom(s, i) == Writes(s)
    {
      var c := s.children[i];
      if c != null {
        M.entries := M.entries[c := s];
        var below := BuildParentMap(M, c);
        written := written + [c] + below;
      }
    }
  }

  /**
    The loop over slots `i..` adds exactly the nodes below those slots as keys,
    leaves every other entry alone, and maps each new key to `s` or to a node
    below those slots whose child list holds the key.
   */
  lemma {:induction false} BuildFromShape(m: map<Stmt?, Stmt?>, s: Stmt, i: nat)
    requires WellFounded(s) && i <= |s.children|
    ensures BuildFrom(m, s, i).Keys == m.Keys + Below(s, i)
    ensures forall k :: k in m && k !in Below(s, i) ==> BuildFrom(m, s, i)[k] == m[k]
    ensures forall k: Stmt :: k in Below(s, i) ==>
      var p := BuildFrom(m, s, i)[k];
      p != null && (p == s || p in Below(s, i)) && k in p.children
    decreases s.height, 0, |s.children| - i
  {
    if i < |s.children| {
      var c := s.children[i];
      if c == null {
        BuildFromShape(m, s, i + 1);
      } else {
        var m1 := m[c := s];
        var m2 := Build(m1, c);
        BuildShape(m1, c);
        BuildFromShape(m2, s, i + 1);
        assert Below(s, i) == Nodes(c) + Below(s, i + 1);
      }
    }
  }

  /**
    `BuildParentMap(M, s)` adds as keys exactly the nodes reachable from `s`
    other than `s`, maps each to a reachable node whose child list holds it,
    and leaves the entries of all other keys unchanged.  Null is never a key.
   */
  lemma {:induction false} BuildShape(m: map<Stmt?, Stmt?>, s: Stmt)
    requires WellFounded(s)
    ensures Build(m, s).Keys == m.Keys + (Nodes(s) - {s})
    ensures forall k :: k in m && k !in Nodes(s) - {s} ==> Build(m, s)[k] == m[k]
    ensures forall k: Stmt :: k in Nodes(s) - {s} ==>
      var p := Build(m, s)[k];
      p != null && p in Nodes(s) && k in p.children
    decreases s.height, 1, 0
  {
    BuildFromShape(m, s, 0);
    NodesBelow(s);
    assert Nodes(s) - {s} == Below(s, 0);
  }

  /**
    In a tree, the loop over slots `i..` maps every present child in those
    slots to `s`, and every node's children below them to that node.
   */
  lemma {:induction false} BuildFromRecords(m: map<Stmt?, Stmt?>, s: Stmt, i: nat)
    requires Tree(s) && i <= |s.children|
    ensures forall j :: i <= j < |s.children| && s.children[j] != null ==>
      var r := BuildFrom(m, s, i);
      s.children[j] in r && r[s.children[j]] == s && RecordsParents(r, s.children[j])
    decreases s.height, 0, |s.children| - i
  {
    if i < |s.children| {
      var c := s.children[i];
      if c == null {
        BuildFromRecords(m, s, i + 1);
      } else {
        var m1 := m[c := s];
        var m2 := Build(m1, c);
        var r := BuildFrom(m2, s, i + 1);
        assert r == BuildFrom(m, s, i);
        BuildShape(m1, c);
        BuildRecords(m1, c);
        BuildFromRecords(m2, s, i + 1);
        BuildFromShape(m2, s, i + 1);
        SlotDisjointFromLater(s, i, i + 1);
        NodesBelow(c);
        assert c in Nodes(c);
        assert r[c] == s;
        forall p, k | p in Nodes(c) && 0 <= k < |p.children| && p.children[k] != null
          ensures p.children[k] in r && r[p.children[k]] == p
        {
          NodesClosed(c, p, k);
        }
      }
    }
  }

  /**
    In a tree, `BuildParentMap(M, s)` maps every present child of every node
    reachable from `s` to that node.
   */
  lemma {:induction false} BuildRecords(m: map<Stmt?, Stmt?>, s: Stmt)
    requires Tree(s)
    ensures RecordsParents(Build(m, s), s)
    decreases s.height, 1, 0
  {
    var r := Build(m, s);
    BuildFromRecords(m, s, 0);
    forall p, k | p in Nodes(s) && 0 <= k < |p.children| && p.children[k] != null
      ensures p.children[k] in r && r[p.children[k]] == p
    {
      if p != s {
        BelowMembers(s, 0, p);
      }
    }
  }

  /** The keys written by the loop over slots `i..` are the nodes below those slots; in a tree, each once. */
  lemma {:induction false} WritesFromCover(s: Stmt, i: nat)
    requires WellFounded(s) && i <= |s.children|
    ensures forall x: Stmt :: x in WritesFrom(s, i) ==> x in Below(s, i)
    ensures forall x: Stmt :: x in Below(s, i) ==> x in WritesFrom(s, i)
    ensures Tree(s) ==> NoDuplicates(WritesFrom(s, i))
    decreases s.height, 0, |s.children| - i
  {
    if i < |s.children| {
      WritesFromCover(s, i + 1);
      var c := s.children[i];
      if c != null {
        WritesCover(c);
        if Tree(s) {
          SlotDisjointFromLater(s, i, i + 1);
          assert Tree(c);
          var w := Writes(c);
          var q := [c] + w + WritesFrom(s, i + 1);
          assert c in Nodes(c);
          forall a, b | 0 <= a < b < |q| ensures q[a] != q[b] {
            if b <= |w| {
              assert q[b] == w[b - 1] && w[b - 1] in w;
              if a > 0 {
                assert q[a] == w[a - 1];
                assert q[a] != q[b];
              } else {
                assert q[a] != q[b];
              }
            } else {
              assert q[b] == WritesFrom(s, i + 1)[b - 1 - |w|] && q[b] in WritesFrom(s, i + 1);
              if a == 0 {
                assert q[a] == c;
                assert q[a] != q[b];
              } else if a <= |w| {
                assert q[a] == w[a - 1] && w[a - 1] in w;
                assert q[a] != q[b];
              } else {
                assert q[a] == WritesFrom(s, i + 1)[a - 1 - |w|];
                assert q[a] != q[b];
              }
            }
          }
        }
      }
    }
  }

  /**
    `BuildParentMap(M, s)` writes the key of every node reachable from `s`
    except `s` itself and no other; in a tree it writes each key exactly once.
   */
  lemma {:induction false} WritesCover(s: Stmt)
    requires WellFounded(s)
    ensures forall x: Stmt :: x in Writes(s) ==> x in Nodes(s) && x != s
    ensures forall x: Stmt :: x in Nodes(s) && x != s ==> x in Writes(s)
    ensures Tree(s) ==> NoDuplicates(Writes(s))
    decreases s.height, 1, 0
  {
    WritesFromCover(s, 0);
    NodesBelow(s);
  }

  /**
    The `switch` at the end of `isConsumedExpr`: does parent `p` use the value
    of its child `directChild`?
   */
  function ParentConsumes(p: Stmt, directChild: Stmt): bool
  {
    match p.kind
    case DeclStmt => true
    case BinaryOperator(_) => p.GetOpcode() == Comma && directChild == p.GetLHS()
    case ForStmt => directChild == p.GetCond()
    case WhileStmt => directChild == p.GetCond()
    case DoStmt => directChild == p.GetCond()
    case IfStmt => directChild == p.GetCond()
    case IndirectGotoStmt => directChild == p.GetTarget()
    case SwitchStmt => directChild == p.GetCond()
    case ReturnStmt => true
    case _ => p.kind.IsExpr()
  }

  /**
    The same decision stated by position: which child slots of a parent of
    class `k` the parent uses for their value.
   */
  ghost predicate ConsumedSlot(k: StmtClass, i: nat)
  {
    if k.DeclStmt? || k.ReturnStmt? then true
    else if k.BinaryOperator? then k.opcode == Comma && i == LhsSlot
    else if k.HasCond() then i == k.CondSlot()
    else if k.IndirectGotoStmt? then i == TargetSlot
    else k.IsExpr()
  }

  /**
    For a child that really sits in slot `i` of a tree node, the identity
    comparisons of `ParentConsumes` agree with the positional table.
   */
  lemma ParentConsumesBySlot(p: Stmt, i: nat)
    requires Tree(p) && i < |p.children| && p.children[i] != null
    ensures ParentConsumes(p, p.children[i]) <==> ConsumedSlot(p.kind, i)
  {
  }

  /**
    The parent verdict with the binary-operator case as the comma operator's
    meaning asks for: a comma uses only its right operand, every other binary
    operator uses both operands.  All other classes are decided as in
    `ParentConsumes`.
   */
  function ParentConsumesIntended(p: Stmt, directChild: Stmt): bool
  {
    if p.kind.BinaryOperator? then p.GetOpcode() != Comma || directChild == p.GetRHS()
    else ParentConsumes(p, directChild)
  }

  /**
    The corrected decision stated by position: a binary operator other than
    comma uses both operand slots, a comma only its right one; every other
    class uses the slots of `ConsumedSlot`.
   */
  ghost predicate ConsumedSlotIntended(k: StmtClass, i: nat)
  {
    if k.BinaryOperator? then k.opcode != Comma || i == RhsSlot
    else ConsumedSlot(k, i)
  }

  /**
    For a child that really sits in slot `i` of a tree node, the corrected
    verdict agrees with the corrected positional table.
   */
  lemma ParentConsumesIntendedBySlot(p: Stmt, i: nat)
    requires Tree(p) && i < |p.children| && p.children[i] != null
    ensures ParentConsumesIntended(p, p.children[i]) <==> ConsumedSlotIntended(p.kind, i)
  {
  }

  /**
    As written, neither operand of a non-comma binary operator counts as used,
    although the operator reads both; the intended verdict uses both.
   */
  lemma NonCommaOperandsDiscarded(p: Stmt, i: nat)
    requires p.kind.BinaryOperator? && p.GetOpcode() != Comma
    requires i < |p.children| && p.children[i] != null
    ensures !ParentConsumes(p, p.children[i])
    ensures ParentConsumesIntended(p, p.children[i])
  {
  }

  /**
    As written, a comma uses its left operand and discards its right one; the
    comma operator does the opposite, and so does the intended verdict.
   */
  lemma CommaOperandsSwapped(p: Stmt)
    requires Tree(p) && p.kind.BinaryOperator? && p.GetOpcode() == Comma
    requires |p.children| == 2 && p.children[LhsSlot] != null && p.children[RhsSlot] != null
    ensures ParentConsumes(p, p.children[LhsSlot]) && !ParentConsumes(p, p.children[RhsSlot])
    ensures !ParentConsumesIntended(p, p.children[LhsSlot]) && ParentConsumesIntended(p, p.children[RhsSlot])
  {
  }

  class ParentMap {
    /** The statement the map was built from (null for an empty map). */
    ghost const root: Stmt?
    /** `Impl`: the table, or null when the root was null. */
    var impl: MapTy?

    ghost predicate Valid()
      reads this, impl
    {
      && (root == null <==> impl == null)
      && (root != null ==> WellFounded(root) && impl.entries == Build(map[], root))
    }

    /** `ParentMap(S)`: with a non-null root, allocate a table and fill it by one walk. */
    constructor (s: Stmt?)
      requires s != null ==> WellFounded(s)
      ensures Valid() && root == s
      ensures s == null ==> impl == null
      ensures s != null ==> impl != null && fresh(impl)
    {
      root := s;
      impl := null;
      if s != null {
        var m := new MapTy();
        ghost var written := BuildParentMap(m, s);
        impl := m;
      }
    }

    /**
      `getParent(S)`: the recorded parent of `S`, or null when it has none.
      The table is dereferenced, so the map must have been built from a
      non-null root.
     */
    function GetParent(s: Stmt?): (p: Stmt?)
      reads this, impl
      requires Valid() && impl != null
      ensures p == null <==> s == null || s == root || s !in Nodes(root)
      ensures p != null ==> p in Nodes(root) && s in p.children
      ensures p != null ==> s.height < p.height <= root.height
      ensures Tree(root) && s != null ==>
        forall q :: q in Nodes(root) && s in q.children ==> p == q
    {
      BuildShape(map[], root);
      NodesBelow(root);
      assert Tree(root) ==> RecordsParents(impl.entries, root) by {
        if Tree(root) {
          BuildRecords(map[], root);
        }
      }
      if s in impl.entries then impl.entries[s] else null
    }

    /**
      `isConsumedExpr(E)`.  The loop that should skip parenthesis and cast
      parents tests `E` itself rather than the parent: when `E` is a
      parenthesis or a cast it climbs to the root and the answer is false;
      otherwise it does not run and the answer is the parent's verdict on `E`.
     */
    method IsConsumedExpr(e: Stmt?) returns (consumed: bool)
      requires Valid() && impl != null && (e != null ==> e.kind.IsExpr())
      ensures e == null ==> !consumed
      ensures e != null && e.kind.IsParenOrCast() ==> !consumed
      ensures e == root || e !in Nodes(root) ==> !consumed
      ensures consumed ==> exists p :: p in Nodes(root) && e in p.children && ParentConsumes(p, e)
      ensures Tree(root) && e != null && !e.kind.IsParenOrCast() ==>
        forall p, i :: p in Nodes(root) && 0 <= i < |p.children| && p.children[i] == e ==>
          (consumed <==> ConsumedSlot(p.kind, i))
    {
      NodesBelow(root);
      var p := GetParent(e);
      var directChild := e;
      while p != null && (e.kind.ParenExpr? || e.kind.IsCast())
        invariant p != null ==> e != null && p in Nodes(root)
        invariant e != null && !e.kind.IsParenOrCast() ==> p == GetParent(e) && directChild == e
        decreases if p == null then 0 else root.height + 1 - p.height
      {
        directChild := p;
        p := GetParent(p);
      }
      if p == null {
        return false;
      }
      consumed := ParentConsumes(p, directChild);
      if Tree(root) && !e.kind.IsParenOrCast() {
        TreeNodes(root);
        forall q, i | q in Nodes(root) && 0 <= i < |q.children| && q.children[i] == e
          ensures consumed <==> ConsumedSlot(q.kind, i)
        {
          ParentConsumesBySlot(q, i);
        }
      }
    }

    /** How far `c` can still climb: its distance in height below the root. */
    ghost function Climb(c: Stmt): nat
      requires root != null && WellFounded(root)
    {
      if c in Nodes(root) && c.height <= root.height then root.height - c.height else 0
    }

    /**
      What `isConsumedExpr` is meant to compute for a node `c` on the way up:
      climb past parenthesis and cast parents, then ask the first other parent
      (with the corrected binary-operator verdict).
     */
    ghost function ConsumedThroughWrappers(c: Stmt): bool
      reads this, impl
      requires Valid() && impl != null
      decreases Climb(c)
    {
      var p := GetParent(c);
      if p == null then false
      else if p.kind.IsParenOrCast() then ConsumedThroughWrappers(p)
      else ParentConsumesIntended(p, c)
    }

    /**
      `isConsumedExpr` with the loop testing the parent it climbs to, as the
      comment above the loop describes, and the corrected binary-operator
      verdict.
     */
    method IsConsumedExprIntended(e: Stmt) returns (consumed: bool)
      requires Valid() && impl != null && e.kind.IsExpr()
      ensures consumed == ConsumedThroughWrappers(e)
    {
      NodesBelow(root);
      var p := GetParent(e);
      var directChild: Stmt := e;
      while p != null && p.kind.IsParenOrCast()
        invariant p == GetParent(directChild)
        invariant ConsumedThroughWrappers(directChild) == ConsumedThroughWrappers(e)
        decreases if p == null then 0 else root.height + 1 - p.height
      {
        directChild := p;
        p := GetParent(p);
      }
      if p == null {
        return false;
      }
      consumed := ParentConsumesIntended(p, directChild);
    }

    /**
      Wrapper transparency: in a tree, when `chain[0]` is wrapped by the
      parenthesis and cast nodes `chain[1..]`, each the parent of the one
      before, the intended verdict on `chain[0]` is the verdict of the outermost wrapper's parent
      `p` on that wrapper, and false when the outermost wrapper is the root.
     */
    lemma {:induction false} WrappersAreTransparent(chain: seq<Stmt>, p: Stmt?)
      requires Valid() && impl != null && Tree(root)
      requires |chain| >= 1
      requires forall j :: 1 <= j < |chain| ==>
        chain[j] in Nodes(root) && chain[j - 1] in chain[j].children && chain[j].kind.IsParenOrCast()
      requires p == null ==> chain[|chain| - 1] == root
      requires p != null ==> p in Nodes(root) && chain[|chain| - 1] in p.children && !p.kind.IsParenOrCast()
      ensures ConsumedThroughWrappers(chain[0]) == (p != null && ParentConsumesIntended(p, chain[|chain| - 1]))
      decreases |chain|
    {
      var c := chain[0];
      if |chain| == 1 {
        if p != null {
          assert GetParent(c) == p;
        } else {
          assert GetParent(c) == null;
        }
      } else {
        assert GetParent(c) == chain[1];
        WrappersAreTransparent(chain[1..], p);
      }
    }
  }
}
