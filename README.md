# clang `ParentMap` in Dafny

A model of clang's `ParentMap` (clang/lib/AST/ParentMap.cpp). It covers the table from each statement of an AST to the statement whose child slot holds it. The table is filled by the recursive `BuildParentMap` walk and read by `getParent`. The model also covers `isConsumedExpr`, the query "is the value of this expression used by its context".

- `ast.dfy` (module `Ast`): the part of the `Stmt` hierarchy the map relies on. It has a statement class with the binary-operator opcode, and an ordered sequence of child slots, any of which may be empty. It defines the accessors `getCond`, `getTarget`, `getLHS`, `getRHS` and `getOpcode`.
  - Statements are objects compared by identity, as the `Stmt*` keys of the table are.
  - A ghost height makes a node `WellFounded`, which rules out cycles.
  - A `Tree` also shares no node between two child slots.
  - `Nodes(s)` is the set of statements reachable from `s`.
- `parent_map.dfy` (module `ParentMaps`): the table, its construction and the query.
  - `MapTy` is the heap object behind `ParentMap::Impl`.
  - `BuildParentMap` is an imperative recursive method, specified by the ghost function `Build` over the previous table contents.
  - `ParentMap` holds `impl`, which is null exactly when the root was null.
  - `GetParent` is the lookup.
  - `IsConsumedExpr` is the query, modelled as written, including the loop condition on line 54.
  - The switch is the function `ParentConsumes`, with a positional reference table `ConsumedSlot` proved equal to it on trees.
  - The corrected query `IsConsumedExprIntended` and the corrected verdict `ParentConsumesIntended`, with its positional table `ConsumedSlotIntended`, sit beside the as-written ones. See "## Findings".
- `scenarios.dfy` (module `Scenarios`): small concrete trees (`return (x);`, `return a + b;`, `if (a < b) return c + d;`, `{ f(); }`, `for (; i < n; ++i) ;`, `return ((T)f()), g;`), each with the query's proved answers on it.

Two consequences of the code worth noting:
- `i` inside the increment `++i` of a `for` counts as used, because its parent `++i` is an expression (the default case, clang/lib/AST/ParentMap.cpp:63-64).
- A parenthesised comma operand under `return` counts as unused, because of the loop condition at clang/lib/AST/ParentMap.cpp:54.

## Model

| member | source | states |
|---|---|---|
| Ast.NodesBelow | clang/lib/AST/ParentMap.cpp:23-29 | every statement the walk can reach from `S` lies strictly lower than `S` and is itself acyclic, so the recursion ends and `S` never appears below itself |
| Ast.NodesClosed | clang/lib/AST/ParentMap.cpp:24-27 | a present child of a reachable statement is itself reachable, so descending into `*I` stays inside the tree |
| Ast.BelowMembers | clang/lib/AST/ParentMap.cpp:24-27 | a statement is below child slots `i..` exactly when it is reachable from a present child in one of those slots |
| Ast.TreeNodes | clang/lib/AST/ParentMap.cpp:27 | every statement reachable from the root of a tree is itself the root of a tree, so the query's per-slot argument applies to whichever statement holds `E` |
| Ast.SlotDisjointFromLater | clang/lib/AST/ParentMap.cpp:24-27 | in a tree, the subtree under one child slot shares no statement with the slots after it, so later iterations never overwrite an entry made earlier |
| ParentMaps.BuildParentMap | clang/lib/AST/ParentMap.cpp:23-29 | the table after the walk is `Build` of the table before it; the keys written, in order, are `Writes(S)` (each present child, then its own subtree, slot by slot) |
| ParentMaps.BuildFromShape | clang/lib/AST/ParentMap.cpp:24-28 | the loop over slots `i..` adds exactly the statements below those slots as keys, leaves all other entries alone, and maps each new key to `S` or to a statement below whose child list holds it |
| ParentMaps.BuildShape | clang/lib/AST/ParentMap.cpp:23-29 | the walk adds as keys exactly the statements reachable from `S` other than `S`; null is never a key; each key maps to a reachable statement whose child list holds it; other keys keep their entries |
| ParentMaps.BuildFromRecords | clang/lib/AST/ParentMap.cpp:24-28 | in a tree, after the loop over slots `i..`, every present child in those slots maps to `S` and every statement's children below them map to that statement |
| ParentMaps.BuildRecords | clang/lib/AST/ParentMap.cpp:23-29 | in a tree, the walk maps every present child of every reachable statement to that statement: the recorded parent is the true parent |
| ParentMaps.WritesFromCover | clang/lib/AST/ParentMap.cpp:24-28 | the keys written by the loop over slots `i..` are exactly the statements below those slots, each written once in a tree |
| ParentMaps.WritesCover | clang/lib/AST/ParentMap.cpp:23-29 | the walk writes the key of every statement reachable from `S` except `S` and of no other; in a tree each key is written exactly once (every node is visited once) |
| ParentMaps.ParentConsumesBySlot | clang/lib/AST/ParentMap.cpp:62-85 | for a child that sits in slot `i` of a tree node, the switch's identity comparisons against `getCond`/`getLHS`/`getTarget` agree with the positional table: declarations and returns use every child; a binary operator uses only the left operand of a comma; if/switch/while/do/for use only their condition slot; an indirect goto uses only its target; any other expression uses every child, and any other statement uses none |
| ParentMaps.ParentConsumesIntendedBySlot | clang/lib/AST/ParentMap.cpp:62-85 | for a child that sits in slot `i` of a tree node, the corrected verdict equals the corrected positional table: a binary operator other than comma uses both operand slots, a comma only its right slot, and every other class uses the slots the switch as written uses |
| ParentMaps.NonCommaOperandsDiscarded | clang/lib/AST/ParentMap.cpp:67-70 | as written, neither operand of a binary operator other than comma counts as used; the corrected verdict counts both |
| ParentMaps.CommaOperandsSwapped | clang/lib/AST/ParentMap.cpp:67-70 | as written, a comma uses its left operand and not its right one; the corrected verdict uses the right operand and not the left one |
| ParentMaps.ParentMap.constructor | clang/lib/AST/ParentMap.cpp:31-37 | a null root leaves `Impl` null; otherwise a fresh table is allocated and filled by one walk from the root, and the map is valid |
| ParentMaps.ParentMap.GetParent | clang/lib/AST/ParentMap.cpp:43-47 | no parent exactly for null, the root, and statements not reachable from the root; otherwise the result is a reachable statement that holds the argument as a child and lies strictly higher; in a tree it is the only such statement |
| ParentMaps.ParentMap.IsConsumedExpr | clang/lib/AST/ParentMap.cpp:49-86 | a null argument is never used; a parenthesis or cast argument is never used (the loop tests the argument, so it climbs to the root); the root and unreachable expressions are never used; a used expression has a reachable parent whose switch verdict on it is true; in a tree, for any other expression, the answer is exactly the positional verdict of the slot it occupies |
| ParentMaps.ParentMap.IsConsumedExprIntended | clang/lib/AST/ParentMap.cpp:49-86 | the corrected query, whose loop skips parenthesis and cast parents, returns exactly `ConsumedThroughWrappers`: climb past wrapper parents, then the first other parent's corrected verdict (it corrects both line 54 and the binary-operator case of lines 67-70) |
| ParentMaps.ParentMap.WrappersAreTransparent | clang/lib/AST/ParentMap.cpp:53-57 | in a tree, when an expression is wrapped by a chain of parenthesis and cast parents, the corrected answer is the verdict of the outermost wrapper's parent on that wrapper, and false when the outermost wrapper is the root |
| Scenarios.ParenthesizedReturnValue | clang/lib/AST/ParentMap.cpp:49-57 | in `return (x);` the parenthesis is not used as written, and is used by the corrected query |
| Scenarios.SumOperandInReturn | clang/lib/AST/ParentMap.cpp:67-70 | in `return a + b;` the operand `a` is not used as written, and is used by the corrected query |
| Scenarios.IfConditionAndReturnValue | clang/lib/AST/ParentMap.cpp:77-84 | in `if (a < b) return c + d;` both the condition and the returned sum are used |
| Scenarios.CallStatementInBlock | clang/lib/AST/ParentMap.cpp:63-64 | in `{ f(); }` the call is not used: its parent is a statement that the switch does not name |
| Scenarios.ForLoopParts | clang/lib/AST/ParentMap.cpp:63-72 | in `for (; i < n; ++i) ;` the empty init slot is skipped, the condition is used, the increment is not, and `i` inside `++i` is used because its parent is an expression |
| Scenarios.WrappedCommaOperand | clang/lib/AST/ParentMap.cpp:49-86 | in `return ((T)f()), g;` the parenthesis is not used as written, the call inside the cast is used (expression parent), and the comma expression is used (return parent) |

## Left out

- The destructor (clang/lib/AST/ParentMap.cpp:39-41) and the `new`/`delete` of the table. Dafny is garbage collected, so only the allocation (`fresh`) is modelled.
- `llvm::DenseMap` internals (hashing, buckets, iteration order) are left out. The table is a Dafny `map` from statement identity to statement, with `find`/`end` as key membership.
- The full clang `Stmt` class hierarchy is not modelled. `Ast.StmtClass` lists the classes the switch names plus a representative set of other statements, expressions and casts. The child slot layouts are taken from clang's statement classes, which are not part of this model:
  - `IfStmt` is {cond, then, else}; `SwitchStmt` and `WhileStmt` are {cond, body}; `DoStmt` is {body, cond}; `ForStmt` is {init, cond, inc, body};
  - `BinaryOperator` is {lhs, rhs};
  - `IndirectGotoStmt` has its target as its only child.
- Recursion depth is not modelled. The source recurses once per tree level, so a very deep tree can overflow the native stack.
- Thread safety is out of scope. The source has no synchronisation.
- ParentMaps.ParentMap.GetParent: requires a non-null table. With a null root the source dereferences the null `Impl`, which is undefined behaviour, not a defined answer.
- ParentMaps.ParentMap.GetParent: the result is stated to be the unique parent only when the root is a `Tree`. When the same statement is shared by two parents, the table keeps the last write, and only "some parent holding it" is stated.
- ParentMaps.ParentMap.IsConsumedExpr: the exact per-slot answer is stated only for a `Tree` root and a non-wrapper argument. For shared statements, only the sound direction (a used expression has a consuming parent) is stated.
- Statements and expressions are not built or mutated by the source. The constructors in `Scenarios` only build example trees and do not model source code.

## Findings

| source | as written | input that shows it | evidently intended | confidence | as-written member | corrected member |
|---|---|---|---|---|---|---|
| clang/lib/AST/ParentMap.cpp:54 | the loop that should skip parenthesis and cast parents tests `E` instead of `P`; a parenthesis or cast `E` climbs to the root and the answer is always false, while a parent that is a parenthesis or cast is never skipped | `return (x);` asking about `(x)`: as written false, though the return uses it | test the parent `P`, so that wrappers above `E` are skipped and the first other parent decides; the corrected member also applies the corrected binary-operator verdict of the next row, so it shows both corrections together | not executed | ParentMaps.ParentMap.IsConsumedExpr | ParentMaps.ParentMap.IsConsumedExprIntended |
| clang/lib/AST/ParentMap.cpp:67-70 | a binary operator uses a child only when it is the left operand of a comma; the operands of `+`, `<`, `=` and so on count as unused | `return a + b;` asking about `a`: as written false, though `+` reads it | every non-comma binary operator uses both operands; a comma uses its right operand and discards its left | not executed | ParentMaps.NonCommaOperandsDiscarded | ParentMaps.ParentConsumesIntendedBySlot |
