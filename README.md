# Expression trees of the SQL compiler, in Dafny

This project models the expression-tree layer of a small SQL compiler
(`Main/SQL/headers/ExprTree.h`). A parsed scalar expression is a tree of
nodes: boolean, integer, double and string literals; column identifiers
`table.attribute`; the binary operators `-`, `+`, `*`, `/`, `>`, `<`, `!=`,
`||`, `==`; and the unary operators `!`, `sum`, `avg`. Every node offers three
operations:

- `toString`, the canonical rendering;
- `getType`, a type tag (`NUMERIC`, `STRING`, `BOOL`, or a not-yet-resolved tag);
- `semanticChecking`, a depth-first, fail-fast type check. It runs against a
  catalog (keys `table.attribute.type` mapped to physical type names) and the
  FROM clause (an ordered list of `(physical table, alias)` pairs).

The project has four files:

- `expr_tree.dfy`, modules `Wrappers` and `ExprTree`. The tree as a value
  (`Expr`), with `Render` (toString) and `TypeOf` (getType). The two tags the
  check rewrites, Identifier's and PlusOp's, are fields of the value.
- `semantic_check.dfy`, module `SemanticCheck`. `Check(e, catalog, from)`
  returns the verdict and the tree as the check leaves it. It keeps every
  branch of the source, in the source's order, including the ones that can
  never fire. `InferType` is a declarative typing of the same trees, with no
  order and no side effects. It is the independent reference the check is
  proved against.
- `expr_nodes.dfy`, module `ExprNodes`. The tree as the compiler holds it: one
  `Node` object per node. Each node owns its operands (`Valid`). Its kind and
  operands are fixed, and its tag `attType` is updated in place.
  `SemanticChecking` is proved to leave each node's value (`Model`) exactly as
  `Check` says. `FindTable` is Identifier's FROM-clause scan: a loop that stops
  at the first matching alias.
- `check_properties.dfy`, module `CheckProperties`. The lemmas: the
  per-operator rules, the dead branches, fail-fast order, idempotence, and
  what a check may write.

The model follows the code, including where it behaves in ways a reader might not expect:

- A successful Identifier check whose catalog type is not `int`, `double`,
  `string` or `bool` keeps the tag the node had. For a fresh node that tag is
  `IDENTIFIER`. So success does not imply a resolved type.
- The "unresolved" tags are the strings `IDENTIFIER` (Identifier) and the
  empty string (PlusOp). There is no separate sentinel type.
- PlusOp's constructor declares a local `attType` that shadows the field. A
  fresh PlusOp therefore reports `""`, not `NUMERIC`.
  `PlusInitialTagIrrelevant` shows that this initial value never affects a
  check's verdict or the tag a successful check leaves.
- Divide's test `rhs->toString() == "0"` never fires, because every rendering
  starts with a tag, a bracket or an operator symbol. Dividing by the literal
  `0` passes the check.

## Model

| member | source | states |
|---|---|---|
| `ExprTree.Unquote` | Main/SQL/headers/ExprTree.h:110-113 | the stored string literal is the lexeme with exactly its first and last character removed: re-adding them gives the lexeme back |
| `ExprTree.IntToString` | Main/SQL/headers/ExprTree.h:89-91 | `to_string` of an int: non-empty, starting with `-` exactly when the value is negative, decimal digits after the sign; the digits' value is lemma `DecimalRoundTrip` |
| `ExprTree.Render` | Main/SQL/headers/ExprTree.h:39-667 | definition of every node's `toString`; its properties are lemmas `RenderNeverZero` and `ResolvedTagsRenderAlike`, and `Node.ToString` is proved equal to it |
| `ExprTree.TypeOf` | Main/SQL/headers/ExprTree.h:46-673 | definition of every node's `getType`; its properties are lemmas `LiteralRule`, `ArithmeticRule`, `LogicalRule`, `UnaryOpRule` and `CheckAgreesWithInference`, and `Node.GetType` is proved equal to it |
| `ExprTree.NatToDecimal` | Main/SQL/headers/ExprTree.h:89-91 | the digits `to_string` prints for an int literal: at least one, all decimal digits, no leading zero |
| `CheckProperties.DecimalRoundTrip` | Main/SQL/headers/ExprTree.h:89-91 | the printed digits denote the printed number |
| `CheckProperties.UnquoteInvertsQuoting` | Main/SQL/headers/ExprTree.h:110-117 | on the model's character strings, quoting a string with any two characters and then constructing the literal gives back that string (the source agrees for one-byte quote characters and a NUL-free body, see Left out) |
| `CheckProperties.RenderNeverZero` | Main/SQL/headers/ExprTree.h:350-353 | no node renders as `"0"`: every rendering has at least two characters and does not start with `0`, so the division-by-zero test is dead |
| `CheckProperties.DivideByLiteralZeroPasses` | Main/SQL/headers/ExprTree.h:345-364 | the literal 0 renders as `int[0]`, and `5 / 0` passes the check |
| `CheckProperties.LiteralRule` | Main/SQL/headers/ExprTree.h:46-125 | a literal's check succeeds and changes nothing; its tag is BOOL, NUMERIC or STRING by kind, whatever the catalog and FROM clause |
| `SemanticCheck.LookupAlias` | Main/SQL/headers/ExprTree.h:156-164 | first match: no result exactly when no FROM entry has the alias; otherwise the physical table of an entry with that alias and no earlier entry has it |
| `SemanticCheck.IdentifierType` | Main/SQL/headers/ExprTree.h:179-185 | the tag is NUMERIC, STRING, BOOL or the previous tag, and the previous tag whenever the catalog type is none of `int`, `double`, `string`, `bool` |
| `SemanticCheck.CheckIdent` | Main/SQL/headers/ExprTree.h:155-188 | Identifier's check succeeds exactly when some FROM entry carries the alias, no earlier entry does, and that entry's table has the attribute in the catalog; a failure keeps the tag |
| `SemanticCheck.PlusRule` | Main/SQL/headers/ExprTree.h:262-275 | PlusOp's rule succeeds exactly when both tags are equal and STRING or NUMERIC; the tag is then that common tag, otherwise the previous one |
| `SemanticCheck.BinaryRule` | Main/SQL/headers/ExprTree.h:219-572 | the other binary operators' rule only succeeds on equal operand tags, both NUMERIC for Minus, Times and Divide and both BOOL for Or; the converse is lemmas `ArithmeticRule` and `LogicalRule` |
| `SemanticCheck.UnaryRule` | Main/SQL/headers/ExprTree.h:609-677 | a unary operator accepts exactly an operand carrying the tag its own `getType` reports (BOOL for Not, NUMERIC for Sum and Avg); the node-level statement is lemma `UnaryOpRule` |
| `SemanticCheck.Check` | Main/SQL/headers/ExprTree.h:46-682 | definition of every node's `semanticChecking` on values; its properties are lemmas `CheckAgreesWithInference`, `CheckOnlyResolvesTags`, `CheckIdempotent`, `LeftFailureSkipsRight` and the per-operator rules |
| `SemanticCheck.InferType` | Main/SQL/headers/ExprTree.h:46-682 | definition of the declarative typing the check is measured against; lemma `CheckAgreesWithInference` connects the two |
| `ExprNodes.FindTable` | Main/SQL/headers/ExprTree.h:156-168 | the scan with its `found` flag and `break` finds an entry exactly when `LookupAlias` does, and returns the same physical table |
| `CheckProperties.IdentifierRule` | Main/SQL/headers/ExprTree.h:155-177 | Identifier's check succeeds exactly when some FROM entry carries its alias and the first such entry's table has the attribute in the catalog; on failure the node is unchanged; its table and attribute never change |
| `CheckProperties.IdentifierTypeMapping` | Main/SQL/headers/ExprTree.h:179-187 | after a successful Identifier check: int/double give NUMERIC, string gives STRING, bool gives BOOL, any other catalog type keeps the previous tag |
| `CheckProperties.ArithmeticRule` | Main/SQL/headers/ExprTree.h:193-367 | Minus, Times and Divide succeed exactly when both operands check and both report NUMERIC; the node reports NUMERIC; the zero test and the same-type test decide nothing |
| `CheckProperties.DivideActsAsMinus` | Main/SQL/headers/ExprTree.h:345-364 | Divide's check gives the same verdict and the same operands as Minus's check |
| `CheckProperties.PlusOpRule` | Main/SQL/headers/ExprTree.h:258-277 | PlusOp succeeds exactly when both operands check with one common tag, STRING or NUMERIC; it then reports that tag, and on failure keeps its previous tag |
| `CheckProperties.PlusInitialTagIrrelevant` | Main/SQL/headers/ExprTree.h:244-248 | the tag PlusOp is built with never changes the check's verdict or the tag a successful check leaves |
| `CheckProperties.LogicalRule` | Main/SQL/headers/ExprTree.h:391-580 | Gt, Lt, Neq and Eq succeed exactly when both operands check with equal tags of any kind; Or also needs both BOOL; all report BOOL |
| `CheckProperties.UnaryOpRule` | Main/SQL/headers/ExprTree.h:605-682 | Not succeeds exactly when its operand checks and is BOOL, Sum and Avg when it is NUMERIC; the node reports that tag |
| `CheckProperties.LeftFailureSkipsRight` | Main/SQL/headers/ExprTree.h:215-218 | when the left operand fails, every binary node fails and returns its right operand untouched |
| `CheckProperties.CheckAgreesWithInference` | Main/SQL/headers/ExprTree.h:155-682 | over whole trees, the check succeeds exactly when the tree has a declarative type, and the checked root then reports that type |
| `CheckProperties.CheckOnlyResolvesTags` | Main/SQL/headers/ExprTree.h:179-271 | a check changes nothing but Identifier tags (to NUMERIC, STRING or BOOL) and PlusOp tags (to STRING or NUMERIC); shape, names and literals stay |
| `CheckProperties.ResolvedTagsRenderAlike` | Main/SQL/headers/ExprTree.h:147-149 | rendering ignores the tags, so a checked tree renders as it did before the check |
| `CheckProperties.CheckIdempotent` | Main/SQL/headers/ExprTree.h:155-188 | checking a checked tree again with the same catalog and FROM clause gives the same verdict and changes nothing |
| `CheckProperties.SalaryComparison` | Main/SQL/headers/ExprTree.h:130-188 | `employees.salary > 1000`, with salary an int, checks and resolves the identifier to NUMERIC |
| `ExprNodes.Node.BoolLiteral` | Main/SQL/headers/ExprTree.h:35-37 | a fresh boolean literal node holding the value |
| `ExprNodes.Node.IntLiteral` | Main/SQL/headers/ExprTree.h:85-87 | a fresh integer literal node holding a 32-bit value |
| `ExprNodes.Node.DoubleLiteral` | Main/SQL/headers/ExprTree.h:60-62 | a fresh double literal node |
| `ExprNodes.Node.StringLiteral` | Main/SQL/headers/ExprTree.h:110-113 | a fresh string literal node holding the lexeme without its first and last character |
| `ExprNodes.Node.Identifier` | Main/SQL/headers/ExprTree.h:139-143 | a fresh identifier node whose tag is `IDENTIFIER` |
| `ExprNodes.Node.PlusOp` | Main/SQL/headers/ExprTree.h:244-248 | a PlusOp node owning both operands, whose tag is the empty string because the constructor assigns a shadowing local |
| `ExprNodes.Node.BinaryOperator` | Main/SQL/headers/ExprTree.h:202-205 | a Minus, Times, Divide, Gt, Lt, Neq, Or or Eq node owning both operands |
| `ExprNodes.Node.UnaryOperator` | Main/SQL/headers/ExprTree.h:593-595 | a Not, Sum or Avg node owning its operand |
| `ExprNodes.Node.ToString` | Main/SQL/headers/ExprTree.h:39-667 | each node's `toString`, recursing into its operands, is the canonical rendering of its value |
| `ExprNodes.Node.GetType` | Main/SQL/headers/ExprTree.h:46-673 | each node's `getType` reads only its own tag or constant, as `TypeOf` of its value |
| `ExprNodes.Node.SemanticChecking` | Main/SQL/headers/ExprTree.h:26 | the in-place check returns the verdict of `Check` and leaves the subtree as `Check` says, writing nothing outside it; only Identifier and PlusOp nodes get a new tag (`OtherTagsKept`) |
| `ExprNodes.Node.CheckIdentifier` | Main/SQL/headers/ExprTree.h:155-188 | Identifier's check writes only its own tag, as `Check` says |
| `ExprNodes.Node.CheckPlus` | Main/SQL/headers/ExprTree.h:258-277 | PlusOp's check matches `Check`; when the left operand fails, the right subtree is untouched |
| `ExprNodes.Node.ApplyPlusRule` | Main/SQL/headers/ExprTree.h:262-275 | PlusOp's final tests write the verdict and tag `PlusRule` gives |
| `ExprNodes.Node.CheckBinary` | Main/SQL/headers/ExprTree.h:215-572 | the check of every other binary operator matches `Check`; when the left operand fails, the right subtree is untouched |
| `ExprNodes.Node.BinaryVerdict` | Main/SQL/headers/ExprTree.h:219-572 | the zero-divisor test, the operand-kind tests and the same-type test, on the checked operands, give the verdict `BinaryRule` gives |
| `ExprNodes.Node.CheckUnary` | Main/SQL/headers/ExprTree.h:605-614 | Not's, Sum's and Avg's check matches `Check` |
| `ExprNodes.SalaryComparisonInPlace` | Main/SQL/headers/ExprTree.h:130-229 | on nodes built as the parser builds them, `employees.salary > 1000` checks, the identifier node now reports NUMERIC and the comparison BOOL |

## Left out

- The diagnostics each failing check writes to `cout`. A failure is only the verdict `false`; the message text and its kind are not modelled.
- The catalog (`MyDB_Catalog`) is not part of this model. Its `getString` is a lookup in a `map<string, string>`.
- `MyDB_AttType.h` is not part of this model; nothing in the core uses it.
- The formatting of `to_string(double)`. A double literal holds the text that call produced, as an opaque string.
- `shared_ptr` ownership and destructors. `Node.Valid` forbids a node occurring twice inside one tree (such as `x + x`). Separate trees may share a subtree, and checking one of them then rewrites the shared tags, which `modifies Repr()` allows. Sharing inside one tree is not modelled.
- ExprTree.Unquote: the model's strings are sequences of characters, the source's are bytes, and `strlen` stops at the first NUL. The two agree on lexemes whose quote characters are one byte (ASCII) and whose body holds no NUL, which is what the lexer hands over. A multi-byte closing character or an embedded NUL would make the source keep a different substring.
- StringLiteral's in-place NUL write and `strlen` on the lexeme buffer. Only the resulting substring is modelled, for a lexeme of at least two characters (`requires |raw| >= 2`). A one-character lexeme makes the source store the empty string; the lexer never produces one. Only the empty lexeme makes the source write outside the buffer.
- The commented-out stricter rules of `>`, `<`, `!=` and `==`. They are inert.
- One constructor, `BinaryOperator`, stands for the eight classes MinusOp, TimesOp, DivideOp, GtOp, LtOp, NeqOp, OrOp and EqOp, because they differ only in their operator. `UnaryOperator` does the same for NotOp, SumOp and AvgOp.
- Every `Node` has an `attType` field. In the source only Identifier and PlusOp have one; the other kinds never read or write it.
- The integer literal's payload is a 32-bit value. How the parser converts an out-of-range lexeme is outside this core.
