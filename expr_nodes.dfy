/**
 * The expression tree as the compiler holds it: one object per node, each
 * owning its operands, with the type tag of Identifier and PlusOp nodes
 * updated in place by `SemanticChecking`. Each node is proved to behave as
 * SemanticCheck.Check says of its value, `Model()`.
 */
module ExprNodes {
  import opened Wrappers
  import opened ExprTree
  import opened SemanticCheck
  import CheckProperties

  /**
   * Identifier's scan of the FROM clause: stop at the first entry whose alias
   * is `alias` and report its physical table.
   */
  method FindTable(from: TableList, alias: string) returns (found: bool, physical: string)
    ensures found <==> LookupAlias(from, alias).Some?
    ensures found ==> physical == LookupAlias(from, alias).value
  {
    found := false;
    physical := "";
    var i := 0;
    while i < |from|
      invariant 0 <= i <= |from|
      invariant LookupAlias(from, alias) == LookupAlias(from[i..], alias)
    {
      if from[i].1 == alias {
        physical := from[i].0;
        found := true;
        break;
      }
      assert from[i..][1..] == from[i + 1..];
      i := i + 1;
    }
  }

  /** Which class of the source a node belongs to, with its fixed payload. */
  datatype Kind =
    | LitNode(lit: Literal)
    | IdentNode(table: string, att: string)
    | PlusNode
    | BinaryNode(op: BinaryOp)
    | UnaryNode(uop: UnaryOp)

  class Node {
    const kind: Kind
    /** The left operand, or the only operand of a unary node. */
    const lhs: Node?
    /** The right operand of a binary node. */
    const rhs: Node?
    /** The tag Identifier and PlusOp report; the other kinds never read it. */
    var attType: string
    /** Every node strictly inside this one's subtree. */
    ghost const Below: set<object>

    ghost function Repr(): set<object>
    {
      {this} + Below
    }

    /** The node owns its operands exclusively: the tree is finite, acyclic
        and no subtree is shared. */
    ghost predicate Valid()
      decreases Below
    {
      && this !in Below
      && match kind
        case LitNode(_) => lhs == null && rhs == null && Below == {}
        case IdentNode(_, _) => lhs == null && rhs == null && Below == {}
        case UnaryNode(_) =>
          && lhs != null && rhs == null
          && Below == lhs.Repr() && lhs !in lhs.Below
          && lhs.Valid()
        case PlusNode | BinaryNode(_) =>
          && lhs != null && rhs != null
          && Below == lhs.Repr() + rhs.Repr() && lhs.Repr() !! rhs.Repr()
          && lhs !in lhs.Below && rhs !in rhs.Below
          && lhs.Valid() && rhs.Valid()
    }

    /** Only Identifier and PlusOp nodes among `s` may have a new tag. */
    static twostate predicate OtherTagsKept(s: set<object>)
      reads s
    {
      forall n: Node | n in s && !(n.kind.IdentNode? || n.kind.PlusNode?) :: n.attType == old(n.attType)
    }

    /** The value of the subtree rooted here, tags as they stand now. */
    ghost function Model(): Expr
      requires Valid()
      reads Repr()
      decreases Below
    {
      match kind
      case LitNode(l) => Lit(l)
      case IdentNode(t, a) => Ident(t, a, attType)
      case PlusNode => Plus(lhs.Model(), rhs.Model(), attType)
      case BinaryNode(op) => Binary(op, lhs.Model(), rhs.Model())
      case UnaryNode(op) => Unary(op, lhs.Model())
    }

    constructor BoolLiteral(b: bool)
      ensures Valid() && fresh(Repr()) && Model() == Lit(BoolVal(b))
    {
      kind, lhs, rhs, attType, Below := LitNode(BoolVal(b)), null, null, UNSET, {};
    }

    constructor IntLiteral(i: int32)
      ensures Valid() && fresh(Repr()) && Model() == Lit(IntVal(i))
    {
      kind, lhs, rhs, attType, Below := LitNode(IntVal(i)), null, null, UNSET, {};
    }

    constructor DoubleLiteral(shown: string)
      ensures Valid() && fresh(Repr()) && Model() == Lit(DoubleVal(shown))
    {
      kind, lhs, rhs, attType, Below := LitNode(DoubleVal(shown)), null, null, UNSET, {};
    }

    /** `raw` is the quoted lexeme; the node keeps it without the quotes. */
    constructor StringLiteral(raw: string)
      requires |raw| >= 2
      ensures Valid() && fresh(Repr())
      ensures Model() == Lit(StringVal(raw[1..|raw| - 1]))
    {
      kind, lhs, rhs, attType, Below := LitNode(StringVal(Unquote(raw))), null, null, UNSET, {};
    }

    constructor Identifier(table: string, att: string)
      ensures Valid() && fresh(Repr()) && Model() == Ident(table, att, IDENTIFIER)
    {
      kind, lhs, rhs, attType, Below := IdentNode(table, att), null, null, IDENTIFIER, {};
    }

    /** The tag starts empty, not NUMERIC: see ExprTree.UNSET. */
    constructor PlusOp(l: Node, r: Node)
      requires l.Valid() && r.Valid() && l.Repr() !! r.Repr()
      ensures Valid() && lhs == l && rhs == r && Below == l.Repr() + r.Repr()
      ensures Model() == Plus(l.Model(), r.Model(), UNSET)
    {
      kind, lhs, rhs, attType, Below := PlusNode, l, r, UNSET, l.Repr() + r.Repr();
    }

    /** MinusOp, TimesOp, DivideOp, GtOp, LtOp, NeqOp, OrOp and EqOp. */
    constructor BinaryOperator(op: BinaryOp, l: Node, r: Node)
      requires l.Valid() && r.Valid() && l.Repr() !! r.Repr()
      ensures Valid() && lhs == l && rhs == r && Below == l.Repr() + r.Repr()
      ensures Model() == Binary(op, l.Model(), r.Model())
    {
      kind, lhs, rhs, attType, Below := BinaryNode(op), l, r, UNSET, l.Repr() + r.Repr();
    }

    /** NotOp, SumOp and AvgOp. */
    constructor UnaryOperator(op: UnaryOp, c: Node)
      requires c.Valid()
      ensures Valid() && lhs == c && Below == c.Repr()
      ensures Model() == Unary(op, c.Model())
    {
      kind, lhs, rhs, attType, Below := UnaryNode(op), c, null, UNSET, c.Repr();
    }

    /** `toString`. */
    function ToString(): (r: string)
      requires Valid()
      reads Repr()
      ensures r == Render(Model())
      decreases Below
    {
      match kind
      case LitNode(l) => RenderLiteral(l)
      case IdentNode(t, a) => IdentText(t, a)
      case PlusNode => "+ (" + lhs.ToString() + ", " + rhs.ToString() + ")"
      case BinaryNode(op) => Symbol(op) + " (" + lhs.ToString() + ", " + rhs.ToString() + ")"
      case UnaryNode(op) => Prefix(op) + "(" + lhs.ToString() + ")"
    }

    /** `getType`: the node's own tag, never its operands'. */
    function GetType(): (r: string)
      requires Valid()
      reads Repr()
      ensures r == TypeOf(Model())
    {
      match kind
      case LitNode(l) => LiteralType(l)
      case IdentNode(_, _) => attType
      case PlusNode => attType
      case BinaryNode(op) => if op.IsArithmetic() then NUMERIC else BOOL
      case UnaryNode(op) => if op == Not then BOOL else NUMERIC
    }

    /** `semanticChecking`: the verdict, with the tags below rewritten as
        SemanticCheck.Check describes; nothing outside the subtree changes. */
    method SemanticChecking(cat: Catalog, from: TableList) returns (ok: bool)
      requires Valid()
      modifies Repr()
      ensures (ok, Model()) == Check(old(Model()), cat, from)
      ensures OtherTagsKept(Repr())
      decreases Below, 1
    {
      match kind
      case LitNode(_) =>
        ok := true;
      case IdentNode(t, a) =>
        ok := CheckIdentifier(t, a, cat, from);
      case PlusNode =>
        ok := CheckPlus(cat, from);
      case BinaryNode(op) =>
        ok := CheckBinary(op, cat, from);
      case UnaryNode(op) =>
        ok := CheckUnary(op, cat, from);
    }

    method CheckIdentifier(t: string, a: string, cat: Catalog, from: TableList) returns (ok: bool)
      requires Valid() && kind == IdentNode(t, a)
      modifies this
      ensures (ok, Model()) == Check(old(Model()), cat, from)
    {
      var found, physical := FindTable(from, t);
      if !found {
        return false;
      }
      var key := physical + "." + a + ".type";
      if key !in cat {
        return false;
      }
      var attributeType := cat[key];
      if attributeType == "int" || attributeType == "double" {
        attType := NUMERIC;
      } else if attributeType == "string" {
        attType := STRING;
      } else if attributeType == "bool" {
        attType := BOOL;
      }
      return true;
    }

    method CheckPlus(cat: Catalog, from: TableList) returns (ok: bool)
      requires Valid() && kind == PlusNode
      modifies Repr()
      ensures (ok, Model()) == Check(old(Model()), cat, from)
      ensures OtherTagsKept(Repr())
      ensures !Check(old(lhs.Model()), cat, from).0 ==> !ok && unchanged(rhs.Repr())
      decreases Below, 0
    {
      var okL := lhs.SemanticChecking(cat, from);
      if !okL {
        return false;
      }
      var okR := rhs.SemanticChecking(cat, from);
      if !okR {
        return false;
      }
      ok := ApplyPlusRule(lhs.GetType(), rhs.GetType());
    }

    /** PlusOp's rule once both operands have checked: the common tag, when
        it is STRING or NUMERIC, becomes this node's tag. */
    method ApplyPlusRule(lt: string, rt: string) returns (ok: bool)
      requires kind == PlusNode
      modifies this
      ensures (ok, attType) == PlusRule(lt, rt, old(attType))
    {
      if lt != rt {
        ok := false;
      } else if lt == STRING {
        attType := STRING;
        ok := true;
      } else if lt == NUMERIC {
        attType := NUMERIC;
        ok := true;
      } else {
        ok := false;
      }
    }

    method CheckBinary(op: BinaryOp, cat: Catalog, from: TableList) returns (ok: bool)
      requires Valid() && kind == BinaryNode(op)
      modifies Repr()
      ensures (ok, Model()) == Check(old(Model()), cat, from)
      ensures OtherTagsKept(Repr())
      ensures !Check(old(lhs.Model()), cat, from).0 ==> !ok && unchanged(rhs.Repr())
      decreases Below, 0
    {
      var okL := lhs.SemanticChecking(cat, from);
      if !okL {
        return false;
      }
      var okR := rhs.SemanticChecking(cat, from);
      if !okR {
        return false;
      }
      ok := BinaryVerdict(op);
    }

    /** The rule of every other binary operator once both operands have
        checked, in the source's order: the zero divisor, the operand
        kinds, then equal tags. */
    method BinaryVerdict(op: BinaryOp) returns (ok: bool)
      requires Valid() && kind == BinaryNode(op)
      ensures ok == BinaryRule(op, lhs.Model(), rhs.Model())
    {
      if op == Divide && rhs.ToString() == "0" {
        return false;
      }
      var lt, rt := lhs.GetType(), rhs.GetType();
      if op.IsArithmetic() {
        if lt != NUMERIC || rt != NUMERIC {
          return false;
        }
      } else if op == Or {
        if lt != BOOL || rt != BOOL {
          return false;
        }
      }
      ok := lt == rt;
    }

    method CheckUnary(op: UnaryOp, cat: Catalog, from: TableList) returns (ok: bool)
      requires Valid() && kind == UnaryNode(op)
      modifies Repr()
      ensures (ok, Model()) == Check(old(Model()), cat, from)
      ensures OtherTagsKept(Repr())
      decreases Below, 0
    {
      var okC := lhs.SemanticChecking(cat, from);
      if !okC {
        return false;
      }
      var t := lhs.GetType();
      ok := if op == Not then t == BOOL else t == NUMERIC;
    }
  }

  /**
   * `employees.salary > 1000` over FROM employees, salary being an int: the
   * parent's check resolves the Identifier node it owns, in place.
   */
  method SalaryComparisonInPlace() returns (ok: bool, salaryType: string, rootType: string)
    ensures ok && salaryType == NUMERIC && rootType == BOOL
  {
    var salary := new Node.Identifier("employees", "salary");
    var limit := new Node.IntLiteral(1000);
    var gt := new Node.BinaryOperator(Gt, salary, limit);
    assert salary.GetType() == IDENTIFIER;
    CheckProperties.SalaryComparison();
    ok := gt.SemanticChecking(map["employees.salary.type" := "int"], [("employees", "employees")]);
    assert gt.Model().lhs == salary.Model() == Ident("employees", "salary", NUMERIC);
    salaryType, rootType := salary.GetType(), gt.GetType();
  }
}
