/**
 * What the expression layer guarantees: literal and identifier rules, the
 * per-operator typing rules, the dead branches, the fail-fast order of the
 * check and what a check may change.
 */
module CheckProperties {
  import opened Wrappers
  import opened ExprTree
  import opened SemanticCheck

  // ---------------------------------------------------------------------
  // Rendering

  /** StringLiteral's construction round-trips with quoting. */
  lemma UnquoteInvertsQuoting(s: string, open: char, close: char)
    ensures Unquote([open] + s + [close]) == s
  {
    var raw := [open] + s + [close];
    assert raw[1..|raw| - 1] == s;
  }

  /** The digits `to_string` prints denote the number printed. */
  lemma {:induction false} DecimalRoundTrip(n: nat)
    ensures DecimalValue(NatToDecimal(n)) == n
    decreases n
  {
    var r := NatToDecimal(n);
    if n >= 10 {
      DecimalRoundTrip(n / 10);
      assert r[..|r| - 1] == NatToDecimal(n / 10);
    }
  }

  /** Every rendering opens with a kind tag, a bracket or an operator
      symbol, so it is never the one-character string "0". */
  lemma RenderNeverZero(e: Expr)
    ensures |Render(e)| >= 2 && Render(e)[0] != '0'
  {
    match e
    case Lit(_) =>
    case Ident(_, _, _) =>
    case Plus(_, _, _) =>
    case Binary(op, _, _) =>
      assert |Symbol(op)| >= 1 && Symbol(op)[0] != '0';
    case Unary(op, _) =>
      assert |Prefix(op)| >= 1 && Prefix(op)[0] != '0';
  }

  // ---------------------------------------------------------------------
  // Literals and identifiers

  /** A literal's check succeeds and changes nothing, and its tag is fixed
      whatever the catalog and the FROM clause. */
  lemma LiteralRule(l: Literal, cat: Catalog, from: TableList)
    ensures Check(Lit(l), cat, from) == (true, Lit(l))
    ensures TypeOf(Lit(l)) == (if l.BoolVal? then BOOL else if l.StringVal? then STRING else NUMERIC)
  {
  }

  /** Identifier's check: it fails when no FROM entry carries its alias or
      the first such entry's table lacks the attribute, and then leaves the
      node alone; otherwise it maps the catalog type to a tag. */
  lemma IdentifierRule(t: string, a: string, ty: string, cat: Catalog, from: TableList)
    ensures var (ok, e') := Check(Ident(t, a, ty), cat, from);
      && (ok <==> exists i :: 0 <= i < |from| && from[i].1 == t &&
                    (forall j :: 0 <= j < i ==> from[j].1 != t) &&
                    AttributeKey(from[i].0, a) in cat)
      && (!ok ==> e' == Ident(t, a, ty))
      && e'.Ident? && e'.table == t && e'.att == a
  {
    var p := LookupAlias(from, t);
    if p.Some? {
      var i :| 0 <= i < |from| && from[i] == (p.value, t) && forall j :: 0 <= j < i ==> from[j].1 != t;
      forall i' | 0 <= i' < |from| && from[i'].1 == t && (forall j :: 0 <= j < i' ==> from[j].1 != t)
        ensures i' == i
      {
      }
    }
  }

  /** The tag a successful Identifier check leaves: int and double give
      NUMERIC, string STRING, bool BOOL, and any other catalog type keeps
      the tag the node had. */
  lemma IdentifierTypeMapping(t: string, a: string, ty: string, cat: Catalog, from: TableList)
    requires Check(Ident(t, a, ty), cat, from).0
    ensures LookupAlias(from, t).Some? && AttributeKey(LookupAlias(from, t).value, a) in cat
    ensures var physical := cat[AttributeKey(LookupAlias(from, t).value, a)];
      var ty' := TypeOf(Check(Ident(t, a, ty), cat, from).1);
      && (physical == "int" || physical == "double" ==> ty' == NUMERIC)
      && (physical == "string" ==> ty' == STRING)
      && (physical == "bool" ==> ty' == BOOL)
      && (physical !in {"int", "double", "string", "bool"} ==> ty' == ty)
  {
  }

  // ---------------------------------------------------------------------
  // Operators, one level at a time

  /** Minus, Times and Divide succeed exactly when both operands check and
      both report NUMERIC; Divide's zero test never fires, and the
      "same type" test after the NUMERIC test never decides anything. */
  lemma {:induction false} ArithmeticRule(op: BinaryOp, l: Expr, r: Expr, cat: Catalog, from: TableList)
    requires op.IsArithmetic()
    ensures var (okL, l') := Check(l, cat, from);
      var (okR, r') := Check(r, cat, from);
      Check(Binary(op, l, r), cat, from).0 <==>
        okL && okR && TypeOf(l') == NUMERIC && TypeOf(r') == NUMERIC
    ensures TypeOf(Check(Binary(op, l, r), cat, from).1) == NUMERIC
  {
    RenderNeverZero(Check(r, cat, from).1);
  }

  /** Divide checks exactly as Minus does. */
  lemma {:induction false} DivideActsAsMinus(l: Expr, r: Expr, cat: Catalog, from: TableList)
    ensures var m := Check(Binary(Minus, l, r), cat, from);
      Check(Binary(Divide, l, r), cat, from) == (m.0, Binary(Divide, m.1.lhs, m.1.rhs))
  {
    RenderNeverZero(Check(r, cat, from).1);
  }

  /** PlusOp succeeds exactly when both operands check with one common tag,
      STRING or NUMERIC, which it then takes; when it fails its own tag is
      what it was. */
  lemma PlusOpRule(l: Expr, r: Expr, ty: string, cat: Catalog, from: TableList)
    ensures var (okL, l') := Check(l, cat, from);
      var (okR, r') := Check(r, cat, from);
      var (ok, e') := Check(Plus(l, r, ty), cat, from);
      && (ok <==> okL && okR && TypeOf(l') == TypeOf(r') && (TypeOf(l') == STRING || TypeOf(l') == NUMERIC))
      && (ok ==> TypeOf(e') == TypeOf(l'))
      && (!ok ==> TypeOf(e') == ty)
  {
  }

  /** Gt, Lt, Neq and Eq need both operands to check with equal tags, of
      any kind; Or needs both BOOL. All of them report BOOL. */
  lemma LogicalRule(op: BinaryOp, l: Expr, r: Expr, cat: Catalog, from: TableList)
    requires !op.IsArithmetic()
    ensures var (okL, l') := Check(l, cat, from);
      var (okR, r') := Check(r, cat, from);
      Check(Binary(op, l, r), cat, from).0 <==>
        okL && okR && TypeOf(l') == TypeOf(r') && (op == Or ==> TypeOf(l') == BOOL)
    ensures TypeOf(Check(Binary(op, l, r), cat, from).1) == BOOL
  {
  }

  /** Not needs a BOOL operand, Sum and Avg a NUMERIC one; the node reports
      that same tag. */
  lemma UnaryOpRule(op: UnaryOp, c: Expr, cat: Catalog, from: TableList)
    ensures var (okC, c') := Check(c, cat, from);
      var want := if op == Not then BOOL else NUMERIC;
      && (Check(Unary(op, c), cat, from).0 <==> okC && TypeOf(c') == want)
      && TypeOf(Check(Unary(op, c), cat, from).1) == want
  {
  }

  /** Fail-fast: when the left operand fails, the right one is returned
      untouched and the node fails, whatever the operator. */
  lemma LeftFailureSkipsRight(l: Expr, r: Expr, ty: string, cat: Catalog, from: TableList)
    requires !Check(l, cat, from).0
    ensures Check(Plus(l, r, ty), cat, from) == (false, Plus(Check(l, cat, from).1, r, ty))
    ensures forall op :: Check(Binary(op, l, r), cat, from) == (false, Binary(op, Check(l, cat, from).1, r))
  {
  }

  // ---------------------------------------------------------------------
  // Whole trees

  /** The check, with all its branches and side effects, agrees with the
      declarative typing: it succeeds exactly on the trees that have a type,
      and the checked root then reports that type. */
  lemma {:induction false} CheckAgreesWithInference(e: Expr, cat: Catalog, from: TableList)
    ensures Check(e, cat, from).0 <==> InferType(e, cat, from).Some?
    ensures Check(e, cat, from).0 ==> TypeOf(Check(e, cat, from).1) == InferType(e, cat, from).value
  {
    match e
    case Lit(_) =>
    case Ident(_, _, _) =>
    case Plus(l, r, _) =>
      CheckAgreesWithInference(l, cat, from);
      CheckAgreesWithInference(r, cat, from);
    case Binary(op, l, r) =>
      CheckAgreesWithInference(l, cat, from);
      CheckAgreesWithInference(r, cat, from);
      RenderNeverZero(Check(r, cat, from).1);
    case Unary(_, c) =>
      CheckAgreesWithInference(c, cat, from);
  }

  /** The empty tag a PlusOp is built with never shows: the check's verdict
      and the tag it leaves on success do not depend on the tag before. */
  lemma PlusInitialTagIrrelevant(l: Expr, r: Expr, ty1: string, ty2: string, cat: Catalog, from: TableList)
    ensures Check(Plus(l, r, ty1), cat, from).0 == Check(Plus(l, r, ty2), cat, from).0
    ensures Check(Plus(l, r, ty1), cat, from).0 ==>
      TypeOf(Check(Plus(l, r, ty1), cat, from).1) == TypeOf(Check(Plus(l, r, ty2), cat, from).1)
  {
    CheckAgreesWithInference(Plus(l, r, ty1), cat, from);
    CheckAgreesWithInference(Plus(l, r, ty2), cat, from);
  }

  /** `e'` is `e` with some Identifier tags set to NUMERIC, STRING or BOOL
      and some PlusOp tags set to STRING or NUMERIC, nothing else changed. */
  predicate OnlyTagsResolved(e: Expr, e': Expr)
  {
    match e
    case Lit(_) => e' == e
    case Ident(t, a, ty) =>
      e'.Ident? && e'.table == t && e'.att == a &&
      (e'.attType == ty || e'.attType == NUMERIC || e'.attType == STRING || e'.attType == BOOL)
    case Plus(l, r, ty) =>
      e'.Plus? && OnlyTagsResolved(l, e'.lhs) && OnlyTagsResolved(r, e'.rhs) &&
      (e'.attType == ty || e'.attType == STRING || e'.attType == NUMERIC)
    case Binary(op, l, r) =>
      e'.Binary? && e'.op == op && OnlyTagsResolved(l, e'.lhs) && OnlyTagsResolved(r, e'.rhs)
    case Unary(op, c) =>
      e'.Unary? && e'.uop == op && OnlyTagsResolved(c, e'.child)
  }

  /** The only state a check writes is the two tags, and only with resolved
      type names. */
  lemma {:induction false} CheckOnlyResolvesTags(e: Expr, cat: Catalog, from: TableList)
    ensures OnlyTagsResolved(e, Check(e, cat, from).1)
  {
    match e
    case Lit(_) =>
    case Ident(_, _, _) =>
    case Plus(l, r, _) =>
      CheckOnlyResolvesTags(l, cat, from);
      CheckOnlyResolvesTags(r, cat, from);
      OnlyTagsResolvedReflexive(r);
    case Binary(_, l, r) =>
      CheckOnlyResolvesTags(l, cat, from);
      CheckOnlyResolvesTags(r, cat, from);
      OnlyTagsResolvedReflexive(r);
    case Unary(_, c) =>
      CheckOnlyResolvesTags(c, cat, from);
  }

  lemma {:induction false} OnlyTagsResolvedReflexive(e: Expr)
    ensures OnlyTagsResolved(e, e)
  {
    match e
    case Lit(_) =>
    case Ident(_, _, _) =>
    case Plus(l, r, _) =>
      OnlyTagsResolvedReflexive(l);
      OnlyTagsResolvedReflexive(r);
    case Binary(_, l, r) =>
      OnlyTagsResolvedReflexive(l);
      OnlyTagsResolvedReflexive(r);
    case Unary(_, c) =>
      OnlyTagsResolvedReflexive(c);
  }

  /** A check never changes how a tree renders: `toString` ignores the tags. */
  lemma {:induction false} ResolvedTagsRenderAlike(e: Expr, e': Expr)
    requires OnlyTagsResolved(e, e')
    ensures Render(e') == Render(e)
  {
    match e
    case Lit(_) =>
    case Ident(_, _, _) =>
    case Plus(l, r, _) =>
      ResolvedTagsRenderAlike(l, e'.lhs);
      ResolvedTagsRenderAlike(r, e'.rhs);
    case Binary(_, l, r) =>
      ResolvedTagsRenderAlike(l, e'.lhs);
      ResolvedTagsRenderAlike(r, e'.rhs);
    case Unary(_, c) =>
      ResolvedTagsRenderAlike(c, e'.child);
  }

  /** Checking a checked tree again, against the same catalog and FROM
      clause, gives the same verdict and changes nothing more. */
  lemma {:induction false} CheckIdempotent(e: Expr, cat: Catalog, from: TableList)
    ensures var (ok, e') := Check(e, cat, from);
      Check(e', cat, from) == (ok, e')
  {
    match e
    case Lit(_) =>
    case Ident(_, _, _) =>
    case Plus(l, r, _) =>
      CheckIdempotent(l, cat, from);
      CheckIdempotent(r, cat, from);
    case Binary(_, l, r) =>
      CheckIdempotent(l, cat, from);
      CheckIdempotent(r, cat, from);
    case Unary(_, c) =>
      CheckIdempotent(c, cat, from);
  }

  // ---------------------------------------------------------------------
  // Worked cases

  /** `employees.salary > 1000` over FROM employees, where salary is an int:
      the check resolves the identifier to NUMERIC and succeeds. */
  lemma SalaryComparison()
    ensures var cat := map["employees.salary.type" := "int"];
      var from := [("employees", "employees")];
      var salary := Ident("employees", "salary", IDENTIFIER);
      Check(Binary(Gt, salary, Lit(IntVal(1000))), cat, from) ==
        (true, Binary(Gt, Ident("employees", "salary", NUMERIC), Lit(IntVal(1000))))
  {
    assert AttributeKey("employees", "salary") == "employees.salary.type";
  }

  /** Dividing by the integer literal 0 passes the check: its rendering is
      "int[0]", never "0". */
  lemma DivideByLiteralZeroPasses()
    ensures Render(Lit(IntVal(0))) == "int[0]"
    ensures Check(Binary(Divide, Lit(IntVal(5)), Lit(IntVal(0))), map[], []).0
  {
  }
}
