/**
 * Semantic checking of an expression tree against a catalog and the FROM
 * clause, as a function from the tree before the check to the verdict and
 * the tree after it. Every branch of the source's `semanticChecking` is kept,
 * including the ones that cannot fire; module CheckProperties proves which.
 */
module SemanticCheck {
  import opened Wrappers
  import opened ExprTree

  /** The catalog's `getString`: a key is present or it is not. */
  type Catalog = map<string, string>

  /** The FROM clause: (physical table name, alias) pairs, in order. */
  type TableList = seq<(string, string)>

  /** The physical table of the first FROM entry whose alias is `alias`. */
  function LookupAlias(from: TableList, alias: string): (r: Option<string>)
    ensures r.None? <==> forall i :: 0 <= i < |from| ==> from[i].1 != alias
    ensures r.Some? ==>
      exists i :: 0 <= i < |from| && from[i] == (r.value, alias) &&
        forall j :: 0 <= j < i ==> from[j].1 != alias
  {
    if |from| == 0 then None
    else if from[0].1 == alias then Some(from[0].0)
    else
      var r := LookupAlias(from[1..], alias);
      assert r.Some? ==>
        exists i :: 0 <= i < |from| && from[i] == (r.value, alias) &&
          forall j :: 0 <= j < i ==> from[j].1 != alias
      by {
        if r.Some? {
          var i :| 0 <= i < |from[1..]| && from[1..][i] == (r.value, alias) &&
            forall j :: 0 <= j < i ==> from[1..][j].1 != alias;
          assert from[i + 1] == (r.value, alias);
          assert forall j :: 0 <= j < i + 1 ==> from[j].1 != alias by {
            forall j | 0 <= j < i + 1 ensures from[j].1 != alias {
              if j > 0 { assert from[j] == from[1..][j - 1]; }
            }
          }
        }
      }
      r
  }

  /** The catalog key that holds an attribute's physical type. */
  function AttributeKey(physicalTable: string, att: string): string
  {
    physicalTable + "." + att + ".type"
  }

  /** The tag an Identifier takes for a catalog type string; a string outside
      the four known ones leaves the previous tag in place. */
  function IdentifierType(physical: string, prior: string): (r: string)
    ensures r == NUMERIC || r == STRING || r == BOOL || r == prior
    ensures r == prior <== physical !in ["int", "double", "string", "bool"]
  {
    if physical == "int" || physical == "double" then NUMERIC
    else if physical == "string" then STRING
    else if physical == "bool" then BOOL
    else prior
  }

  /** Identifier's check: the verdict and the node's tag afterwards. */
  function CheckIdent(table: string, att: string, attType: string, cat: Catalog, from: TableList): (r: (bool, string))
    ensures r.0 <==> (exists i :: 0 <= i < |from| && from[i].1 == table && AttributeKey(from[i].0, att) in cat &&
                                 forall j :: 0 <= j < i ==> from[j].1 != table)
    ensures !r.0 ==> r.1 == attType
  {
    match LookupAlias(from, table)
    case None => (false, attType)
    case Some(physical) =>
      var key := AttributeKey(physical, att);
      if key !in cat then (false, attType) else (true, IdentifierType(cat[key], attType))
  }

  /** PlusOp's rule once both operands have checked: the verdict and the
      node's tag afterwards, `prior` being the tag before. */
  function PlusRule(lt: string, rt: string, prior: string): (r: (bool, string))
    ensures r.0 <==> lt == rt && (lt == STRING || lt == NUMERIC)
    ensures r.1 == (if r.0 then lt else prior)
  {
    if lt != rt then (false, prior)
    else if lt == STRING then (true, STRING)
    else if lt == NUMERIC then (true, NUMERIC)
    else (false, prior)
  }

  /** The rule of every other binary operator once both operands have
      checked, with the source's tests in the source's order. */
  function BinaryRule(op: BinaryOp, l: Expr, r: Expr): (ok: bool)
    ensures ok ==> TypeOf(l) == TypeOf(r)
    ensures ok && op.IsArithmetic() ==> TypeOf(l) == NUMERIC
    ensures ok && op == Or ==> TypeOf(l) == BOOL
  {
    var lt, rt := TypeOf(l), TypeOf(r);
    match op
    case Minus | Times =>
      if lt != NUMERIC || rt != NUMERIC then false else lt == rt
    case Divide =>
      if Render(r) == "0" then false
      else if lt != NUMERIC || rt != NUMERIC then false
      else lt == rt
    case Or =>
      if lt != BOOL || rt != BOOL then false else lt == rt
    case Gt | Lt | Neq | Eq =>
      lt == rt
  }

  /** The rule of a unary operator once its operand has checked: the operand
      must carry the very tag the operator node itself reports. */
  function UnaryRule(op: UnaryOp, t: string): (ok: bool)
    ensures forall c: Expr :: ok <==> t == TypeOf(Unary(op, c))
  {
    match op
    case Not => t == BOOL
    case Sum | Avg => t == NUMERIC
  }

  /**
   * `semanticChecking`: the verdict and the tree as the check leaves it. A
   * binary node checks its left operand first and does not touch the right
   * one when the left fails; a failed operand keeps whatever tags its own
   * check already rewrote.
   */
  function Check(e: Expr, cat: Catalog, from: TableList): (bool, Expr)
  {
    match e
    case Lit(_) => (true, e)
    case Ident(t, a, ty) =>
      var (ok, ty') := CheckIdent(t, a, ty, cat, from);
      (ok, Ident(t, a, ty'))
    case Plus(l, r, ty) =>
      var (okL, l') := Check(l, cat, from);
      if !okL then (false, Plus(l', r, ty))
      else
        var (okR, r') := Check(r, cat, from);
        if !okR then (false, Plus(l', r', ty))
        else
          var (ok, ty') := PlusRule(TypeOf(l'), TypeOf(r'), ty);
          (ok, Plus(l', r', ty'))
    case Binary(op, l, r) =>
      var (okL, l') := Check(l, cat, from);
      if !okL then (false, Binary(op, l', r))
      else
        var (okR, r') := Check(r, cat, from);
        if !okR then (false, Binary(op, l', r'))
        else (BinaryRule(op, l', r'), Binary(op, l', r'))
    case Unary(op, c) =>
      var (okC, c') := Check(c, cat, from);
      if !okC then (false, Unary(op, c'))
      else (UnaryRule(op, TypeOf(c')), Unary(op, c'))
  }

  /**
   * Declarative typing, independent of the order of the check and of its
   * side effects: the type a tree has, or None when it is ill-typed. The
   * Divide zero test and the "same type" tests that follow an "all numeric"
   * or "all boolean" test have no counterpart here.
   */
  function InferType(e: Expr, cat: Catalog, from: TableList): Option<string>
  {
    match e
    case Lit(BoolVal(_)) => Some(BOOL)
    case Lit(IntVal(_)) => Some(NUMERIC)
    case Lit(DoubleVal(_)) => Some(NUMERIC)
    case Lit(StringVal(_)) => Some(STRING)
    case Ident(t, a, ty) =>
      var p := LookupAlias(from, t);
      if p.Some? && AttributeKey(p.value, a) in cat
      then Some(IdentifierType(cat[AttributeKey(p.value, a)], ty))
      else None
    case Plus(l, r, _) =>
      var tl, tr := InferType(l, cat, from), InferType(r, cat, from);
      if tl == tr == Some(STRING) || tl == tr == Some(NUMERIC) then tl else None
    case Binary(op, l, r) =>
      var tl, tr := InferType(l, cat, from), InferType(r, cat, from);
      if op.IsArithmetic() then
        (if tl == tr == Some(NUMERIC) then Some(NUMERIC) else None)
      else if op == Or then
        (if tl == tr == Some(BOOL) then Some(BOOL) else None)
      else
        (if tl.Some? && tl == tr then Some(BOOL) else None)
    case Unary(Not, c) =>
      if InferType(c, cat, from) == Some(BOOL) then Some(BOOL) else None
    case Unary(_, c) =>
      if InferType(c, cat, from) == Some(NUMERIC) then Some(NUMERIC) else None
  }
}
