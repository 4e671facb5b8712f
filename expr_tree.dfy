/** Option type for lookups that may miss. */
module Wrappers {
  datatype Option<T> = None | Some(value: T)
}

/**
 * The expression trees of the SQL compiler as values: the closed set of node
 * kinds, their canonical rendering (`toString`) and their type tag
 * (`getType`). The two tags that semantic checking rewrites in place, the
 * one of an Identifier and the one of a PlusOp, are carried in the value;
 * module ExprNodes holds the nodes as objects whose tags are updated.
 */
module ExprTree {

  /** The C++ `int` held by an integer literal. */
  newtype int32 = x: int | -0x8000_0000 <= x < 0x8000_0000

  // Type tags, spelled as the source spells them.
  const NUMERIC: string := "NUMERIC"
  const STRING: string := "STRING"
  const BOOL: string := "BOOL"
  /** The tag of an Identifier that has not been resolved yet. */
  const IDENTIFIER: string := "IDENTIFIER"
  /** The tag of a fresh PlusOp: its constructor assigns a local that shadows
      the field, so the field keeps the empty string it was built with. */
  const UNSET: string := ""

  datatype Literal =
    | BoolVal(b: bool)
    | IntVal(i: int32)
      /** `shown` is the text `to_string` gives for the double. */
    | DoubleVal(shown: string)
      /** `s` is the lexeme without its quotes, see Unquote. */
    | StringVal(s: string)

  /** Every binary operator except `+`, whose node also caches a type tag. */
  datatype BinaryOp = Minus | Times | Divide | Gt | Lt | Neq | Or | Eq
  {
    predicate IsArithmetic() { this == Minus || this == Times || this == Divide }
    predicate IsComparison() { this == Gt || this == Lt || this == Neq || this == Eq }
  }

  datatype UnaryOp = Not | Sum | Avg

  datatype Expr =
    | Lit(lit: Literal)
    | Ident(table: string, att: string, attType: string)
    | Plus(lhs: Expr, rhs: Expr, attType: string)
    | Binary(op: BinaryOp, lhs: Expr, rhs: Expr)
    | Unary(uop: UnaryOp, child: Expr)

  /** The value a StringLiteral stores for a quoted lexeme: the lexeme less
      its first and its last character. */
  function Unquote(raw: string): (s: string)
    requires |raw| >= 2
    ensures [raw[0]] + s + [raw[|raw| - 1]] == raw
  {
    raw[1..|raw| - 1]
  }

  function DigitChar(d: nat): char
    requires d < 10
  {
    (('0' as int) + d) as char
  }

  /** Decimal digits of `n`, most significant first. */
  function NatToDecimal(n: nat): (r: string)
    ensures |r| >= 1
    ensures forall k :: 0 <= k < |r| ==> '0' <= r[k] <= '9'
    ensures |r| > 1 ==> r[0] != '0'
    decreases n
  {
    if n < 10 then [DigitChar(n)] else NatToDecimal(n / 10) + [DigitChar(n % 10)]
  }

  /** The number a string of decimal digits denotes. */
  function DecimalValue(s: string): nat
    requires forall k :: 0 <= k < |s| ==> '0' <= s[k] <= '9'
  {
    if s == [] then 0
    else 10 * DecimalValue(s[..|s| - 1]) + ((s[|s| - 1] as int) - ('0' as int))
  }

  /** `to_string` of a C++ `int`: a minus sign for negatives, then the digits. */
  function IntToString(i: int32): (r: string)
    ensures |r| >= 1 && (r[0] == '-' <==> i < 0)
    ensures forall k :: (if i < 0 then 1 else 0) <= k < |r| ==> '0' <= r[k] <= '9'
  {
    if i < 0 then "-" + NatToDecimal(-(i as int)) else NatToDecimal(i as int)
  }

  function RenderLiteral(l: Literal): string
  {
    match l
    case BoolVal(b) => if b then "bool[true]" else "bool[false]"
    case IntVal(i) => "int[" + IntToString(i) + "]"
    case DoubleVal(shown) => "double[" + shown + "]"
    case StringVal(s) => "string[" + s + "]"
  }

  function IdentText(table: string, att: string): string
  {
    "[" + table + "_" + att + "]"
  }

  function Symbol(op: BinaryOp): string
  {
    match op
    case Minus => "-"
    case Times => "*"
    case Divide => "/"
    case Gt => ">"
    case Lt => "<"
    case Neq => "!="
    case Or => "||"
    case Eq => "=="
  }

  /** What comes before the parenthesised operand of a unary node. */
  function Prefix(op: UnaryOp): string
  {
    match op
    case Not => "!"
    case Sum => "sum"
    case Avg => "avg"
  }

  /** `toString`: the canonical rendering of a tree. */
  function Render(e: Expr): string
  {
    match e
    case Lit(l) => RenderLiteral(l)
    case Ident(t, a, _) => IdentText(t, a)
    case Plus(l, r, _) => "+ (" + Render(l) + ", " + Render(r) + ")"
    case Binary(op, l, r) => Symbol(op) + " (" + Render(l) + ", " + Render(r) + ")"
    case Unary(op, c) => Prefix(op) + "(" + Render(c) + ")"
  }

  function LiteralType(l: Literal): string
  {
    match l
    case BoolVal(_) => BOOL
    case IntVal(_) => NUMERIC
    case DoubleVal(_) => NUMERIC
    case StringVal(_) => STRING
  }

  /** `getType`: a node's own tag; it never looks at the children. */
  function TypeOf(e: Expr): string
  {
    match e
    case Lit(l) => LiteralType(l)
    case Ident(_, _, t) => t
    case Plus(_, _, t) => t
    case Binary(op, _, _) => if op.IsArithmetic() then NUMERIC else BOOL
    case Unary(op, _) => if op == Not then BOOL else NUMERIC
  }
}
