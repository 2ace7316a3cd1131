/** The pure primitives, on values and on the machine's cells: the machine's are those of the source. */
module ZincPrims {
  import opened Wrappers
  import opened ZincCode
  import opened ZincMachine
  import opened ZincMeaning

  const LEAST := -0x8000_0000_0000_0000
  const MOST := 0x7fff_ffff_ffff_ffff
  const MAX_DEPTH := 1000

  const UNARY: set<string> :=
    {"cons?", "number?", "string?", "symbol?", "boolean?", "function?", "empty?", "emptylist", "hd", "tl", "fst", "snd"}

  const BINARY: set<string> := {"+", "-", "*", "/", "<", "<=", ">", ">=", "=", "cons", "@p"}

  function Arity(name: string): nat {
    if name in UNARY then 1 else if name in BINARY then 2 else 0
  }

  // ----- on atoms -----

  /** Numbers are 64 bits wide; what happens beyond is not defined. */
  function Fixed(n: int): Option<Atom> {
    if LEAST <= n <= MOST then Some(Number(n)) else None
  }

  /** Division cuts off towards zero; dividing by zero is not defined. */
  function Quotient(m: int, n: int): (q: int)
    requires n != 0
    ensures Size(m - q * n) < Size(n) && (m - q * n == 0 || (m - q * n < 0) == (m < 0))
  {
    if m >= 0 then m / n else -((-m) / n)
  }

  function Size(n: int): nat {
    if n < 0 then -n else n
  }

  function Arithmetic(name: string, m: int, n: int): Option<Atom> {
    if name == "+" then Fixed(m + n) else if name == "-" then Fixed(m - n) else if name == "*" then Fixed(m * n)
    else if name == "/" then if n == 0 then None else Fixed(Quotient(m, n))
    else
      Some(Truth(if name == "<" then m < n else if name == "<=" then m <= n else if name == ">" then m > n else m >= n))
  }

  predicate Compares(name: string) {
    name == "<" || name == "<=" || name == ">" || name == ">="
  }

  // ----- on values -----

  /** deep_equal, which gives up beyond a depth; functions are not equal to anything. */
  function SameValue(v: Value, w: Value, depth: nat): bool
    decreases v
  {
    depth <= MAX_DEPTH &&
    match (v, w)
    case (Atomic(a), Atomic(b)) => a == b
    case (Empty, Empty) => true
    case (Cons(g, t), Cons(h, u)) => SameValue(g, h, depth + 1) && SameValue(t, u, depth + 1)
    case _ => false
  }

  function Unary(name: string, v: Value): Option<Value> {
    if name == "cons?" then Some(Atomic(Truth(v.Cons?)))
    else if name == "number?" then Some(Atomic(Truth(v.Atomic? && v.a.Number?)))
    else if name == "string?" then Some(Atomic(Truth(v.Atomic? && v.a.Text?)))
    else if name == "symbol?" then Some(Atomic(Truth(v.Atomic? && v.a.Symbol?)))
    else if name == "boolean?" then Some(Atomic(Truth(v.Atomic? && v.a.Truth?)))
    else if name == "function?" then Some(Atomic(Truth(v.Closure?)))
    else if name == "empty?" then Some(Atomic(Truth(v.Empty?)))
    else if name == "emptylist" then if v == Atomic(Number(0)) then Some(Empty) else None
    else if v.Cons? then Some(if name == "hd" || name == "fst" then v.head else v.tail)
    else if v.Empty? && (name == "hd" || name == "tl") then Some(Empty)
    else None
  }

  function Binary(name: string, v: Value, w: Value): Option<Value> {
    if name == "cons" || name == "@p" then Some(Cons(v, w))
    else if name == "=" then Some(Atomic(Truth(SameValue(v, w, 0))))
    else if v.Atomic? && w.Atomic? && v.a.Number? && w.a.Number? then
      var r := Arithmetic(name, v.a.n, w.a.n);
      if r.Some? then Some(Atomic(r.value)) else None
    else if Compares(name) then Some(Atomic(Truth(false)))
    else None
  }

  function Prims(name: string, vs: seq<Value>): Option<Value> {
    if name in UNARY && |vs| == 1 then Unary(name, vs[0])
    else if name in BINARY && |vs| == 2 then Binary(name, vs[0], vs[1])
    else None
  }

  // ----- on cells -----

  function SameCell(v: Cell, w: Cell, depth: nat): bool
    decreases v
  {
    depth <= MAX_DEPTH &&
    match (v, w)
    case (Plain(a), Plain(b)) => a == b
    case (Nil, Nil) => true
    case (Pair(g, t), Pair(h, u)) => SameCell(g, h, depth + 1) && SameCell(t, u, depth + 1)
    case _ => false
  }

  function UnaryCell(name: string, c: Cell): Option<Cell> {
    if name == "cons?" then Some(Plain(Truth(c.Pair?)))
    else if name == "number?" then Some(Plain(Truth(c.Plain? && c.a.Number?)))
    else if name == "string?" then Some(Plain(Truth(c.Plain? && c.a.Text?)))
    else if name == "symbol?" then Some(Plain(Truth(c.Plain? && c.a.Symbol?)))
    else if name == "boolean?" then Some(Plain(Truth(c.Plain? && c.a.Truth?)))
    else if name == "function?" then Some(Plain(Truth(c.Lambda?)))
    else if name == "empty?" then Some(Plain(Truth(c.Nil?)))
    else if name == "emptylist" then if c == Plain(Number(0)) then Some(Nil) else None
    else if c.Pair? then Some(if name == "hd" || name == "fst" then c.head else c.tail)
    else if c.Nil? && (name == "hd" || name == "tl") then Some(Nil)
    else None
  }

  function BinaryCell(name: string, c: Cell, d: Cell): Option<Cell> {
    if name == "cons" || name == "@p" then Some(Pair(c, d))
    else if name == "=" then Some(Plain(Truth(SameCell(c, d, 0))))
    else if c.Plain? && d.Plain? && c.a.Number? && d.a.Number? then
      var r := Arithmetic(name, c.a.n, d.a.n);
      if r.Some? then Some(Plain(r.value)) else None
    else if Compares(name) then Some(Plain(Truth(false)))
    else None
  }

  function CellPrims(name: string, cs: seq<Cell>): Option<Cell> {
    if name in UNARY && |cs| == 1 then UnaryCell(name, cs[0])
    else if name in BINARY && |cs| == 2 then BinaryCell(name, cs[0], cs[1])
    else None
  }

  // ----- they agree -----

  lemma {:induction false} SameAgrees(v: Value, w: Value, depth: nat)
    ensures SameCell(Emit(v), Emit(w), depth) == SameValue(v, w, depth)
    decreases v
  {
    hide LambdaCode;
    if v.Cons? && w.Cons? && depth <= MAX_DEPTH {
      SameAgrees(v.head, w.head, depth + 1);
      SameAgrees(v.tail, w.tail, depth + 1);
    }
  }

  lemma UnaryAgrees(name: string, v: Value)
    requires Unary(name, v).Some?
    ensures UnaryCell(name, Emit(v)) == Some(Emit(Unary(name, v).value))
  {
    hide LambdaCode;
  }

  lemma BinaryAgrees(name: string, v: Value, w: Value)
    requires Binary(name, v, w).Some?
    ensures BinaryCell(name, Emit(v), Emit(w)) == Some(Emit(Binary(name, v, w).value))
  {
    hide LambdaCode, Arithmetic;
    SameAgrees(v, w, 0);
  }

  function Standard(globals: map<string, Value>): Source {
    Source(globals, Prims)
  }

  function Equipped(globals: map<string, Value>): World {
    World(EmitGlobals(globals), Arity, CellPrims)
  }

  lemma OneArity(name: string)
    ensures name in UNARY ==> name !in BINARY
  {
  }

  lemma PrimsAgree(name: string, vs: seq<Value>)
    requires Prims(name, vs).Some?
    ensures Arity(name) == |vs| && CellPrims(name, EmitAll(vs)) == Some(Emit(Prims(name, vs).value))
  {
    hide Unary, Binary, UnaryCell, BinaryCell, Emit, UNARY, BINARY;
    OneArity(name);
    if name in UNARY && |vs| == 1 { UnaryAgrees(name, vs[0]); } else { BinaryAgrees(name, vs[0], vs[1]); }
  }

  /** The machine with its primitives models the source with them. */
  lemma StandardModels(globals: map<string, Value>)
    ensures Models(Equipped(globals), Standard(globals))
  {
    hide Prims, CellPrims, Arity, Emit, EmitAll;
    forall name, vs | Prims(name, vs).Some?
      ensures Arity(name) == |vs| && CellPrims(name, EmitAll(vs)) == Some(Emit(Prims(name, vs).value))
    {
      PrimsAgree(name, vs);
    }
  }
}
