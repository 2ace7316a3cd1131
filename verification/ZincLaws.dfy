/** The laws of the machine's primitives: arithmetic and order on 64-bit numbers, lists, and equality. */
module ZincLaws {
  import opened Wrappers
  import opened ZincCode
  import opened ZincMachine
  import opened ZincPrims

  function Num(n: int): Cell {
    Plain(Number(n))
  }

  predicate Wide(n: int) {
    -0x8000_0000_0000_0000 <= n <= 0x7fff_ffff_ffff_ffff
  }

  function Apply(name: string, c: Cell, d: Cell): Option<Cell> {
    CellPrims(name, [c, d])
  }

  function Apply1(name: string, c: Cell): Option<Cell> {
    CellPrims(name, [c])
  }

  /** Both are applied in turn, when the first gives something. */
  function Also(name: string, c: Option<Cell>, d: Option<Cell>): Option<Cell> {
    if c.Some? && d.Some? then Apply(name, c.value, d.value) else None
  }

  lemma OfTwo(name: string, c: Cell, d: Cell)
    requires name in BINARY
    ensures Apply(name, c, d) == BinaryCell(name, c, d)
  {
    hide BinaryCell, BINARY, UNARY;
  }

  lemma OfOne(name: string, c: Cell)
    requires name in UNARY
    ensures Apply1(name, c) == UnaryCell(name, c)
  {
    hide UnaryCell, BINARY, UNARY;
  }

  // ----- arithmetic -----

  /** What the operations do, and that they fail exactly where the result is too wide. */
  lemma Computes(m: int, n: int)
    ensures Apply("+", Num(m), Num(n)) == if Wide(m + n) then Some(Num(m + n)) else None
    ensures Apply("-", Num(m), Num(n)) == if Wide(m - n) then Some(Num(m - n)) else None
    ensures Apply("*", Num(m), Num(n)) == if Wide(m * n) then Some(Num(m * n)) else None
  {
    OfTwo("+", Num(m), Num(n));
    OfTwo("-", Num(m), Num(n));
    OfTwo("*", Num(m), Num(n));
    hide CellPrims;
  }

  /** Subtracting undoes adding, and adding undoes subtracting. */
  lemma Undoes(m: int, n: int)
    requires Wide(m)
    ensures Wide(m + n) ==> Also("-", Apply("+", Num(m), Num(n)), Some(Num(n))) == Some(Num(m))
    ensures Wide(m - n) ==> Also("+", Apply("-", Num(m), Num(n)), Some(Num(n))) == Some(Num(m))
  {
    hide Apply;
    Computes(m, n);
    Computes(m + n, n);
    Computes(m - n, n);
  }

  lemma Commutes(m: int, n: int)
    ensures Apply("+", Num(m), Num(n)) == Apply("+", Num(n), Num(m))
    ensures Apply("*", Num(m), Num(n)) == Apply("*", Num(n), Num(m))
  {
    hide Apply;
    Computes(m, n);
    Computes(n, m);
  }

  lemma Units(n: int)
    requires Wide(n)
    ensures Apply("+", Num(n), Num(0)) == Some(Num(n)) == Apply("*", Num(n), Num(1))
  {
    hide Apply;
    Computes(n, 0);
    Computes(n, 1);
  }

  lemma Associates(k: int, m: int, n: int)
    requires Wide(k + m) && Wide(m + n)
    ensures Also("+", Apply("+", Num(k), Num(m)), Some(Num(n))) == Also("+", Some(Num(k)), Apply("+", Num(m), Num(n)))
  {
    hide Apply;
    Computes(k, m);
    Computes(m, n);
    Computes(k + m, n);
    Computes(k, m + n);
  }

  lemma Distributes(k: int, m: int, n: int)
    requires Wide(m + n) && Wide(k * m) && Wide(k * n)
    ensures Also("*", Some(Num(k)), Apply("+", Num(m), Num(n))) ==
      Also("+", Apply("*", Num(k), Num(m)), Apply("*", Num(k), Num(n)))
  {
    hide Apply;
    Computes(m, n);
    Computes(k, m);
    Computes(k, n);
    Computes(k, m + n);
    Computes(k * m, k * n);
    assert k * (m + n) == k * m + k * n;
  }

  /** A quotient times the divisor leaves a remainder that is smaller than the divisor and has the sign of
      the dividend. */
  lemma Divides(m: int, n: int)
    requires Wide(m) && n != 0 && !(m == -0x8000_0000_0000_0000 && n == -1)
    ensures exists q :: Apply("/", Num(m), Num(n)) == Some(Num(q)) && Remains(m, n, m - q * n)
  {
    OfTwo("/", Num(m), Num(n));
    hide CellPrims;
    var q := Quotient(m, n);
    QuotientWide(m, n);
    assert Apply("/", Num(m), Num(n)) == Some(Num(q)) && Remains(m, n, m - q * n);
  }

  predicate Remains(m: int, n: int, r: int) {
    (if n < 0 then n < r < -n else -n < r < n) && (r == 0 || (r < 0 <==> m < 0))
  }

  lemma QuotientWide(m: int, n: int)
    requires Wide(m) && n != 0 && !(m == -0x8000_0000_0000_0000 && n == -1)
    ensures Wide(Quotient(m, n))
  {
    Shrinks(if m >= 0 then m else -m, n);
  }

  lemma Shrinks(a: int, n: int)
    requires a >= 0 && n != 0
    ensures -a <= a / n <= a && (a / n == -a ==> n == -1 || a == 0)
  {
    var q := a / n;
    assert 0 <= a - q * n;
    if n > 0 {
      if q > a { Product(q, n); }
    } else if q < 0 {
      Product(-q, -n);
    }
  }

  lemma Product(q: nat, n: nat)
    requires q > 0 && n > 0
    ensures q * n >= q && (n > 1 ==> q * n > q)
  {
    if n > 1 { assert q * n == q + q * (n - 1); assert q * (n - 1) >= 1; }
  }

  // ----- order -----

  predicate Less(c: Cell, d: Cell) {
    Apply("<", c, d) == Some(Plain(Truth(true)))
  }

  lemma Orders(c: Cell, d: Cell)
    ensures Less(c, d) <==> c.Plain? && d.Plain? && c.a.Number? && d.a.Number? && c.a.n < d.a.n
    ensures Apply("<", c, d) == Some(Plain(Truth(Less(c, d)))) && Apply(">", c, d) == Some(Plain(Truth(Less(d, c))))
  {
    OfTwo("<", c, d);
    OfTwo(">", c, d);
    OfTwo("<", d, c);
    hide CellPrims;
  }

  /** A strict order, total on numbers; the other comparisons are its converse and the negations. */
  lemma StrictOrder(m: int, n: int, c: Cell, d: Cell, e: Cell)
    ensures !Less(c, c) && (Less(c, d) && Less(d, e) ==> Less(c, e))
    ensures Less(Num(m), Num(n)) || m == n || Less(Num(n), Num(m))
    ensures Apply("<=", Num(m), Num(n)) == Some(Plain(Truth(!Less(Num(n), Num(m)))))
    ensures Apply(">=", Num(m), Num(n)) == Some(Plain(Truth(!Less(Num(m), Num(n)))))
  {
    OfTwo("<=", Num(m), Num(n));
    OfTwo(">=", Num(m), Num(n));
    Orders(c, c);
    Orders(c, d);
    Orders(d, e);
    Orders(c, e);
    Orders(Num(m), Num(n));
    Orders(Num(n), Num(m));
    hide CellPrims, Less;
  }

  /** Adding keeps the order. */
  lemma Monotone(k: int, m: int, n: int)
    requires Wide(m + k) && Wide(n + k)
    ensures Less(Num(m), Num(n)) <==> Less(Apply("+", Num(m), Num(k)).value, Apply("+", Num(n), Num(k)).value)
  {
    hide Apply, Less;
    Computes(m, k);
    Computes(n, k);
    Orders(Num(m), Num(n));
    Orders(Num(m + k), Num(n + k));
  }

  // ----- lists -----

  /** Head and tail take a cell apart that cons has made. */
  lemma Lists(c: Cell, d: Cell)
    ensures Apply("cons", c, d).Some? && Apply("@p", c, d).Some?
    ensures var p := Apply("cons", c, d).value;
      && Apply1("hd", p) == Some(c) && Apply1("tl", p) == Some(d) && p != Nil
      && Apply1("cons?", p) == Some(Plain(Truth(true))) && Apply1("empty?", p) == Some(Plain(Truth(false)))
    ensures var p := Apply("@p", c, d).value; Apply1("fst", p) == Some(c) && Apply1("snd", p) == Some(d)
  {
    OfTwo("cons", c, d);
    OfTwo("@p", c, d);
    var p := BinaryCell("cons", c, d).value;
    OfOne("hd", p);
    OfOne("tl", p);
    OfOne("fst", p);
    OfOne("snd", p);
    OfOne("cons?", p);
    OfOne("empty?", p);
    hide CellPrims, UNARY, BINARY;
  }

  /** And cons makes it again. */
  lemma ListsAgain(p: Cell)
    requires Apply1("cons?", p) == Some(Plain(Truth(true)))
    ensures Also("cons", Apply1("hd", p), Apply1("tl", p)) == Some(p)
  {
    OfOne("cons?", p);
    OfOne("hd", p);
    OfOne("tl", p);
    if p.Pair? { OfTwo("cons", p.head, p.tail); }
    hide CellPrims, UNARY, BINARY;
  }

  /** Each cell is of one kind. */
  lemma Kinds(c: Cell)
    ensures Apply1("empty?", Nil) == Some(Plain(Truth(true))) && Apply1("hd", Nil) == Some(Nil) == Apply1("tl", Nil)
    ensures Apply1("emptylist", Num(0)) == Some(Nil)
    ensures forall k, l :: k in KINDS && l in KINDS && Holds(k, c) && Holds(l, c) ==> k == l
    ensures c != Mark ==> exists k :: k in KINDS && Holds(k, c)
  {
    hide CellPrims, UNARY, BINARY;
    KindNames();
    OfOne("empty?", Nil);
    OfOne("hd", Nil);
    OfOne("tl", Nil);
    OfOne("emptylist", Num(0));
    forall k | k in KINDS ensures Holds(k, c) <==> UnaryCell(k, c) == Some(Plain(Truth(true))) { OfOne(k, c); }
    hide Holds;
    var k := if c.Pair? then "cons?" else if c.Nil? then "empty?" else if c.Lambda? then "function?"
      else if c.Plain? && c.a.Number? then "number?" else if c.Plain? && c.a.Text? then "string?"
      else if c.Plain? && c.a.Symbol? then "symbol?" else "boolean?";
    assert k in KINDS;
    assert c != Mark ==> UnaryCell(k, c) == Some(Plain(Truth(true)));
  }

  /** And which. */
  lemma OwnKinds(n: int, s: string, b: bool, code: seq<Instr>, env: seq<Cell>)
    ensures Holds("number?", Num(n)) && Holds("string?", Plain(Text(s))) && Holds("symbol?", Plain(Symbol(s)))
    ensures Holds("boolean?", Plain(Truth(b))) && Holds("function?", Lambda(code, env))
  {
    KindNames();
    OfOne("number?", Num(n));
    OfOne("string?", Plain(Text(s)));
    OfOne("symbol?", Plain(Symbol(s)));
    OfOne("boolean?", Plain(Truth(b)));
    OfOne("function?", Lambda(code, env));
    hide CellPrims, UNARY, BINARY, Apply1;
  }

  const KINDS: set<string> := {"cons?", "empty?", "function?", "number?", "string?", "symbol?", "boolean?"}

  predicate Holds(kind: string, c: Cell) {
    Apply1(kind, c) == Some(Plain(Truth(true)))
  }

  lemma KindNames()
    ensures KINDS <= UNARY && {"hd", "tl", "emptylist"} <= UNARY
  {
  }

  // ----- equality -----

  /** How deep pairs are nested, to the left or to the right; a list is as deep as it is long. */
  function Depth(c: Cell): nat {
    if !c.Pair? then 0
    else 1 + if Depth(c.head) > Depth(c.tail) then Depth(c.head) else Depth(c.tail)
  }

  predicate NoFunctions(c: Cell) {
    if c.Pair? then NoFunctions(c.head) && NoFunctions(c.tail) else c.Plain? || c.Nil?
  }

  lemma {:induction false} SameIs(c: Cell, d: Cell, depth: nat)
    ensures SameCell(c, d, depth) <==> c == d && NoFunctions(c) && depth + Depth(c) <= MAX_DEPTH
    decreases c
  {
    if c.Pair? && d.Pair? {
      SameIs(c.head, d.head, depth + 1);
      SameIs(c.tail, d.tail, depth + 1);
    }
  }

  /** What is equal is the same, has no functions in it, and is not deeper than 1000; nothing else is equal. */
  lemma Equality(c: Cell, d: Cell)
    ensures Apply("=", c, d) == Some(Plain(Truth(c == d && NoFunctions(c) && Depth(c) <= 1000)))
  {
    OfTwo("=", c, d);
    hide CellPrims, NoFunctions, Depth, SameCell;
    SameIs(c, d, 0);
  }

  /** A list of n numbers. */
  function Zeros(n: nat): (c: Cell)
    ensures Depth(c) == n && NoFunctions(c)
  {
    if n == 0 then Nil else Pair(Num(0), Zeros(n - 1))
  }

  /** A list of more than 1000 elements is not equal to itself. */
  lemma LongList(n: nat)
    requires n > 1000
    ensures Apply("=", Zeros(n), Zeros(n)) == Some(Plain(Truth(false)))
  {
    hide Apply;
    Equality(Zeros(n), Zeros(n));
  }
}
