/** Chroma `where` filters and what it means for a metadata map to satisfy one. */
module Filter {
  import opened Core
  import opened Numbers

  datatype ComparisonOp =
    | Eq(v: Value)
    | Ne(v: Value)
    | Gt(n: real)
    | Gte(n: real)
    | Lt(n: real)
    | Lte(n: real)
    | In(vs: seq<Value>)
    | Nin(vs: seq<Value>)

  datatype Condition =
    | Comparison(key: string, op: ComparisonOp)
    | And(conds: seq<Condition>)
    | Or(conds: seq<Condition>)

  /** The numeric view of a value. */
  function AsF64(v: Value): Option<real> {
    match v
    case Int(i) => Some(ToF64(i))
    case Float(f) => Some(f)
    case _ => None
  }

  /** Equality with numeric coercion; two integers compare exactly. */
  predicate ValuesEqual(a: Value, b: Value) {
    match (a, b)
    case (Str(x), Str(y)) => x == y
    case (Bool(x), Bool(y)) => x == y
    case (Int(x), Int(y)) => x == y
    case (Float(x), Float(y)) => x == y
    case (Int(x), Float(y)) => ToF64(x) == y
    case (Float(x), Int(y)) => x == ToF64(y)
    case _ => false
  }

  function Numeric(m: Metadata, key: string): Option<real> {
    if key in m then AsF64(m[key]) else None
  }

  /** Whether a metadata map passes one comparison. */
  predicate MatchOp(key: string, op: ComparisonOp, m: Metadata) {
    match op
    case Eq(v) => key in m && ValuesEqual(m[key], v)
    case Ne(v) => key in m && !ValuesEqual(m[key], v)
    case Gt(n) => Numeric(m, key).Some? && Numeric(m, key).value > n
    case Gte(n) => Numeric(m, key).Some? && Numeric(m, key).value >= n
    case Lt(n) => Numeric(m, key).Some? && Numeric(m, key).value < n
    case Lte(n) => Numeric(m, key).Some? && Numeric(m, key).value <= n
    case In(vs) => key in m && exists v :: v in vs && ValuesEqual(m[key], v)
    case Nin(vs) => key in m ==> !exists v :: v in vs && ValuesEqual(m[key], v)
  }

  /**
   The order comparisons, on a key whose value has a numeric view x: strict and non-strict ones
   differ exactly in equality, opposite ones exclude each other, and greater means greater.
   */
  lemma OrderLaws(key: string, m: Metadata, n: real, n': real)
    requires Numeric(m, key).Some?
    ensures MatchOp(key, Gt(n), m) <==> !MatchOp(key, Lte(n), m)
    ensures MatchOp(key, Lt(n), m) <==> !MatchOp(key, Gte(n), m)
    ensures MatchOp(key, Gte(n), m) <==> MatchOp(key, Gt(n), m) || MatchOp(key, Eq(Float(n)), m)
    ensures MatchOp(key, Lte(n), m) <==> MatchOp(key, Lt(n), m) || MatchOp(key, Eq(Float(n)), m)
    ensures !(MatchOp(key, Gt(n), m) && MatchOp(key, Eq(Float(n)), m))
    ensures MatchOp(key, Gt(n), m) && n' <= n ==> MatchOp(key, Gt(n'), m)
    ensures MatchOp(key, Gte(n), m) && n' < n ==> MatchOp(key, Gt(n'), m)
    ensures MatchOp(key, Gt(Numeric(m, key).value - 1.0), m)
  {
  }

  /** A key that is absent, or has no numeric view, passes no order comparison. */
  lemma NoOrderWithoutNumber(key: string, m: Metadata, n: real)
    requires key !in m || m[key].Str? || m[key].Bool?
    ensures !MatchOp(key, Gt(n), m) && !MatchOp(key, Gte(n), m) && !MatchOp(key, Lt(n), m) && !MatchOp(key, Lte(n), m)
  {
  }

  /**
   The equality tests: membership is equality with some operand, the negated tests are their
   complements on a present key, and an absent key passes `$nin` only.
   */
  lemma EqualityLaws(key: string, m: Metadata, v: Value, vs: seq<Value>)
    ensures MatchOp(key, In(vs), m) <==> exists w :: w in vs && MatchOp(key, Eq(w), m)
    ensures key in m ==> (MatchOp(key, Ne(v), m) <==> !MatchOp(key, Eq(v), m))
    ensures MatchOp(key, Nin(vs), m) <==> !MatchOp(key, In(vs), m)
    ensures key !in m ==> !MatchOp(key, Eq(v), m) && !MatchOp(key, Ne(v), m) && !MatchOp(key, In(vs), m) && MatchOp(key, Nin(vs), m)
    ensures key in m && (m[key].Int? <==> v.Int?) ==> (MatchOp(key, Eq(v), m) <==> m[key] == v)
    ensures ValuesEqual(v, v)
  {
    if w :| w in vs && MatchOp(key, Eq(w), m) {
      assert MatchOp(key, In(vs), m);
    }
  }

  /** Two values are equal exactly if they are the same, or numbers of different kinds with one image. */
  lemma EqualIff(a: Value, b: Value)
    ensures ValuesEqual(a, b) <==>
              a == b || (a.Int? && b.Float? && ToF64(a.i) == b.f) || (a.Float? && b.Int? && a.f == ToF64(b.i))
  {
  }

  /** Whether a metadata map passes a whole filter tree. */
  predicate Matches(c: Condition, m: Metadata) {
    match c
    case Comparison(key, op) => MatchOp(key, op, m)
    case And(cs) => forall i :: 0 <= i < |cs| ==> Matches(cs[i], m)
    case Or(cs) => exists i :: 0 <= i < |cs| && Matches(cs[i], m)
  }

  /** A record without metadata is matched as an empty map. */
  function OrEmpty(m: Option<Metadata>): Metadata {
    if m.Some? then m.value else map[]
  }
}
