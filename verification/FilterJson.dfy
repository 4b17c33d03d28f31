/** Parsing a `where` filter from JSON and printing it back. */
module FilterJson {
  import opened Core
  import opened Numbers
  import opened Filter

  /** A JSON number: an i64, an integer above i64, or a float. */
  datatype Number = NInt(i: I64) | NBig(u: nat) | NFloat(f: real)

  datatype Json =
    | JNull
    | JBool(b: bool)
    | JNum(n: Number)
    | JStr(s: string)
    | JArr(items: seq<Json>)
    | JObj(entries: seq<Entry>)

  /** One member of an object, in iteration order. */
  datatype Entry = Entry(key: string, value: Json)

  datatype ParseError =
    | ExpectedObject(got: string)
    | ExpectedArray(op: string, got: string)
    | UnknownOperator(name: string)
    | ExpectedNumber(op: string, got: string)
    | EmptyOps(field: string)
    | InvalidValue(got: string)
    | AndOrConflict
    | OrWithOtherKeys
    | EmptyList(what: string)

  type Parsed<T> = Result<T, ParseError>

  function Describe(v: Json): string {
    match v
    case JNull => "null"
    case JBool(_) => "boolean"
    case JNum(_) => "number"
    case JStr(_) => "string"
    case JArr(_) => "array"
    case JObj(_) => "object"
  }

  function NumberAsF64(n: Number): real {
    match n
    case NInt(i) => ToF64(i)
    case NBig(u) => RoundNat(u) as real
    case NFloat(f) => f
  }

  // ---------------------------------------------------------------------------------------------
  // Parsing
  // ---------------------------------------------------------------------------------------------

  /** Integers stay integers; anything else numeric becomes a float. */
  function MetadataValue(v: Json): Parsed<Value> {
    match v
    case JStr(s) => Ok(Str(s))
    case JBool(b) => Ok(Bool(b))
    case JNum(NInt(i)) => Ok(Int(i))
    case JNum(n) => Ok(Float(NumberAsF64(n)))
    case _ => Err(InvalidValue(Describe(v)))
  }

  function NumberFor(v: Json, op: string): Parsed<real> {
    if v.JNum? then Ok(NumberAsF64(v.n)) else Err(ExpectedNumber(op, Describe(v)))
  }

  function Values(items: seq<Json>): Parsed<seq<Value>> {
    if items == [] then Ok([])
    else
      match MetadataValue(items[0])
      case Err(e) => Err(e)
      case Ok(v) =>
        match Values(items[1..])
        case Err(e) => Err(e)
        case Ok(vs) => Ok([v] + vs)
  }

  function ValueList(v: Json, op: string): Parsed<seq<Value>> {
    if v.JArr? then Values(v.items) else Err(ExpectedArray(op, Describe(v)))
  }

  function MapOk<A, B>(r: Parsed<A>, f: A -> B): Parsed<B> {
    match r
    case Ok(a) => Ok(f(a))
    case Err(e) => Err(e)
  }

  function ParseOp(op: string, v: Json): Parsed<ComparisonOp> {
    if op == "$eq" then MapOk(MetadataValue(v), x => Eq(x))
    else if op == "$ne" then MapOk(MetadataValue(v), x => Ne(x))
    else if op == "$gt" then MapOk(NumberFor(v, op), n => Gt(n))
    else if op == "$gte" then MapOk(NumberFor(v, op), n => Gte(n))
    else if op == "$lt" then MapOk(NumberFor(v, op), n => Lt(n))
    else if op == "$lte" then MapOk(NumberFor(v, op), n => Lte(n))
    else if op == "$in" then MapOk(ValueList(v, op), xs => In(xs))
    else if op == "$nin" then MapOk(ValueList(v, op), xs => Nin(xs))
    else Err(UnknownOperator(op))
  }

  function NormalizeList(conds: seq<Condition>, what: string): Parsed<Condition> {
    if conds == [] then Err(EmptyList(what))
    else if |conds| == 1 then Ok(conds[0])
    else Ok(And(conds))
  }

  function ParseOps(key: string, ops: seq<Entry>): Parsed<seq<Condition>> {
    if ops == [] then Ok([])
    else
      match ParseOp(ops[0].key, ops[0].value)
      case Err(e) => Err(e)
      case Ok(op) =>
        match ParseOps(key, ops[1..])
        case Err(e) => Err(e)
        case Ok(cs) => Ok([Comparison(key, op)] + cs)
  }

  function ParseField(key: string, v: Json): Parsed<Condition> {
    if v.JObj? then
      if v.entries == [] then Err(EmptyOps(key))
      else
        match ParseOps(key, v.entries)
        case Err(e) => Err(e)
        case Ok(cs) => NormalizeList(cs, "operator")
    else MapOk(MetadataValue(v), x => Comparison(key, Eq(x)))
  }

  /** What the loop over an object's members gathers. */
  datatype Parts = Parts(fields: seq<Condition>, and: Option<seq<Json>>, or: Option<seq<Json>>)

  function AddEntry(p: Parts, e: Entry): Parsed<Parts> {
    if e.key == "$and" then
      if e.value.JArr? then Ok(p.(and := Some(e.value.items))) else Err(ExpectedArray("$and", Describe(e.value)))
    else if e.key == "$or" then
      if e.value.JArr? then Ok(p.(or := Some(e.value.items))) else Err(ExpectedArray("$or", Describe(e.value)))
    else
      match ParseField(e.key, e.value)
      case Err(err) => Err(err)
      case Ok(c) => Ok(p.(fields := p.fields + [c]))
  }

  /** The list is the value of some `$and` or `$or` member. */
  ghost predicate ListOf(items: Option<seq<Json>>, key: string, entries: seq<Entry>) {
    items.Some? ==> Entry(key, JArr(items.value)) in entries
  }

  function Gather(entries: seq<Entry>): (r: Parsed<Parts>)
    ensures r.Ok? ==> ListOf(r.value.and, "$and", entries) && ListOf(r.value.or, "$or", entries)
  {
    if entries == [] then Ok(Parts([], None, None))
    else
      match Gather(entries[..|entries| - 1])
      case Err(e) => Err(e)
      case Ok(p) =>
        assert forall e :: e in entries[..|entries| - 1] ==> e in entries;
        AddEntry(p, entries[|entries| - 1])
  }

  function Parse(v: Json): Parsed<Condition>
    decreases v, 1, 0
  {
    if v.JObj? then ParseObject(v) else Err(ExpectedObject(Describe(v)))
  }

  function ParseObject(v: Json): Parsed<Condition>
    requires v.JObj?
    decreases v, 0, 0
  {
    match Gather(v.entries)
    case Err(e) => Err(e)
    case Ok(p) =>
      if p.and.Some? && p.or.Some? then Err(AndOrConflict)
      else if p.or.Some? then
        if p.fields != [] then Err(OrWithOtherKeys)
        else
          match ParseList(v, "$or", p.or.value, |p.or.value|)
          case Err(e) => Err(e)
          case Ok(cs) =>
            if cs == [] then Err(EmptyList("$or")) else if |cs| == 1 then Ok(cs[0]) else Ok(Or(cs))
      else if p.and.Some? then
        match ParseList(v, "$and", p.and.value, |p.and.value|)
        case Err(e) => Err(e)
        case Ok(cs) => NormalizeList(cs + p.fields, "$and")
      else NormalizeList(p.fields, "field")
  }

  /** The first n items of a member list of v, stopping at the first error. */
  function ParseList(v: Json, key: string, items: seq<Json>, n: nat): (r: Parsed<seq<Condition>>)
    requires v.JObj? && Entry(key, JArr(items)) in v.entries && n <= |items|
    ensures r.Ok? ==> |r.value| == n
    decreases v, 0, 0, n
  {
    if n == 0 then Ok([])
    else
      match ParseList(v, key, items, n - 1)
      case Err(e) => Err(e)
      case Ok(cs) =>
        assert items[n - 1] < JArr(items);
        match Parse(items[n - 1])
        case Err(e) => Err(e)
        case Ok(c) => Ok(cs + [c])
  }

  /** An integer above i64 becomes the nearest binary64 value, as one within i64 does. */
  lemma BigIsNearest(u: nat)
    ensures exists m: nat, q: nat :: NumberAsF64(NBig(u)) == m as real && NearestMultiple(u, Spacing(u), m, q)
    ensures u < TWO_63 ==> NumberAsF64(NBig(u)) == NumberAsF64(NInt(u))
  {
    hide NearestMultiple;
    RoundsToNearest(u);
    var q: nat :| NearestMultiple(u, Spacing(u), RoundNat(u), q);
    assert NumberAsF64(NBig(u)) == RoundNat(u) as real;
  }

  /** Which error an operand of the wrong kind, or an unknown operator, is reported as. */
  lemma OperandErrors(op: string, v: Json)
    ensures !(op in {"$eq", "$ne", "$gt", "$gte", "$lt", "$lte", "$in", "$nin"}) ==> ParseOp(op, v) == Err(UnknownOperator(op))
    ensures op in {"$eq", "$ne"} && (v.JNull? || v.JArr? || v.JObj?) ==> ParseOp(op, v) == Err(InvalidValue(Describe(v)))
    ensures op in {"$gt", "$gte", "$lt", "$lte"} && !v.JNum? ==> ParseOp(op, v) == Err(ExpectedNumber(op, Describe(v)))
    ensures op in {"$in", "$nin"} && !v.JArr? ==> ParseOp(op, v) == Err(ExpectedArray(op, Describe(v)))
  {
  }

  /** Which error each malformed shape is reported as. */
  lemma ShapeErrors(v: Json, key: string, a: seq<Json>, b: seq<Json>)
    requires key !in {"$and", "$or"}
    ensures !v.JObj? ==> Parse(v) == Err(ExpectedObject(Describe(v)))
    ensures Parse(JObj([])) == Err(EmptyList("field"))
    ensures Parse(JObj([Entry(key, JObj([]))])) == Err(EmptyOps(key))
    ensures v.JNull? || v.JArr? ==> Parse(JObj([Entry(key, v)])) == Err(InvalidValue(Describe(v)))
    ensures !v.JArr? ==> Parse(JObj([Entry("$and", v)])) == Err(ExpectedArray("$and", Describe(v)))
    ensures !v.JArr? ==> Parse(JObj([Entry("$or", v)])) == Err(ExpectedArray("$or", Describe(v)))
    ensures Parse(JObj([Entry("$or", JArr([]))])) == Err(EmptyList("$or"))
    ensures Parse(JObj([Entry("$and", JArr([]))])) == Err(EmptyList("$and"))
    ensures Parse(JObj([Entry("$and", JArr(a)), Entry("$or", JArr(b))])) == Err(AndOrConflict)
    ensures Parse(JObj([Entry(key, JBool(true)), Entry("$or", JArr(b))])) == Err(OrWithOtherKeys)
  {
    GatherNone();
    GatherOne(Entry(key, JObj([])));
    GatherOne(Entry(key, v));
    GatherOne(Entry("$and", v));
    GatherOne(Entry("$or", v));
    GatherOne(Entry("$or", JArr([])));
    GatherOne(Entry("$and", JArr([])));
    GatherOne(Entry("$and", JArr(a)));
    GatherOne(Entry(key, JBool(true)));
    GatherTwo(Entry("$and", JArr(a)), Entry("$or", JArr(b)));
    GatherTwo(Entry(key, JBool(true)), Entry("$or", JArr(b)));
    hide Gather;
  }

  lemma GatherNone()
    ensures Gather([]) == Ok(Parts([], None, None))
  {
  }

  lemma GatherOne(e: Entry)
    ensures Gather([e]) == AddEntry(Parts([], None, None), e)
  {
    assert [e][..0] == [];
  }

  lemma GatherTwo(e: Entry, f: Entry)
    ensures Gather([e, f]) == if Gather([e]).Ok? then AddEntry(Gather([e]).value, f) else Gather([e])
  {
    assert [e, f][..1] == [e];
  }

  /** The member loop of `parse_object`. */
  method GatherLoop(entries: seq<Entry>) returns (r: Parsed<Parts>)
    ensures r == Gather(entries)
  {
    var fields: seq<Condition> := [];
    var explicitAnd, explicitOr: Option<seq<Json>> := None, None;
    for i := 0 to |entries|
      invariant Gather(entries[..i]) == Ok(Parts(fields, explicitAnd, explicitOr))
    {
      assert entries[..i + 1][..i] == entries[..i];
      var e := entries[i];
      if e.key == "$and" {
        if !e.value.JArr? {
          GatherStops(entries, i + 1);
          return Err(ExpectedArray("$and", Describe(e.value)));
        }
        explicitAnd := Some(e.value.items);
      } else if e.key == "$or" {
        if !e.value.JArr? {
          GatherStops(entries, i + 1);
          return Err(ExpectedArray("$or", Describe(e.value)));
        }
        explicitOr := Some(e.value.items);
      } else {
        var c := ParseField(e.key, e.value);
        if c.Err? {
          GatherStops(entries, i + 1);
          return Err(c.error);
        }
        fields := fields + [c.value];
      }
    }
    assert entries[..|entries|] == entries;
    r := Ok(Parts(fields, explicitAnd, explicitOr));
  }

  /** The first error is final. */
  lemma {:induction false} GatherStops(entries: seq<Entry>, i: nat)
    requires i <= |entries| && Gather(entries[..i]).Err?
    ensures Gather(entries) == Gather(entries[..i])
    decreases |entries|
  {
    if i == |entries| {
      assert entries[..i] == entries;
    } else {
      var c := entries[..|entries| - 1];
      assert c[..i] == entries[..i];
      GatherStops(c, i);
    }
  }

  // ---------------------------------------------------------------------------------------------
  // Printing
  // ---------------------------------------------------------------------------------------------

  function ValueToJson(v: Value): Json {
    match v
    case Str(s) => JStr(s)
    case Bool(b) => JBool(b)
    case Int(i) => JNum(NInt(i))
    case Float(f) => JNum(NFloat(f))
  }

  function ValuesToJson(vs: seq<Value>): seq<Json> {
    if vs == [] then [] else [ValueToJson(vs[0])] + ValuesToJson(vs[1..])
  }

  function OpToEntry(op: ComparisonOp): Entry {
    match op
    case Eq(v) => Entry("$eq", ValueToJson(v))
    case Ne(v) => Entry("$ne", ValueToJson(v))
    case Gt(n) => Entry("$gt", JNum(NFloat(n)))
    case Gte(n) => Entry("$gte", JNum(NFloat(n)))
    case Lt(n) => Entry("$lt", JNum(NFloat(n)))
    case Lte(n) => Entry("$lte", JNum(NFloat(n)))
    case In(vs) => Entry("$in", JArr(ValuesToJson(vs)))
    case Nin(vs) => Entry("$nin", JArr(ValuesToJson(vs)))
  }

  /** The operator form of a filter tree. */
  function Print(c: Condition): Json
    decreases c, 1, 0
  {
    match c
    case Comparison(key, op) => JObj([Entry(key, JObj([OpToEntry(op)]))])
    case And(cs) => JObj([Entry("$and", JArr(PrintList(c, cs, |cs|)))])
    case Or(cs) => JObj([Entry("$or", JArr(PrintList(c, cs, |cs|)))])
  }

  function PrintList(c: Condition, cs: seq<Condition>, n: nat): (r: seq<Json>)
    requires !c.Comparison? && cs == c.conds && n <= |cs|
    ensures |r| == n
    decreases c, 0, n
  {
    if n == 0 then [] else PrintList(c, cs, n - 1) + [Print(cs[n - 1])]
  }

  // ---------------------------------------------------------------------------------------------
  // The round trip
  // ---------------------------------------------------------------------------------------------

  predicate Combinator(key: string) {
    key == "$and" || key == "$or"
  }

  /** The trees a parser produces: real conjunctions and disjunctions, and no combinator as a field. */
  predicate Canonical(c: Condition) {
    match c
    case Comparison(key, _) => !Combinator(key)
    case And(cs) => |cs| >= 2 && forall i :: 0 <= i < |cs| ==> Canonical(cs[i])
    case Or(cs) => |cs| >= 2 && forall i :: 0 <= i < |cs| ==> Canonical(cs[i])
  }

  predicate AllCanonical(cs: seq<Condition>) {
    forall i :: 0 <= i < |cs| ==> Canonical(cs[i])
  }

  lemma {:induction false} ParseOpsCanonical(key: string, ops: seq<Entry>)
    requires !Combinator(key) && ParseOps(key, ops).Ok?
    ensures AllCanonical(ParseOps(key, ops).value)
  {
    if ops != [] {
      ParseOpsCanonical(key, ops[1..]);
    }
  }

  lemma {:induction false} GatherCanonical(entries: seq<Entry>)
    requires Gather(entries).Ok?
    ensures AllCanonical(Gather(entries).value.fields)
  {
    if entries != [] {
      var e := entries[|entries| - 1];
      GatherCanonical(entries[..|entries| - 1]);
      if !Combinator(e.key) && e.value.JObj? {
        ParseOpsCanonical(e.key, e.value.entries);
      }
    }
  }

  /** Every tree the parser produces is canonical. */
  lemma {:induction false} ParseCanonical(v: Json)
    requires Parse(v).Ok?
    ensures Canonical(Parse(v).value)
    decreases v, 1, 0
  {
    var p := Gather(v.entries).value;
    GatherCanonical(v.entries);
    if p.or.Some? {
      ParseListCanonical(v, "$or", p.or.value, |p.or.value|);
    } else if p.and.Some? {
      ParseListCanonical(v, "$and", p.and.value, |p.and.value|);
    }
  }

  lemma {:induction false} ParseListCanonical(v: Json, key: string, items: seq<Json>, n: nat)
    requires v.JObj? && Entry(key, JArr(items)) in v.entries && n <= |items|
    requires ParseList(v, key, items, n).Ok?
    ensures AllCanonical(ParseList(v, key, items, n).value)
    decreases v, 0, n
  {
    if n > 0 {
      ParseListCanonical(v, key, items, n - 1);
      assert items[n - 1] < JArr(items);
      ParseCanonical(items[n - 1]);
    }
  }

  lemma {:induction false} ValuesRoundTrip(vs: seq<Value>)
    ensures Values(ValuesToJson(vs)) == Ok(vs)
  {
    if vs != [] {
      ValuesRoundTrip(vs[1..]);
      assert ValuesToJson(vs)[1..] == ValuesToJson(vs[1..]);
      assert MetadataValue(ValueToJson(vs[0])) == Ok(vs[0]);
      assert vs == [vs[0]] + vs[1..];
    }
  }

  lemma OpRoundTrip(op: ComparisonOp)
    ensures ParseOp(OpToEntry(op).key, OpToEntry(op).value) == Ok(op)
  {
    if op.In? || op.Nin? {
      ValuesRoundTrip(op.vs);
    }
  }

  lemma ComparisonRoundTrip(key: string, op: ComparisonOp)
    requires !Combinator(key)
    ensures Parse(Print(Comparison(key, op))) == Ok(Comparison(key, op))
  {
    hide ParseOp, OpToEntry;
    OpRoundTrip(op);
    var e := OpToEntry(op);
    var v := Print(Comparison(key, op));
    assert [e][1..] == [];
    assert ParseOps(key, []) == Ok([]);
    assert ParseOps(key, [e]) == Ok([Comparison(key, op)] + []);
    assert ParseField(key, JObj([e])) == Ok(Comparison(key, op));
    assert v.entries[..0] == [];
    assert Gather(v.entries) == Ok(Parts([] + [Comparison(key, op)], None, None));
  }

  lemma {:induction false} ListRoundTrip(c: Condition, v: Json, key: string, items: seq<Json>, n: nat)
    requires Canonical(c) && !c.Comparison? && n <= |c.conds|
    requires items == PrintList(c, c.conds, |c.conds|) && v.JObj? && Entry(key, JArr(items)) in v.entries
    ensures ParseList(v, key, items, n) == Ok(c.conds[..n])
    decreases c, 0, n
  {
    if n > 0 {
      ListRoundTrip(c, v, key, items, n - 1);
      PrintListAt(c, c.conds, |c.conds|, n - 1);
      RoundTrip(c.conds[n - 1]);
      assert c.conds[..n] == c.conds[..n - 1] + [c.conds[n - 1]];
    }
  }

  lemma {:induction false} PrintListAt(c: Condition, cs: seq<Condition>, n: nat, i: nat)
    requires !c.Comparison? && cs == c.conds && i < n <= |cs|
    ensures PrintList(c, cs, n)[i] == Print(cs[i])
    decreases n
  {
    if i < n - 1 {
      PrintListAt(c, cs, n - 1, i);
    }
  }

  lemma OneMember(key: string, items: seq<Json>)
    requires Combinator(key)
    ensures Gather([Entry(key, JArr(items))]) ==
            Ok(if key == "$and" then Parts([], Some(items), None) else Parts([], None, Some(items)))
  {
    assert [Entry(key, JArr(items))][..0] == [];
    assert Gather([]) == Ok(Parts([], None, None));
  }

  /** Parsing the printed form of any canonical tree gives back the identical tree. */
  lemma {:induction false} RoundTrip(c: Condition)
    requires Canonical(c)
    ensures Parse(Print(c)) == Ok(c)
    decreases c, 1, 0
  {
    if c.Comparison? {
      ComparisonRoundTrip(c.key, c.op);
    } else {
      var key := if c.And? then "$and" else "$or";
      var items := PrintList(c, c.conds, |c.conds|);
      var v := Print(c);
      OneMember(key, items);
      ListRoundTrip(c, v, key, items, |c.conds|);
      assert c.conds[..|c.conds|] == c.conds;
      assert c.conds + [] == c.conds;
    }
  }

  /** Printing is undone by parsing for exactly the canonical trees. */
  lemma RoundTripIff(c: Condition)
    ensures Parse(Print(c)) == Ok(c) <==> Canonical(c)
  {
    if Canonical(c) {
      RoundTrip(c);
    } else if Parse(Print(c)) == Ok(c) {
      ParseCanonical(Print(c));
    }
  }

  // ---------------------------------------------------------------------------------------------
  // Meaning
  // ---------------------------------------------------------------------------------------------

  /** A metadata value equals a JSON scalar, numbers coerced. */
  predicate EqualsJson(a: Value, v: Json) {
    match (a, v)
    case (Str(x), JStr(y)) => x == y
    case (Bool(x), JBool(y)) => x == y
    case (Int(x), JNum(NInt(y))) => x == y
    case (Int(x), JNum(n)) => ToF64(x) == NumberAsF64(n)
    case (Float(x), JNum(n)) => x == NumberAsF64(n)
    case _ => false
  }

  predicate AnyEqual(a: Value, v: Json) {
    v.JArr? && exists i :: 0 <= i < |v.items| && EqualsJson(a, v.items[i])
  }

  predicate Compares(m: Metadata, key: string, v: Json, op: string) {
    v.JNum? && Numeric(m, key).Some? &&
    var a, b := Numeric(m, key).value, NumberAsF64(v.n);
    if op == "$gt" then a > b else if op == "$gte" then a >= b else if op == "$lt" then a < b else a <= b
  }

  /** One operator member, read directly. */
  predicate OpReads(key: string, op: string, v: Json, m: Metadata) {
    if op == "$eq" then key in m && EqualsJson(m[key], v)
    else if op == "$ne" then key in m && !EqualsJson(m[key], v)
    else if op == "$in" then key in m && AnyEqual(m[key], v)
    else if op == "$nin" then key in m ==> !AnyEqual(m[key], v)
    else Compares(m, key, v, op)
  }

  /** One field member: all its operators, or equality with a bare value. */
  predicate FieldReads(key: string, v: Json, m: Metadata) {
    if v.JObj? then forall i :: 0 <= i < |v.entries| ==> OpReads(key, v.entries[i].key, v.entries[i].value, m)
    else key in m && EqualsJson(m[key], v)
  }

  /** A filter object read directly: members conjoined, `$and` all of its list, `$or` any of it. */
  predicate Reads(v: Json, m: Metadata) {
    v.JObj? && forall i :: 0 <= i < |v.entries| ==>
      var e := v.entries[i];
      if e.key == "$and" then e.value.JArr? && forall j :: 0 <= j < |e.value.items| ==> Reads(e.value.items[j], m)
      else if e.key == "$or" then e.value.JArr? && exists j :: 0 <= j < |e.value.items| && Reads(e.value.items[j], m)
      else FieldReads(e.key, e.value, m)
  }

  /** Object members have distinct keys, as serde's map guarantees. */
  predicate DistinctKeys(v: Json) {
    match v
    case JObj(es) =>
      && (forall i, j :: 0 <= i < j < |es| ==> es[i].key != es[j].key)
      && (forall i :: 0 <= i < |es| ==> DistinctKeys(es[i].value))
    case JArr(items) => forall i :: 0 <= i < |items| ==> DistinctKeys(items[i])
    case _ => true
  }

  lemma ValueMeaning(a: Value, v: Json)
    requires MetadataValue(v).Ok?
    ensures ValuesEqual(a, MetadataValue(v).value) <==> EqualsJson(a, v)
  {
  }

  lemma {:induction false} ValuesMeaning(a: Value, items: seq<Json>)
    requires Values(items).Ok?
    ensures (exists x :: x in Values(items).value && ValuesEqual(a, x)) <==>
            exists i :: 0 <= i < |items| && EqualsJson(a, items[i])
  {
    if items != [] {
      var xs, rest := Values(items).value, Values(items[1..]).value;
      ValueMeaning(a, items[0]);
      ValuesMeaning(a, items[1..]);
      assert forall x :: x in xs <==> x == xs[0] || x in rest;
      if i :| 0 <= i < |items| && EqualsJson(a, items[i]) {
        assert i > 0 ==> items[1..][i - 1] == items[i];
      }
      if j :| 0 <= j < |items[1..]| && EqualsJson(a, items[1..][j]) {
        assert items[j + 1] == items[1..][j];
      }
    }
  }

  lemma OpMeaning(key: string, op: string, v: Json, m: Metadata)
    requires ParseOp(op, v).Ok?
    ensures MatchOp(key, ParseOp(op, v).value, m) <==> OpReads(key, op, v, m)
  {
    if key in m {
      if MetadataValue(v).Ok? {
        ValueMeaning(m[key], v);
      }
      if v.JArr? && Values(v.items).Ok? {
        ValuesMeaning(m[key], v.items);
      }
    }
  }

  predicate AllMatch(cs: seq<Condition>, m: Metadata) {
    forall i :: 0 <= i < |cs| ==> Matches(cs[i], m)
  }

  lemma {:induction false} OpsMeaning(key: string, ops: seq<Entry>, m: Metadata)
    requires ParseOps(key, ops).Ok?
    ensures AllMatch(ParseOps(key, ops).value, m) <==>
            forall i :: 0 <= i < |ops| ==> OpReads(key, ops[i].key, ops[i].value, m)
  {
    if ops != [] {
      OpMeaning(key, ops[0].key, ops[0].value, m);
      OpsMeaning(key, ops[1..], m);
      hide OpReads, ParseOp, MatchOp;
      var cs, rest := ParseOps(key, ops).value, ParseOps(key, ops[1..]).value;
      assert cs == [cs[0]] + rest;
      assert AllMatch(cs, m) <==> Matches(cs[0], m) && AllMatch(rest, m) by { AllMatchCons(cs[0], rest, m); }
      assert (forall i :: 0 <= i < |ops| ==> OpReads(key, ops[i].key, ops[i].value, m)) <==>
             OpReads(key, ops[0].key, ops[0].value, m) &&
             (forall i :: 0 <= i < |ops[1..]| ==> OpReads(key, ops[1..][i].key, ops[1..][i].value, m)) by {
        assert forall i :: 0 < i < |ops| ==> ops[i] == ops[1..][i - 1];
      }
    }
  }

  lemma AllMatchOne(c: Condition, m: Metadata)
    ensures AllMatch([c], m) <==> Matches(c, m)
  {
    hide Matches;
    assert [c][0] == c;
  }

  lemma AllMatchCons(c: Condition, cs: seq<Condition>, m: Metadata)
    ensures AllMatch([c] + cs, m) <==> Matches(c, m) && AllMatch(cs, m)
  {
    AllMatchOne(c, m);
    AllMatchConcat([c], cs, m);
  }

  lemma AllMatchConcat(a: seq<Condition>, b: seq<Condition>, m: Metadata)
    ensures AllMatch(a + b, m) <==> AllMatch(a, m) && AllMatch(b, m)
  {
    hide Matches;
    if AllMatch(a + b, m) {
      forall i | 0 <= i < |a|
        ensures Matches(a[i], m)
      {
        assert (a + b)[i] == a[i];
      }
      forall i | 0 <= i < |b|
        ensures Matches(b[i], m)
      {
        assert (a + b)[|a| + i] == b[i];
      }
    }
  }

  lemma NormalizeMeaning(cs: seq<Condition>, what: string, m: Metadata)
    requires NormalizeList(cs, what).Ok?
    ensures Matches(NormalizeList(cs, what).value, m) <==> AllMatch(cs, m)
  {
  }

  lemma FieldMeaning(key: string, v: Json, m: Metadata)
    requires ParseField(key, v).Ok?
    ensures Matches(ParseField(key, v).value, m) <==> FieldReads(key, v, m)
  {
    if v.JObj? {
      OpsMeaning(key, v.entries, m);
      NormalizeMeaning(ParseOps(key, v.entries).value, "operator", m);
    } else if key in m {
      ValueMeaning(m[key], v);
    }
  }

  /** The gathered fields mean the object's field members; the lists are those of its combinators. */
  lemma {:induction false} GatherMeaning(entries: seq<Entry>, m: Metadata)
    requires Gather(entries).Ok?
    requires forall i, j :: 0 <= i < j < |entries| ==> entries[i].key != entries[j].key
    ensures AllMatch(Gather(entries).value.fields, m) <==>
            forall e :: e in entries && !Combinator(e.key) ==> FieldReads(e.key, e.value, m)
    ensures forall e :: e in entries && e.key == "$and" ==> e.value.JArr? && Gather(entries).value.and == Some(e.value.items)
    ensures forall e :: e in entries && e.key == "$or" ==> e.value.JArr? && Gather(entries).value.or == Some(e.value.items)
    ensures Gather(entries).value.fields == [] ==> forall e :: e in entries ==> Combinator(e.key)
  {
    if entries != [] {
      var c, e := entries[..|entries| - 1], entries[|entries| - 1];
      GatherMeaning(c, m);
      hide FieldReads, ParseField, Matches;
      assert forall x :: x in entries <==> x in c || x == e;
      assert forall x :: x in c ==> x.key != e.key;
      if !Combinator(e.key) {
        var p := Gather(c).value;
        FieldMeaning(e.key, e.value, m);
        AllMatchConcat(p.fields, [ParseField(e.key, e.value).value], m);
        assert Gather(entries).value.fields == p.fields + [ParseField(e.key, e.value).value];
        AllMatchOne(ParseField(e.key, e.value).value, m);
      }
    }
  }

  /** Reading an object, with its members gathered. */
  lemma ReadsByEntry(v: Json, m: Metadata)
    requires v.JObj?
    ensures Reads(v, m) <==> forall e :: e in v.entries ==> EntryReads(e, m)
  {
    if Reads(v, m) {
      forall e | e in v.entries
        ensures EntryReads(e, m)
      {
        var i :| 0 <= i < |v.entries| && v.entries[i] == e;
      }
    }
    if forall e :: e in v.entries ==> EntryReads(e, m) {
      forall i | 0 <= i < |v.entries|
        ensures EntryReads(v.entries[i], m)
      {
        assert v.entries[i] in v.entries;
      }
    }
  }

  ghost predicate EntryReads(e: Entry, m: Metadata) {
    if e.key == "$and" then e.value.JArr? && AllRead(e.value.items, m)
    else if e.key == "$or" then e.value.JArr? && AnyReads(e.value.items, m)
    else FieldReads(e.key, e.value, m)
  }

  ghost predicate AllRead(items: seq<Json>, m: Metadata) {
    forall j :: 0 <= j < |items| ==> Reads(items[j], m)
  }

  ghost predicate AnyReads(items: seq<Json>, m: Metadata) {
    exists j :: 0 <= j < |items| && Reads(items[j], m)
  }

  lemma {:induction false} ListMeaning(v: Json, key: string, items: seq<Json>, n: nat, m: Metadata)
    requires v.JObj? && DistinctKeys(v) && Entry(key, JArr(items)) in v.entries && n <= |items|
    requires ParseList(v, key, items, n).Ok?
    ensures var cs := ParseList(v, key, items, n).value;
            forall i :: 0 <= i < n ==> (Matches(cs[i], m) <==> Reads(items[i], m))
    decreases v, 0, n
  {
    if n > 0 {
      ListMeaning(v, key, items, n - 1, m);
      assert items[n - 1] < JArr(items);
      var k :| 0 <= k < |v.entries| && v.entries[k] == Entry(key, JArr(items));
      assert DistinctKeys(v.entries[k].value);
      ParseMeaning(items[n - 1], m);
    }
  }

  /**
   Parsing preserves meaning: the tree of any JSON value that parses matches a metadata map exactly
   when the JSON, read directly, does.
   */
  lemma {:induction false} ParseMeaning(v: Json, m: Metadata)
    requires DistinctKeys(v) && Parse(v).Ok?
    ensures Matches(Parse(v).value, m) <==> Reads(v, m)
    decreases v, 1, 0
  {
    var p := Gather(v.entries).value;
    GatherMeaning(v.entries, m);
    ReadsByEntry(v, m);
    if p.or.Some? {
      ListMeaning(v, "$or", p.or.value, |p.or.value|, m);
    } else if p.and.Some? {
      ListMeaning(v, "$and", p.and.value, |p.and.value|, m);
    }
    CombineMeaning(v, p, m);
  }

  lemma CombineMeaning(v: Json, p: Parts, m: Metadata)
    requires v.JObj? && Parse(v).Ok? && Gather(v.entries) == Ok(p)
    requires AllMatch(p.fields, m) <==> forall e :: e in v.entries && !Combinator(e.key) ==> FieldReads(e.key, e.value, m)
    requires forall e :: e in v.entries && e.key == "$and" ==> e.value.JArr? && p.and == Some(e.value.items)
    requires forall e :: e in v.entries && e.key == "$or" ==> e.value.JArr? && p.or == Some(e.value.items)
    requires p.fields == [] ==> forall e :: e in v.entries ==> Combinator(e.key)
    requires Reads(v, m) <==> forall e :: e in v.entries ==> EntryReads(e, m)
    requires p.or.Some? ==>
               var cs := ParseList(v, "$or", p.or.value, |p.or.value|);
               cs.Ok? ==> forall i :: 0 <= i < |p.or.value| ==> (Matches(cs.value[i], m) <==> Reads(p.or.value[i], m))
    requires p.or.None? && p.and.Some? ==>
               var cs := ParseList(v, "$and", p.and.value, |p.and.value|);
               cs.Ok? ==> forall i :: 0 <= i < |p.and.value| ==> (Matches(cs.value[i], m) <==> Reads(p.and.value[i], m))
    ensures Matches(Parse(v).value, m) <==> Reads(v, m)
  {
    hide FieldReads, Gather, ParseList, Reads;
    if p.or.Some? {
      var cs := ParseList(v, "$or", p.or.value, |p.or.value|).value;
      assert Matches(Parse(v).value, m) <==> exists i :: 0 <= i < |cs| && Matches(cs[i], m);
      assert Matches(Parse(v).value, m) <==> AnyReads(p.or.value, m);
      assert EntryReads(Entry("$or", JArr(p.or.value)), m) <==> AnyReads(p.or.value, m);
    } else if p.and.Some? {
      var cs := ParseList(v, "$and", p.and.value, |p.and.value|).value;
      NormalizeMeaning(cs + p.fields, "$and", m);
      AllMatchConcat(cs, p.fields, m);
      assert AllMatch(cs, m) <==> AllRead(p.and.value, m);
      assert EntryReads(Entry("$and", JArr(p.and.value)), m) <==> AllRead(p.and.value, m);
    } else {
      NormalizeMeaning(p.fields, "field", m);
    }
  }

  // ---------------------------------------------------------------------------------------------
  // Which JSON parses
  // ---------------------------------------------------------------------------------------------

  predicate Scalar(v: Json) {
    v.JStr? || v.JBool? || v.JNum?
  }

  /** A known operator with an operand of its kind. */
  predicate Operand(op: string, v: Json) {
    if op in {"$eq", "$ne"} then Scalar(v)
    else if op in {"$gt", "$gte", "$lt", "$lte"} then v.JNum?
    else op in {"$in", "$nin"} && v.JArr? && forall i :: 0 <= i < |v.items| ==> Scalar(v.items[i])
  }

  /** The value of a field: a scalar, or a non-empty object of operators. */
  predicate FieldFits(v: Json) {
    Scalar(v) || (v.JObj? && v.entries != [] && forall i :: 0 <= i < |v.entries| ==> Operand(v.entries[i].key, v.entries[i].value))
  }

  predicate HasKey(es: seq<Entry>, key: string) {
    exists i :: 0 <= i < |es| && es[i].key == key
  }

  predicate HasField(es: seq<Entry>) {
    exists i :: 0 <= i < |es| && !Combinator(es[i].key)
  }

  /**
   A filter as the query language describes it: an object with members, each field fitting, each
   combinator a list of filters; not both combinators; nothing beside `$or`, whose list is not empty;
   an empty `$and` list only beside fields.
   */
  predicate WellFormed(v: Json) {
    && v.JObj? && v.entries != []
    && !(HasKey(v.entries, "$and") && HasKey(v.entries, "$or"))
    && !(HasField(v.entries) && HasKey(v.entries, "$or"))
    && forall i :: 0 <= i < |v.entries| ==>
         var e := v.entries[i];
         if Combinator(e.key) then
           && e.value.JArr?
           && (e.value.items == [] ==> e.key == "$and" && HasField(v.entries))
           && forall j :: 0 <= j < |e.value.items| ==> WellFormed(e.value.items[j])
         else FieldFits(e.value)
  }

  lemma {:induction false} ValuesParseIff(items: seq<Json>)
    ensures Values(items).Ok? <==> forall i :: 0 <= i < |items| ==> Scalar(items[i])
  {
    if items != [] {
      ValuesParseIff(items[1..]);
      assert forall i :: 0 < i < |items| ==> items[i] == items[1..][i - 1];
    }
  }

  lemma OpParsesIff(op: string, v: Json)
    ensures ParseOp(op, v).Ok? <==> Operand(op, v)
  {
    if v.JArr? {
      ValuesParseIff(v.items);
    }
  }

  lemma {:induction false} OpsParseIff(key: string, ops: seq<Entry>)
    ensures ParseOps(key, ops).Ok? <==> forall i :: 0 <= i < |ops| ==> Operand(ops[i].key, ops[i].value)
    ensures ParseOps(key, ops).Ok? ==> |ParseOps(key, ops).value| == |ops|
  {
    if ops != [] {
      OpParsesIff(ops[0].key, ops[0].value);
      OpsParseIff(key, ops[1..]);
      hide Operand, ParseOp;
      assert forall i :: 0 < i < |ops| ==> ops[i] == ops[1..][i - 1];
    }
  }

  lemma FieldParsesIff(key: string, v: Json)
    ensures ParseField(key, v).Ok? <==> FieldFits(v)
  {
    if v.JObj? {
      OpsParseIff(key, v.entries);
    }
    hide Operand, ParseOp;
  }

  /** One member of an object is gathered without an error. */
  predicate EntryFits(e: Entry) {
    if Combinator(e.key) then e.value.JArr? else FieldFits(e.value)
  }

  /** The parts are those of the members: some field, and the lists of the combinators. */
  ghost predicate GatheredAs(es: seq<Entry>, p: Parts) {
    && (p.fields != [] <==> HasField(es))
    && (p.and.Some? <==> HasKey(es, "$and")) && (p.or.Some? <==> HasKey(es, "$or"))
    && (forall i :: 0 <= i < |es| && es[i].key == "$and" ==> p.and.Some? && es[i].value == JArr(p.and.value))
    && (forall i :: 0 <= i < |es| && es[i].key == "$or" ==> p.or.Some? && es[i].value == JArr(p.or.value))
  }

  lemma GatherStep(c: seq<Entry>, e: Entry, p: Parts)
    requires GatheredAs(c, p) && forall i :: 0 <= i < |c| ==> c[i].key != e.key
    ensures AddEntry(p, e).Ok? <==> EntryFits(e)
    ensures AddEntry(p, e).Ok? ==> GatheredAs(c + [e], AddEntry(p, e).value)
  {
    FieldParsesIff(e.key, e.value);
    hide FieldFits, ParseField, HasField, HasKey;
    assert (c + [e])[..|c|] == c;
    HasLast(c + [e]);
  }

  lemma {:induction false} GatherIff(es: seq<Entry>)
    requires forall i, j :: 0 <= i < j < |es| ==> es[i].key != es[j].key
    ensures Gather(es).Ok? <==> forall i :: 0 <= i < |es| ==> EntryFits(es[i])
    ensures Gather(es).Ok? ==> GatheredAs(es, Gather(es).value)
  {
    if es != [] {
      hide EntryFits, AddEntry, GatheredAs;
      var c, e := es[..|es| - 1], es[|es| - 1];
      GatherIff(c);
      if Gather(c).Ok? {
        GatherStep(c, e, Gather(c).value);
      }
      assert es == c + [e];
    }
  }

  lemma HasLast(es: seq<Entry>)
    requires es != []
    ensures var c, e := es[..|es| - 1], es[|es| - 1];
            && (HasField(es) <==> HasField(c) || !Combinator(e.key))
            && (forall key :: HasKey(es, key) <==> HasKey(c, key) || e.key == key)
  {
    var c := es[..|es| - 1];
    assert forall i :: 0 <= i < |c| ==> c[i] == es[i];
  }

  lemma {:induction false} ListParsesIff(v: Json, key: string, items: seq<Json>, n: nat)
    requires v.JObj? && DistinctKeys(v) && Entry(key, JArr(items)) in v.entries && n <= |items|
    ensures ParseList(v, key, items, n).Ok? <==> forall j :: 0 <= j < n ==> WellFormed(items[j])
    decreases v, 0, n
  {
    if n > 0 {
      ListParsesIff(v, key, items, n - 1);
      assert items[n - 1] < JArr(items);
      var k :| 0 <= k < |v.entries| && v.entries[k] == Entry(key, JArr(items));
      assert DistinctKeys(v.entries[k].value);
      ParsesIff(items[n - 1]);
    }
  }

  /** Exactly the well-formed filters parse. */
  lemma {:induction false} ParsesIff(v: Json)
    requires DistinctKeys(v)
    ensures Parse(v).Ok? <==> WellFormed(v)
    decreases v, 1, 0
  {
    if v.JObj? {
      GatherIff(v.entries);
      var g := Gather(v.entries);
      if g.Ok? {
        if g.value.and.Some? {
          ListParsesIff(v, "$and", g.value.and.value, |g.value.and.value|);
        }
        if g.value.or.Some? {
          ListParsesIff(v, "$or", g.value.or.value, |g.value.or.value|);
        }
        GatheredIff(v, g.value);
      }
    }
  }

  lemma GatheredIff(v: Json, p: Parts)
    requires v.JObj? && Gather(v.entries) == Ok(p) && forall i :: 0 <= i < |v.entries| ==> EntryFits(v.entries[i])
    requires GatheredAs(v.entries, p)
    requires p.and.Some? ==> (ParseList(v, "$and", p.and.value, |p.and.value|).Ok? <==> forall j :: 0 <= j < |p.and.value| ==> WellFormed(p.and.value[j]))
    requires p.or.Some? ==> (ParseList(v, "$or", p.or.value, |p.or.value|).Ok? <==> forall j :: 0 <= j < |p.or.value| ==> WellFormed(p.or.value[j]))
    ensures Parse(v).Ok? <==> WellFormed(v)
  {
    hide FieldFits, Gather, ParseList;
    if v.entries != [] && !HasField(v.entries) {
      assert Combinator(v.entries[0].key);
    }
  }
}
