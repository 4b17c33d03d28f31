/** The metadata inverted index and its agreement with the filter semantics. */
module Postings {
  import opened Core
  import opened Numbers
  import opened Filter

  // ---------------------------------------------------------------------------------------------
  // Two-level inverted tables: field -> value -> set of offsets
  // ---------------------------------------------------------------------------------------------

  type Table<V> = map<string, map<V, set<nat>>>

  function Lookup<V>(t: Table<V>, k: string, v: V): set<nat> {
    if k in t && v in t[k] then t[k][v] else {}
  }

  /** No empty bitmap and no empty field is kept. */
  ghost predicate NoEmpties<V(!new)>(t: Table<V>) {
    && (forall k :: k in t ==> t[k] != map[])
    && (forall k, v :: k in t && v in t[k] ==> t[k][v] != {})
  }

  /** `entry(k).or_default().entry(v).or_default().insert(o)` for one field. */
  function InsertOne<V>(t: Table<V>, o: nat, k: string, v: V): Table<V> {
    t[k := InsertInner(t, o, k, v)]
  }

  function InsertInner<V>(t: Table<V>, o: nat, k: string, v: V): map<V, set<nat>> {
    (if k in t then t[k] else map[])[v := Lookup(t, k, v) + {o}]
  }

  /** The same for every field of a record. */
  function InsertAll<V>(t: Table<V>, o: nat, e: map<string, V>): Table<V> {
    map k | k in t.Keys + e.Keys ::
      if k in e then InsertInner(t, o, k, e[k]) else t[k]
  }

  /** One field without offset o under value v, an emptied bitmap pruned. */
  function Trim<V>(inner: map<V, set<nat>>, v: V, o: nat): map<V, set<nat>> {
    if v in inner then
      if inner[v] - {o} == {} then inner - {v} else inner[v := inner[v] - {o}]
    else inner
  }

  function RemoveOne<V>(t: Table<V>, o: nat, k: string, v: V): Table<V> {
    if k in t then
      if Trim(t[k], v, o) == map[] then t - {k} else t[k := Trim(t[k], v, o)]
    else t
  }

  function RemoveEntries<V>(t: Table<V>, o: nat, e: map<string, V>): Table<V> {
    map k | k in t && (k in e ==> Trim(t[k], e[k], o) != map[]) ::
      if k in e then Trim(t[k], e[k], o) else t[k]
  }

  function DropInner<V>(inner: map<V, set<nat>>, o: nat): map<V, set<nat>> {
    map v | v in inner && inner[v] - {o} != {} :: inner[v] - {o}
  }

  /** Offset o dropped everywhere, emptied bitmaps and fields pruned. */
  function Drop<V>(t: Table<V>, o: nat): Table<V> {
    map k | k in t && DropInner(t[k], o) != map[] :: DropInner(t[k], o)
  }

  /** A table without empties is determined by its lookups. */
  lemma SameLookups<V(!new)>(s: Table<V>, t: Table<V>)
    requires NoEmpties(s) && NoEmpties(t)
    requires forall k, v :: Lookup(s, k, v) == Lookup(t, k, v)
    ensures s == t
  {
    forall k | k in s
      ensures k in t && forall v :: v in s[k] ==> v in t[k] && s[k][v] == t[k][v]
    {
      assert s[k] != map[];
      var w :| w in s[k];
      assert Lookup(s, k, w) == Lookup(t, k, w);
      forall v | v in s[k]
        ensures v in t[k] && s[k][v] == t[k][v]
      {
        assert Lookup(s, k, v) == Lookup(t, k, v);
      }
    }
    forall k | k in t
      ensures k in s && forall v :: v in t[k] ==> v in s[k]
    {
      assert t[k] != map[];
      var w :| w in t[k];
      assert Lookup(s, k, w) == Lookup(t, k, w);
      forall v | v in t[k]
        ensures v in s[k]
      {
        assert Lookup(s, k, v) == Lookup(t, k, v);
      }
    }
    forall k | k in s
      ensures s[k] == t[k]
    {
    }
  }

  lemma InsertLookups<V(!new)>(t: Table<V>, o: nat, e: map<string, V>)
    requires NoEmpties(t)
    ensures NoEmpties(InsertAll(t, o, e))
    ensures forall k, v :: Lookup(InsertAll(t, o, e), k, v) ==
                           Lookup(t, k, v) + (if k in e && e[k] == v then {o} else {})
  {
    var u := InsertAll(t, o, e);
    forall k | k in u
      ensures u[k] != map[] && forall v :: v in u[k] ==> u[k][v] != {}
    {
      if k in e {
        assert e[k] in u[k];
      }
    }
  }

  lemma TrimFacts<V(!new)>(inner: map<V, set<nat>>, w: V, o: nat)
    requires forall v :: v in inner ==> inner[v] != {}
    ensures forall v :: v in Trim(inner, w, o) ==> Trim(inner, w, o)[v] != {}
    ensures forall v :: v in Trim(inner, w, o) <==> v in inner && (v == w ==> inner[v] - {o} != {})
    ensures forall v :: v in Trim(inner, w, o) ==>
              Trim(inner, w, o)[v] == (if v == w then inner[v] - {o} else inner[v])
  {
  }

  lemma RemoveLookups<V(!new)>(t: Table<V>, o: nat, e: map<string, V>)
    requires NoEmpties(t)
    ensures NoEmpties(RemoveEntries(t, o, e))
    ensures forall k, v :: Lookup(RemoveEntries(t, o, e), k, v) ==
                           (if k in e && e[k] == v then Lookup(t, k, v) - {o} else Lookup(t, k, v))
  {
    var u := RemoveEntries(t, o, e);
    forall k | k in t && k in e
      ensures k in u ==> forall v :: v in u[k] ==> u[k][v] != {}
      ensures forall v :: Lookup(u, k, v) == (if e[k] == v then Lookup(t, k, v) - {o} else Lookup(t, k, v))
    {
      TrimFacts(t[k], e[k], o);
      if k !in u {
        assert Trim(t[k], e[k], o) == map[];
      }
    }
  }

  lemma DropLookups<V(!new)>(t: Table<V>, o: nat)
    ensures NoEmpties(Drop(t, o))
    ensures forall k, v :: Lookup(Drop(t, o), k, v) == Lookup(t, k, v) - {o}
  {
    var u := Drop(t, o);
    forall k, v
      ensures Lookup(u, k, v) == Lookup(t, k, v) - {o}
    {
      if k in t && v in t[k] {
        if t[k][v] - {o} != {} {
          assert v in DropInner(t[k], o);
        } else {
          assert v !in DropInner(t[k], o);
        }
      }
    }
  }

  // ---------------------------------------------------------------------------------------------
  // The postings value
  // ---------------------------------------------------------------------------------------------

  /** Canonical form of a value: integers and floats share one numeric key. */
  datatype Key = KStr(s: string) | KBool(b: bool) | KNum(n: real)

  function KeyOf(v: Value): Key {
    match v
    case Str(s) => KStr(s)
    case Bool(b) => KBool(b)
    case Int(i) => KNum(ToF64(i))
    case Float(f) => KNum(f)
  }

  /** Exact-match postings, numeric postings for range scans, and the set of all live offsets. */
  datatype Index = Index(eq: Table<Key>, num: Table<real>, all: set<nat>)

  const EMPTY := Index(map[], map[], {})

  function EqEntries(m: Metadata): map<string, Key> {
    map k | k in m :: KeyOf(m[k])
  }

  function NumEntries(m: Metadata): map<string, real> {
    map k | k in m && AsF64(m[k]).Some? :: AsF64(m[k]).value
  }

  function Insert(p: Index, o: nat, m: Option<Metadata>): Index {
    var e := OrEmpty(m);
    Index(InsertAll(p.eq, o, EqEntries(e)), InsertAll(p.num, o, NumEntries(e)), p.all + {o})
  }

  function Remove(p: Index, o: nat, m: Option<Metadata>): Index {
    var e := OrEmpty(m);
    Index(RemoveEntries(p.eq, o, EqEntries(e)), RemoveEntries(p.num, o, NumEntries(e)), p.all - {o})
  }

  function RemoveAll(p: Index, o: nat): Index {
    Index(Drop(p.eq, o), Drop(p.num, o), p.all - {o})
  }

  // ---------------------------------------------------------------------------------------------
  // What a postings value stands for
  // ---------------------------------------------------------------------------------------------

  ghost predicate EqIndexes(t: Table<Key>, ms: map<nat, Metadata>) {
    NoEmpties(t) &&
    forall k, v, o: nat :: o in Lookup(t, k, v) <==> o in ms && k in ms[o] && KeyOf(ms[o][k]) == v
  }

  ghost predicate NumIndexes(t: Table<real>, ms: map<nat, Metadata>) {
    NoEmpties(t) &&
    forall k, v, o: nat :: o in Lookup(t, k, v) <==> o in ms && k in ms[o] && AsF64(ms[o][k]) == Some(v)
  }

  /** p indexes exactly the metadata maps ms, keyed by offset. */
  ghost predicate Indexes(p: Index, ms: map<nat, Metadata>) {
    && p.all == ms.Keys
    && EqIndexes(p.eq, ms)
    && NumIndexes(p.num, ms)
  }

  lemma EqMember(t: Table<Key>, ms: map<nat, Metadata>, k: string, v: Key, o: nat)
    requires EqIndexes(t, ms)
    ensures o in Lookup(t, k, v) <==> o in ms && k in ms[o] && KeyOf(ms[o][k]) == v
  {
  }

  lemma NumMember(t: Table<real>, ms: map<nat, Metadata>, k: string, v: real, o: nat)
    requires NumIndexes(t, ms)
    ensures o in Lookup(t, k, v) <==> o in ms && k in ms[o] && AsF64(ms[o][k]) == Some(v)
  {
  }

  /** The metadata maps determine the postings: there is no hidden state. */
  lemma IndexesUnique(p: Index, q: Index, ms: map<nat, Metadata>)
    requires Indexes(p, ms) && Indexes(q, ms)
    ensures p == q
  {
    forall k, v
      ensures Lookup(p.eq, k, v) == Lookup(q.eq, k, v)
    {
      var s, t := Lookup(p.eq, k, v), Lookup(q.eq, k, v);
      forall o: nat
        ensures o in s <==> o in t
      {
        EqMember(p.eq, ms, k, v, o);
        EqMember(q.eq, ms, k, v, o);
      }
    }
    SameLookups(p.eq, q.eq);
    forall k, v
      ensures Lookup(p.num, k, v) == Lookup(q.num, k, v)
    {
      var s, t := Lookup(p.num, k, v), Lookup(q.num, k, v);
      forall o: nat
        ensures o in s <==> o in t
      {
        NumMember(p.num, ms, k, v, o);
        NumMember(q.num, ms, k, v, o);
      }
    }
    SameLookups(p.num, q.num);
  }

  lemma InsertEq(t: Table<Key>, ms: map<nat, Metadata>, o: nat, m: Metadata)
    requires EqIndexes(t, ms) && o !in ms
    ensures EqIndexes(InsertAll(t, o, EqEntries(m)), ms[o := m])
  {
    InsertLookups(t, o, EqEntries(m));
  }

  lemma InsertNum(t: Table<real>, ms: map<nat, Metadata>, o: nat, m: Metadata)
    requires NumIndexes(t, ms) && o !in ms
    ensures NumIndexes(InsertAll(t, o, NumEntries(m)), ms[o := m])
  {
    InsertLookups(t, o, NumEntries(m));
  }

  lemma InsertIndexes(p: Index, ms: map<nat, Metadata>, o: nat, m: Option<Metadata>)
    requires Indexes(p, ms) && o !in ms
    ensures Indexes(Insert(p, o, m), ms[o := OrEmpty(m)])
  {
    InsertEq(p.eq, ms, o, OrEmpty(m));
    InsertNum(p.num, ms, o, OrEmpty(m));
  }

  lemma RemoveEq(t: Table<Key>, ms: map<nat, Metadata>, o: nat, m: Metadata)
    requires EqIndexes(t, ms) && (if o in ms then ms[o] == m else m == map[])
    ensures EqIndexes(RemoveEntries(t, o, EqEntries(m)), ms - {o})
  {
    hide RemoveEntries, Lookup, NoEmpties;
    RemoveLookups(t, o, EqEntries(m));
  }

  lemma RemoveNum(t: Table<real>, ms: map<nat, Metadata>, o: nat, m: Metadata)
    requires NumIndexes(t, ms) && (if o in ms then ms[o] == m else m == map[])
    ensures NumIndexes(RemoveEntries(t, o, NumEntries(m)), ms - {o})
  {
    hide RemoveEntries, Lookup, NoEmpties;
    RemoveLookups(t, o, NumEntries(m));
  }

  lemma RemoveIndexes(p: Index, ms: map<nat, Metadata>, o: nat, m: Option<Metadata>)
    requires Indexes(p, ms)
    requires if o in ms then ms[o] == OrEmpty(m) else OrEmpty(m) == map[]
    ensures Indexes(Remove(p, o, m), ms - {o})
  {
    hide EqIndexes, NumIndexes, OrEmpty;
    RemoveEq(p.eq, ms, o, OrEmpty(m));
    RemoveNum(p.num, ms, o, OrEmpty(m));
  }

  lemma DropEq(t: Table<Key>, ms: map<nat, Metadata>, o: nat)
    requires EqIndexes(t, ms)
    ensures EqIndexes(Drop(t, o), ms - {o})
  {
    hide Drop, Lookup, NoEmpties;
    DropLookups(t, o);
  }

  lemma DropNum(t: Table<real>, ms: map<nat, Metadata>, o: nat)
    requires NumIndexes(t, ms)
    ensures NumIndexes(Drop(t, o), ms - {o})
  {
    hide Drop, Lookup, NoEmpties;
    DropLookups(t, o);
  }

  lemma RemoveAllIndexes(p: Index, ms: map<nat, Metadata>, o: nat)
    requires Indexes(p, ms)
    ensures Indexes(RemoveAll(p, o), ms - {o})
  {
    hide EqIndexes, NumIndexes;
    DropEq(p.eq, ms, o);
    DropNum(p.num, ms, o);
  }

  // ---------------------------------------------------------------------------------------------
  // Evaluation
  // ---------------------------------------------------------------------------------------------

  function KeyPresent(p: Index, k: string): set<nat> {
    if k in p.eq then set v, o | v in p.eq[k] && o in p.eq[k][v] :: o else {}
  }

  /** Union of the numeric postings whose value passes the bound. */
  function NumRange(p: Index, k: string, op: ComparisonOp): set<nat> {
    if k in p.num then set n, o | n in p.num[k] && InRange(n, op) && o in p.num[k][n] :: o else {}
  }

  predicate InRange(n: real, op: ComparisonOp) {
    match op
    case Gt(b) => n > b
    case Gte(b) => n >= b
    case Lt(b) => n < b
    case Lte(b) => n <= b
    case _ => false
  }

  function EqAny(p: Index, k: string, vs: seq<Value>): set<nat> {
    if vs == [] then {} else Lookup(p.eq, k, KeyOf(vs[0])) + EqAny(p, k, vs[1..])
  }

  function EvalOp(p: Index, k: string, op: ComparisonOp): set<nat> {
    match op
    case Eq(v) => Lookup(p.eq, k, KeyOf(v))
    case Ne(v) => KeyPresent(p, k) - Lookup(p.eq, k, KeyOf(v))
    case In(vs) => EqAny(p, k, vs)
    case Nin(vs) => p.all - EqAny(p, k, vs)
    case _ => NumRange(p, k, op)
  }

  /** And intersects (an empty And keeps every offset), Or unites. */
  function Evaluate(p: Index, c: Condition): set<nat>
    decreases c, 0
  {
    match c
    case Comparison(k, op) => EvalOp(p, k, op)
    case And(cs) =>
      if cs == [] then p.all else EvalAnd(p, c, |cs|)
    case Or(cs) => EvalOr(p, c, |cs|)
  }

  /** The intersection of the first n conditions. */
  function EvalAnd(p: Index, c: Condition, n: nat): set<nat>
    requires c.And? && 1 <= n <= |c.conds|
    decreases c, 0, n
  {
    if n == 1 then Evaluate(p, c.conds[0])
    else EvalAnd(p, c, n - 1) * Evaluate(p, c.conds[n - 1])
  }

  /** The union of the first n conditions. */
  function EvalOr(p: Index, c: Condition, n: nat): set<nat>
    requires c.Or? && n <= |c.conds|
    decreases c, 0, n
  {
    if n == 0 then {} else EvalOr(p, c, n - 1) + Evaluate(p, c.conds[n - 1])
  }

  // ---------------------------------------------------------------------------------------------
  // Agreement with the oracle
  // ---------------------------------------------------------------------------------------------

  /** Two different integers with one binary64 image: the only values the two sides tell apart. */
  predicate Collide(a: Value, b: Value) {
    a.Int? && b.Int? && a.i != b.i && ToF64(a.i) == ToF64(b.i)
  }

  /** Key equality is value equality exactly where no two integers collide. */
  lemma KeysAgreeIff(a: Value, b: Value)
    ensures (KeyOf(a) == KeyOf(b) <==> ValuesEqual(a, b)) <==> !Collide(a, b)
  {
  }

  /** The operands an operator compares for equality. */
  function Operands(op: ComparisonOp): seq<Value> {
    match op
    case Eq(v) => [v]
    case Ne(v) => [v]
    case In(vs) => vs
    case Nin(vs) => vs
    case _ => []
  }

  /** Some equality operand of the filter collides with the record's value of that field. */
  ghost predicate Clashes(c: Condition, m: Metadata) {
    match c
    case Comparison(k, op) => k in m && exists v :: v in Operands(op) && Collide(m[k], v)
    case And(cs) => exists i :: 0 <= i < |cs| && Clashes(cs[i], m)
    case Or(cs) => exists i :: 0 <= i < |cs| && Clashes(cs[i], m)
  }

  lemma {:induction false} EqAnyMembers(p: Index, ms: map<nat, Metadata>, k: string, vs: seq<Value>, o: nat)
    requires EqIndexes(p.eq, ms)
    ensures o in EqAny(p, k, vs) <==>
            o in ms && k in ms[o] && exists v :: v in vs && KeyOf(ms[o][k]) == KeyOf(v)
  {
    if vs != [] {
      EqAnyMembers(p, ms, k, vs[1..], o);
      assert forall v :: v in vs <==> v == vs[0] || v in vs[1..];
    }
  }

  lemma KeyPresentMembers(p: Index, ms: map<nat, Metadata>, k: string, o: nat)
    requires EqIndexes(p.eq, ms)
    ensures o in KeyPresent(p, k) <==> o in ms && k in ms[o]
  {
    if o in ms && k in ms[o] {
      assert o in Lookup(p.eq, k, KeyOf(ms[o][k]));
    }
    if o in KeyPresent(p, k) {
      var v :| v in p.eq[k] && o in p.eq[k][v];
      assert o in Lookup(p.eq, k, v);
    }
  }

  lemma NumRangeMembers(p: Index, ms: map<nat, Metadata>, k: string, op: ComparisonOp, o: nat)
    requires NumIndexes(p.num, ms)
    ensures o in NumRange(p, k, op) <==>
            o in ms && k in ms[o] && AsF64(ms[o][k]).Some? && InRange(AsF64(ms[o][k]).value, op)
  {
    if o in ms && k in ms[o] && AsF64(ms[o][k]).Some? {
      assert o in Lookup(p.num, k, AsF64(ms[o][k]).value);
    }
    if o in NumRange(p, k, op) {
      var n :| n in p.num[k] && InRange(n, op) && o in p.num[k][n];
      assert o in Lookup(p.num, k, n);
    }
  }

  lemma EvalOpAgrees(p: Index, ms: map<nat, Metadata>, k: string, op: ComparisonOp, o: nat)
    requires Indexes(p, ms)
    requires o in ms ==> !Clashes(Comparison(k, op), ms[o])
    ensures o in EvalOp(p, k, op) <==> o in ms && MatchOp(k, op, ms[o])
  {
    KeyPresentMembers(p, ms, k, o);
    NumRangeMembers(p, ms, k, op, o);
    EqAnyMembers(p, ms, k, Operands(op), o);
    if o in ms && k in ms[o] {
      forall v | v in Operands(op)
        ensures KeyOf(ms[o][k]) == KeyOf(v) <==> ValuesEqual(ms[o][k], v)
      {
        KeysAgreeIff(ms[o][k], v);
      }
    }
    if op.Eq? || op.Ne? {
      assert op.v in Operands(op);
    }
  }

  /**
   Postings agree with the oracle: on every filter tree, evaluation selects exactly the offsets
   whose metadata the filter matches, unless one of its integers collides with the record's.
   */
  lemma {:induction false} EvaluateAgrees(p: Index, ms: map<nat, Metadata>, c: Condition, o: nat)
    requires Indexes(p, ms)
    requires o in ms ==> !Clashes(c, ms[o])
    ensures o in Evaluate(p, c) <==> o in ms && Matches(c, ms[o])
    decreases c, 0
  {
    match c
    case Comparison(k, op) => EvalOpAgrees(p, ms, k, op, o);
    case And(cs) =>
      if cs != [] {
        EvalAndAgrees(p, ms, c, |cs|, o);
      }
    case Or(cs) => EvalOrAgrees(p, ms, c, |cs|, o);
  }

  lemma {:induction false} EvalAndAgrees(p: Index, ms: map<nat, Metadata>, c: Condition, n: nat, o: nat)
    requires Indexes(p, ms) && c.And? && 1 <= n <= |c.conds|
    requires o in ms ==> !Clashes(c, ms[o])
    ensures o in EvalAnd(p, c, n) <==> o in ms && forall i :: 0 <= i < n ==> Matches(c.conds[i], ms[o])
    decreases c, 0, n
  {
    EvaluateAgrees(p, ms, c.conds[n - 1], o);
    if n > 1 {
      EvalAndAgrees(p, ms, c, n - 1, o);
    }
  }

  lemma {:induction false} EvalOrAgrees(p: Index, ms: map<nat, Metadata>, c: Condition, n: nat, o: nat)
    requires Indexes(p, ms) && c.Or? && n <= |c.conds|
    requires o in ms ==> !Clashes(c, ms[o])
    ensures o in EvalOr(p, c, n) <==> o in ms && exists i :: 0 <= i < n && Matches(c.conds[i], ms[o])
    decreases c, 0, n
  {
    if n > 0 {
      EvaluateAgrees(p, ms, c.conds[n - 1], o);
      EvalOrAgrees(p, ms, c, n - 1, o);
    }
  }

  /**
   For one equality or inequality test on a present field the condition is exact: the postings and
   the oracle agree if and only if the two values do not collide.
   */
  lemma EqualityAgreesIff(p: Index, ms: map<nat, Metadata>, k: string, v: Value, o: nat)
    requires Indexes(p, ms) && o in ms && k in ms[o]
    ensures (o in EvalOp(p, k, Eq(v)) <==> MatchOp(k, Eq(v), ms[o])) <==> !Collide(ms[o][k], v)
    ensures (o in EvalOp(p, k, Ne(v)) <==> MatchOp(k, Ne(v), ms[o])) <==> !Collide(ms[o][k], v)
  {
    EqMember(p.eq, ms, k, KeyOf(v), o);
    KeyPresentMembers(p, ms, k, o);
    KeysAgreeIff(ms[o][k], v);
  }

  /** A record whose value is one above the operand, just beyond 53 bits, is selected but does not match. */
  lemma CollisionSelects(k: string, o: nat)
    ensures var m: Metadata := map[k := Int(TWO_53 + 1)];
            var f := Comparison(k, Eq(Int(TWO_53)));
            o in Evaluate(Insert(EMPTY, o, Some(m)), f) && !Matches(f, m)
  {
    var m: Metadata := map[k := Int(TWO_53 + 1)];
    FirstCollision();
    assert Indexes(EMPTY, map[]);
    InsertIndexes(EMPTY, map[], o, Some(m));
    EqualityAgreesIff(Insert(EMPTY, o, Some(m)), map[][o := m], k, Int(TWO_53), o);
  }
}
