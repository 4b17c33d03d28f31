/** The inverted index as the object the engine mutates. */
module PostingsStore {
  import opened Core
  import opened Filter
  import opened Postings

  /** The entries of e whose field is in ks. */
  ghost function Part<V>(e: map<string, V>, ks: set<string>): map<string, V> {
    map k | k in e && k in ks :: e[k]
  }

  lemma PartNext<V>(e: map<string, V>, ks: set<string>, k: string)
    requires k !in ks
    ensures Part(e, ks + {k}) == if k in e then Part(e, ks)[k := e[k]] else Part(e, ks)
  {
  }

  lemma InsertNext<V>(t: Table<V>, o: nat, e: map<string, V>, k: string, v: V)
    requires k !in e
    ensures InsertOne(InsertAll(t, o, e), o, k, v) == InsertAll(t, o, e[k := v])
  {
    assert InsertInner(InsertAll(t, o, e), o, k, v) == InsertInner(t, o, k, v);
  }

  lemma RemoveNext<V>(t: Table<V>, o: nat, e: map<string, V>, k: string, v: V)
    requires k !in e
    ensures RemoveOne(RemoveEntries(t, o, e), o, k, v) == RemoveEntries(t, o, e[k := v])
  {
    hide Trim;
  }

  lemma NothingYet<V>(t: Table<V>, o: nat, e: map<string, V>)
    ensures InsertAll(t, o, Part(e, {})) == t && RemoveEntries(t, o, Part(e, {})) == t
  {
    assert Part(e, {}) == map[];
  }

  /** One field of a record indexed. */
  function InsertField(p: Index, o: nat, k: string, v: Value): Index {
    Index(InsertOne(p.eq, o, k, KeyOf(v)),
          if AsF64(v).Some? then InsertOne(p.num, o, k, AsF64(v).value) else p.num, p.all)
  }

  /** One field of a record un-indexed. */
  function RemoveField(p: Index, o: nat, k: string, v: Value): Index {
    Index(RemoveOne(p.eq, o, k, KeyOf(v)),
          if AsF64(v).Some? then RemoveOne(p.num, o, k, AsF64(v).value) else p.num, p.all)
  }

  lemma NextEntries(m: Metadata, ks: set<string>, k: string)
    requires k in m && k !in ks
    ensures k !in EqEntries(Part(m, ks)) && k !in NumEntries(Part(m, ks))
    ensures EqEntries(Part(m, ks + {k})) == EqEntries(Part(m, ks))[k := KeyOf(m[k])]
    ensures NumEntries(Part(m, ks + {k})) ==
            if AsF64(m[k]).Some? then NumEntries(Part(m, ks))[k := AsF64(m[k]).value] else NumEntries(Part(m, ks))
  {
    hide KeyOf, AsF64;
    PartNext(m, ks, k);
  }

  /** Indexing a record is indexing its fields one by one, in any order. */
  lemma InsertFieldNext(p: Index, o: nat, m: Metadata, ks: set<string>, k: string)
    requires k in m && k !in ks
    ensures Postings.Insert(p, o, Some(Part(m, ks + {k}))) == InsertField(Postings.Insert(p, o, Some(Part(m, ks))), o, k, m[k])
  {
    hide KeyOf, AsF64, EqEntries, NumEntries, InsertAll, InsertOne;
    NextEntries(m, ks, k);
    InsertNext(p.eq, o, EqEntries(Part(m, ks)), k, KeyOf(m[k]));
    if AsF64(m[k]).Some? {
      InsertNext(p.num, o, NumEntries(Part(m, ks)), k, AsF64(m[k]).value);
    }
  }

  lemma RemoveFieldNext(p: Index, o: nat, m: Metadata, ks: set<string>, k: string)
    requires k in m && k !in ks
    ensures Postings.Remove(p, o, Some(Part(m, ks + {k}))) == RemoveField(Postings.Remove(p, o, Some(Part(m, ks))), o, k, m[k])
  {
    hide KeyOf, AsF64, EqEntries, NumEntries, RemoveEntries, RemoveOne;
    NextEntries(m, ks, k);
    RemoveNext(p.eq, o, EqEntries(Part(m, ks)), k, KeyOf(m[k]));
    if AsF64(m[k]).Some? {
      RemoveNext(p.num, o, NumEntries(Part(m, ks)), k, AsF64(m[k]).value);
    }
  }

  lemma NoFields(p: Index, o: nat, m: Metadata)
    ensures Postings.Insert(p, o, Some(Part(m, {}))) == p.(all := p.all + {o})
    ensures Postings.Remove(p, o, Some(Part(m, {}))) == p.(all := p.all - {o})
  {
    hide InsertAll, RemoveEntries;
    assert Part(m, {}) == map[];
    assert EqEntries(map[]) == map[] && NumEntries(map[]) == map[];
    NothingYet(p.eq, o, map[]);
    NothingYet(p.num, o, map[]);
    assert Part<Key>(map[], {}) == map[] && Part<real>(map[], {}) == map[];
  }

  lemma AllFields(p: Index, o: nat, m: Option<Metadata>, ks: set<string>)
    requires OrEmpty(m).Keys <= ks
    ensures Postings.Insert(p, o, Some(Part(OrEmpty(m), ks))) == Postings.Insert(p, o, m)
    ensures Postings.Remove(p, o, Some(Part(OrEmpty(m), ks))) == Postings.Remove(p, o, m)
  {
    assert Part(OrEmpty(m), ks) == OrEmpty(m);
  }

  class PostingsIndex {
    var eq: Table<Key>
    var num: Table<real>
    var all: set<nat>

    constructor ()
      ensures Value() == EMPTY
    {
      eq, num, all := map[], map[], {};
    }

    function Value(): Index
      reads this
    {
      Index(eq, num, all)
    }

    method Insert(o: nat, m: Option<Metadata>)
      modifies this
      ensures Value() == Postings.Insert(old(Value()), o, m)
    {
      hide Postings.Insert, Part, InsertOne, KeyOf, AsF64;
      ghost var p := Value();
      all := all + {o};
      var md := OrEmpty(m);
      NoFields(p, o, md);
      var rest := md.Keys;
      assert md.Keys - rest == {};
      while rest != {}
        invariant rest <= md.Keys
        invariant Value() == Postings.Insert(p, o, Some(Part(md, md.Keys - rest)))
        decreases |rest|
      {
        var k :| k in rest;
        InsertFieldNext(p, o, md, md.Keys - rest, k);
        eq := InsertOne(eq, o, k, KeyOf(md[k]));
        if AsF64(md[k]).Some? {
          num := InsertOne(num, o, k, AsF64(md[k]).value);
        }
        assert md.Keys - rest + {k} == md.Keys - (rest - {k});
        rest := rest - {k};
      }
      AllFields(p, o, m, md.Keys - rest);
    }

    method Remove(o: nat, m: Option<Metadata>)
      modifies this
      ensures Value() == Postings.Remove(old(Value()), o, m)
    {
      hide Postings.Remove, Part, RemoveOne, KeyOf, AsF64;
      ghost var p := Value();
      all := all - {o};
      var md := OrEmpty(m);
      NoFields(p, o, md);
      var rest := md.Keys;
      assert md.Keys - rest == {};
      while rest != {}
        invariant rest <= md.Keys
        invariant Value() == Postings.Remove(p, o, Some(Part(md, md.Keys - rest)))
        decreases |rest|
      {
        var k :| k in rest;
        RemoveFieldNext(p, o, md, md.Keys - rest, k);
        eq := RemoveOne(eq, o, k, KeyOf(md[k]));
        if AsF64(md[k]).Some? {
          num := RemoveOne(num, o, k, AsF64(md[k]).value);
        }
        assert md.Keys - rest + {k} == md.Keys - (rest - {k});
        rest := rest - {k};
      }
      AllFields(p, o, m, md.Keys - rest);
    }

    method RemoveAll(o: nat)
      modifies this
      ensures Value() == Postings.RemoveAll(old(Value()), o)
    {
      eq := DropEverywhere(eq, o);
      num := DropEverywhere(num, o);
      all := all - {o};
    }
  }

  /** One table of `remove_all`: drop the offset from every bitmap, then keep the non-empty fields. */
  method DropEverywhere<V>(t: Table<V>, o: nat) returns (r: Table<V>)
    ensures r == Drop(t, o)
  {
    hide DropInner, Drop;
    r := t;
    var rest := t.Keys;
    while rest != {}
      invariant rest <= t.Keys && r.Keys == t.Keys
      invariant forall k :: k in t ==> r[k] == if k in rest then t[k] else DropInner(t[k], o)
      decreases |rest|
    {
      var k :| k in rest;
      r := r[k := DropInner(r[k], o)];
      rest := rest - {k};
    }
    DropIs(t, r, o);
    r := map k | k in r && r[k] != map[] :: r[k];
  }

  lemma DropIs<V>(t: Table<V>, r: Table<V>, o: nat)
    requires r.Keys == t.Keys && forall k :: k in t ==> r[k] == DropInner(t[k], o)
    ensures (map k | k in r && r[k] != map[] :: r[k]) == Drop(t, o)
  {
    hide DropInner;
  }
}
