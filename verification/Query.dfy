/** The three query paths of a collection as candidate maps, and what those maps contain. */
module Query {
  import opened Core
  import opened History
  import opened Filter
  import opened Collection
  import opened Runs
  import opened Reads
  import opened Nearest
  import opened Guarantees
  import L = Labels
  import P = Postings

  /** The distance from the query to a vector. */
  type Dist = Embedding -> real

  /** What a query needs to know of a state whose true live records are `live`. */
  ghost predicate Serves(m: Mem, live: map<Id, Record>) {
    && m.records.Keys == live.Keys
    && (forall x :: x in live ==> live[x].embedding.Some? && m.records[x].metadata == live[x].metadata)
    && (forall x :: x in live && m.records[x].embedding.Some? ==> m.records[x].embedding == live[x].embedding)
    && (forall i, j :: 0 <= i < j < |m.buffer| ==> m.buffer[i].id != m.buffer[j].id)
    && (forall e :: e in m.buffer ==> e.id in live && e.embedding == live[e.id].embedding)
    && (forall x :: x in m.index ==> x in live)
    && (forall x :: x in live && !Buffered(m, x) ==> x in m.index && Some(m.index[x]) == live[x].embedding)
  }

  ghost predicate Buffered(m: Mem, x: Id) {
    exists e :: e in m.buffer && e.id == x
  }

  lemma MetadataAgrees(r: map<Id, Record>, s: map<Id, Record>)
    requires Below(r, s)
    ensures forall x :: x in r ==> r[x].metadata == s[x].metadata
  {
    forall x | x in r
      ensures r[x].metadata == s[x].metadata
    {
      assert r[x].(embedding := None).metadata == s[x].(embedding := None).metadata;
    }
  }

  lemma TiersServe(m: Mem, live: map<Id, Record>, flushed: nat, n: nat)
    requires Below(m.records, live) && OnePerIdInOrder(m.buffer, flushed, n)
    requires forall x :: x in live ==> live[x].embedding.Some? && NewestAt(m, x, live[x].embedding)
    requires forall e :: e in m.buffer ==> e.id in live
    requires forall x :: x in m.index ==> x in live
    ensures Serves(m, live)
  {
    MetadataAgrees(m.records, live);
    forall x | x in live && !Buffered(m, x)
      ensures x in m.index && Some(m.index[x]) == live[x].embedding
    {
      assert NewestAt(m, x, live[x].embedding);
    }
    forall e | e in m.buffer
      ensures e.embedding == live[e.id].embedding
    {
      assert NewestAt(m, e.id, live[e.id].embedding);
    }
  }

  /** Every reachable state serves the fold of its history. */
  lemma InvServes(m: Mem, h: seq<Operation>)
    requires Inv(m, h)
    ensures Serves(m, Fold(h, |h|))
  {
    hide Replay, OffsetInv, Covers, Pending, Serves, NewestAt;
    TwoTiersFromInv(m, h);
    TiersServe(m, Fold(h, |h|), m.flushedSeq, |h|);
  }

  /** What every exact answer ranks: each live id at the distance of its newest vector. */
  function NewestDist(live: map<Id, Record>, d: Dist): map<Id, real> {
    map x | x in live && live[x].embedding.Some? :: d(live[x].embedding.value)
  }

  /** The same, restricted to the ids a filter matches. */
  function EligibleDist(live: map<Id, Record>, f: Condition, d: Dist): map<Id, real> {
    map x | x in live && live[x].embedding.Some? && Matches(f, OrEmpty(live[x].metadata)) ::
      d(live[x].embedding.value)
  }

  // ---------------------------------------------------------------------------------------------
  // brute_force
  // ---------------------------------------------------------------------------------------------

  /** Every live record with a readable vector. */
  function BruteDist(r: map<Id, Record>, g: Segments, d: Dist): map<Id, real> {
    map x | x in r && ReadVector(g, r, x).Some? :: d(ReadVector(g, r, x).value)
  }

  /** With no segments, the scan ranks all live ids exactly when no record was stripped. */
  lemma BruteExactIff(m: Mem, live: map<Id, Record>, g: Segments, d: Dist)
    requires Serves(m, live) && g.rows.None?
    ensures BruteDist(m.records, g, d) == NewestDist(live, d) <==>
            forall x :: x in m.records ==> m.records[x].embedding.Some?
  {
    hide Buffered;
    var b, n := BruteDist(m.records, g, d), NewestDist(live, d);
    assert b.Keys == set x | x in m.records && m.records[x].embedding.Some?;
    assert n.Keys == live.Keys;
    if b == n {
      forall x | x in m.records
        ensures m.records[x].embedding.Some?
      {
        assert x in b.Keys;
      }
    }
  }

  /** In any run without a checkpoint, a brute-force query returns k nearest live records. */
  lemma BruteForceIsExact(c: Config, steps: seq<Step>, d: Dist, points: seq<Scored>, k: nat)
    requires Run(c, steps).Some?
    requires forall i :: 0 <= i < |steps| ==> !steps[i].CheckpointNow? && !steps[i].CrashInCheckpoint?
    requires var s := Run(c, steps).value; Enumerates(points, BruteDist(s.mem.records, s.segments, d))
    ensures KNearest(TopK(points, k), NewestDist(Fold(Run(c, steps).value.history, |Run(c, steps).value.history|), d), k)
  {
    hide Replay, KNearest, TopK, Exec, Inv;
    var s := Run(c, steps).value;
    ReadsBeforeCheckpoint(c, steps);
    RunInv(c, steps);
    InvServes(s.mem, s.history);
    var live := Fold(s.history, |s.history|);
    assert BruteDist(s.mem.records, s.segments, d) == NewestDist(live, d);
    TopKIsNearest(points, NewestDist(live, d), k);
  }

  // ---------------------------------------------------------------------------------------------
  // hybrid_search
  // ---------------------------------------------------------------------------------------------

  /** `entry(id).or_insert(distance)` for each hit. */
  function HitDist(hits: seq<Scored>): map<Id, real> {
    if hits == [] then map[]
    else
      var m := HitDist(hits[..|hits| - 1]);
      var p := hits[|hits| - 1];
      if p.id in m then m else m[p.id := p.distance]
  }

  lemma HitDistStep(hits: seq<Scored>)
    ensures HitDist(hits) ==
            if hits == [] then map[]
            else
              var m := HitDist(hits[..|hits| - 1]);
              var p := hits[|hits| - 1];
              if p.id in m then m else m[p.id := p.distance]
  {
  }

  lemma {:induction false} NeverHit(hits: seq<Scored>, x: Id)
    requires forall j :: 0 <= j < |hits| ==> hits[j].id != x
    ensures x !in HitDist(hits)
  {
    if hits != [] {
      NeverHit(hits[..|hits| - 1], x);
    }
  }

  /** Of several hits with one id the first gives the distance. */
  lemma {:induction false} FirstHitWins(hits: seq<Scored>, i: nat)
    requires i < |hits| && forall j :: 0 <= j < i ==> hits[j].id != hits[i].id
    ensures hits[i].id in HitDist(hits) && HitDist(hits)[hits[i].id] == hits[i].distance
    decreases |hits|
  {
    var c := hits[..|hits| - 1];
    HitDistStep(hits);
    if i < |c| {
      FirstHitWins(c, i);
    } else {
      NeverHit(c, hits[i].id);
    }
  }

  /** `insert(id, distance)` for each buffered vector: the buffer wins. */
  function OverBuffer(m: map<Id, real>, b: seq<Record>, d: Dist): map<Id, real> {
    if b == [] then m
    else
      var r := OverBuffer(m, b[..|b| - 1], d);
      var e := b[|b| - 1];
      if e.embedding.Some? then r[e.id := d(e.embedding.value)] else r
  }

  lemma OverBufferLast(m: map<Id, real>, b: seq<Record>, e: Record, d: Dist)
    ensures OverBuffer(m, b + [e], d) ==
            if e.embedding.Some? then OverBuffer(m, b, d)[e.id := d(e.embedding.value)] else OverBuffer(m, b, d)
  {
    assert (b + [e])[..|b|] == b;
  }

  function HybridDist(hits: seq<Scored>, b: seq<Record>, d: Dist): map<Id, real> {
    OverBuffer(HitDist(hits), b, d)
  }

  /** Every hit is a committed id at the distance of its committed vector: the search promises no more. */
  ghost predicate SoundHits(hits: seq<Scored>, index: map<Id, Embedding>, d: Dist) {
    forall p :: p in hits ==> p.id in index && p.distance == d(index[p.id])
  }

  lemma {:induction false} HitDistFacts(hits: seq<Scored>)
    ensures forall x :: x in HitDist(hits) ==> Scored(x, HitDist(hits)[x]) in hits
    ensures forall p :: p in hits ==> p.id in HitDist(hits)
  {
    if hits != [] {
      HitDistFacts(hits[..|hits| - 1]);
      assert forall p :: p in hits <==> p in hits[..|hits| - 1] || p == hits[|hits| - 1];
    }
  }

  /** One more buffered record, of an id not seen before. */
  lemma OverBufferStep(m: map<Id, real>, c: seq<Record>, e: Record, d: Dist)
    requires e.embedding.Some? && forall r :: r in c ==> r.id != e.id
    requires OverBuffered(m, c, OverBuffer(m, c, d), d)
    ensures OverBuffered(m, c + [e], OverBuffer(m, c + [e], d), d)
  {
    OverBufferLast(m, c, e, d);
    hide OverBuffer;
  }

  /** r is m with the buffered distances over it. */
  ghost predicate OverBuffered(m: map<Id, real>, b: seq<Record>, r: map<Id, real>, d: Dist) {
    && (forall e :: e in b ==> e.embedding.Some? && e.id in r && r[e.id] == d(e.embedding.value))
    && (forall x :: (forall e :: e in b ==> e.id != x) ==> (x in r <==> x in m) && (x in m ==> r[x] == m[x]))
  }

  /** The records are of different ids and each holds its vector. */
  ghost predicate Bufferable(b: seq<Record>) {
    && (forall i, j :: 0 <= i < j < |b| ==> b[i].id != b[j].id)
    && (forall e :: e in b ==> e.embedding.Some?)
  }

  lemma BufferableInit(b: seq<Record>)
    requires Bufferable(b) && b != []
    ensures Bufferable(b[..|b| - 1]) && b[|b| - 1].embedding.Some?
    ensures forall r :: r in b[..|b| - 1] ==> r.id != b[|b| - 1].id
  {
  }

  lemma {:induction false} OverBufferIs(m: map<Id, real>, b: seq<Record>, d: Dist)
    requires Bufferable(b)
    ensures OverBuffered(m, b, OverBuffer(m, b, d), d)
  {
    if b == [] {
      assert OverBuffer(m, b, d) == m;
    } else {
      hide OverBuffered, OverBuffer, Bufferable;
      var c, e := b[..|b| - 1], b[|b| - 1];
      BufferableInit(b);
      OverBufferIs(m, c, d);
      OverBufferStep(m, c, e, d);
      assert b == c + [e];
    }
  }

  lemma OverBufferFacts(m: map<Id, real>, b: seq<Record>, d: Dist)
    requires forall i, j :: 0 <= i < j < |b| ==> b[i].id != b[j].id
    requires forall e :: e in b ==> e.embedding.Some?
    ensures forall e :: e in b ==> e.id in OverBuffer(m, b, d) && OverBuffer(m, b, d)[e.id] == d(e.embedding.value)
    ensures forall x :: (forall e :: e in b ==> e.id != x) ==>
              (x in OverBuffer(m, b, d) <==> x in m) && (x in m ==> OverBuffer(m, b, d)[x] == m[x])
  {
    OverBufferIs(m, b, d);
    hide OverBuffer;
  }

  /** Whatever the index search returns, only live ids come out, at their newest vector's distance. */
  lemma HybridSound(m: Mem, live: map<Id, Record>, hits: seq<Scored>, d: Dist)
    requires Serves(m, live) && SoundHits(hits, m.index, d)
    ensures forall x :: x in HybridDist(hits, m.buffer, d) ==>
              x in NewestDist(live, d) && HybridDist(hits, m.buffer, d)[x] == NewestDist(live, d)[x]
  {
    HitDistFacts(hits);
    OverBufferFacts(HitDist(hits), m.buffer, d);
    hide OverBuffer, HitDist;
    forall x | x in HybridDist(hits, m.buffer, d)
      ensures x in NewestDist(live, d) && HybridDist(hits, m.buffer, d)[x] == NewestDist(live, d)[x]
    {
      if Buffered(m, x) {
        var e :| e in m.buffer && e.id == x;
      } else {
        assert x in HitDist(hits);
      }
    }
  }

  function IndexDist(index: map<Id, Embedding>, d: Dist): map<Id, real> {
    map x | x in index :: d(index[x])
  }

  /** The candidates the hybrid path ranks: the hits and the buffered ids. */
  lemma HybridKeys(m: Mem, live: map<Id, Record>, hits: seq<Scored>, d: Dist)
    requires Serves(m, live)
    ensures forall x :: x in HybridDist(hits, m.buffer, d) <==> Buffered(m, x) || x in IdsOf(hits)
  {
    HitDistFacts(hits);
    OverBufferFacts(HitDist(hits), m.buffer, d);
    hide OverBuffer, HitDist;
    forall x
      ensures x in HybridDist(hits, m.buffer, d) <==> Buffered(m, x) || x in IdsOf(hits)
    {
      if x in HitDist(hits) {
        assert Scored(x, HitDist(hits)[x]) in hits;
      }
    }
  }

  /** A committed vector of an id that the hybrid path does not rank. */
  ghost predicate LeftOut(m: Mem, hits: seq<Scored>, y: Id) {
    y in m.index && !Buffered(m, y) && y !in IdsOf(hits)
  }

  lemma HybridRanksPart(m: Mem, live: map<Id, Record>, hits: seq<Scored>, d: Dist)
    requires Serves(m, live) && SoundHits(hits, m.index, d)
    ensures PartOf(HybridDist(hits, m.buffer, d), NewestDist(live, d))
    ensures forall y :: y in NewestDist(live, d) && y !in HybridDist(hits, m.buffer, d) <==> LeftOut(m, hits, y)
    ensures forall y :: LeftOut(m, hits, y) ==> NewestDist(live, d)[y] == d(m.index[y])
  {
    HybridSound(m, live, hits, d);
    HybridKeys(m, live, hits, d);
    hide HybridDist, IdsOf, Buffered;
  }

  /**
   When the hybrid path is exact, for any sound index search: exactly when, for each committed,
   unbuffered id left out of the hits, at least k of the ranked candidates are as near.
   */
  lemma HybridExactIff(m: Mem, live: map<Id, Record>, hits: seq<Scored>, d: Dist, out: seq<Scored>, k: nat)
    requires Serves(m, live) && SoundHits(hits, m.index, d)
    requires KNearest(out, HybridDist(hits, m.buffer, d), k)
    ensures KNearest(out, NewestDist(live, d), k) <==>
            forall y :: LeftOut(m, hits, y) ==> |Near(HybridDist(hits, m.buffer, d), d(m.index[y]))| >= k
  {
    hide KNearest, Serves, HybridDist, NewestDist, Near, LeftOut, SoundHits;
    HybridRanksPart(m, live, hits, d);
    NearestOfPartIff(out, HybridDist(hits, m.buffer, d), NewestDist(live, d), k);
  }

  /**
   An exact search makes the hybrid path exact unless a hit is a buffered id, whose committed vector
   is stale, while the index has more than k entries.
   */
  lemma HybridExact(m: Mem, live: map<Id, Record>, hits: seq<Scored>, d: Dist, out: seq<Scored>, k: nat)
    requires Serves(m, live) && KNearest(hits, IndexDist(m.index, d), k)
    requires (forall p :: p in hits ==> !Buffered(m, p.id)) || |m.index| <= k
    requires KNearest(out, HybridDist(hits, m.buffer, d), k)
    ensures KNearest(out, NewestDist(live, d), k)
  {
    var part := HybridDist(hits, m.buffer, d);
    assert SoundHits(hits, m.index, d);
    HybridExactIff(m, live, hits, d, out, k);
    forall y | LeftOut(m, hits, y)
      ensures |Near(part, d(m.index[y]))| >= k
    {
      LeftOutIsBehind(m, live, hits, d, k, y);
    }
  }

  lemma LeftOutIsBehind(m: Mem, live: map<Id, Record>, hits: seq<Scored>, d: Dist, k: nat, y: Id)
    requires Serves(m, live) && KNearest(hits, IndexDist(m.index, d), k) && LeftOut(m, hits, y)
    requires (forall p :: p in hits ==> !Buffered(m, p.id)) || |m.index| <= k
    ensures |Near(HybridDist(hits, m.buffer, d), d(m.index[y]))| >= k
  {
    hide Near, Serves;
    IndexSize(m.index, d);
    if |m.index| <= k {
      FullTier(hits, IndexDist(m.index, d));
      assert false;
    }
    HitsKeepDistance(m, live, hits, d);
    HitsAreNear(hits, IndexDist(m.index, d), HybridDist(hits, m.buffer, d), k, y);
  }

  lemma IndexSize(index: map<Id, Embedding>, d: Dist)
    ensures |IndexDist(index, d)| == |index|
  {
    assert IndexDist(index, d).Keys == index.Keys;
    assert |IndexDist(index, d)| == |IndexDist(index, d).Keys| && |index| == |index.Keys|;
  }

  /** An unbuffered hit is ranked at its own distance. */
  lemma HitsKeepDistance(m: Mem, live: map<Id, Record>, hits: seq<Scored>, d: Dist)
    requires Serves(m, live) && Distinct(hits) && forall p :: p in hits ==> !Buffered(m, p.id)
    ensures forall p :: p in hits ==>
              p.id in HybridDist(hits, m.buffer, d) && HybridDist(hits, m.buffer, d)[p.id] == p.distance
  {
    HitDistFacts(hits);
    OverBufferFacts(HitDist(hits), m.buffer, d);
    hide OverBuffer, HitDist;
    forall p | p in hits
      ensures p.id in HitDist(hits) && HitDist(hits)[p.id] == p.distance
    {
      assert Scored(p.id, HitDist(hits)[p.id]) in hits;
    }
  }

  // ---------------------------------------------------------------------------------------------
  // filtered_query
  // ---------------------------------------------------------------------------------------------

  /** Buffered records whose own (buffered) metadata passes the filter. */
  function BufferPassing(b: seq<Record>, f: Condition): seq<Record> {
    if b == [] then []
    else
      BufferPassing(b[..|b| - 1], f) +
      (if Matches(f, OrEmpty(b[|b| - 1].metadata)) then [b[|b| - 1]] else [])
  }

  lemma {:induction false} BufferPassingFacts(b: seq<Record>, f: Condition)
    requires forall i, j :: 0 <= i < j < |b| ==> b[i].id != b[j].id
    ensures forall e :: e in BufferPassing(b, f) <==> e in b && Matches(f, OrEmpty(e.metadata))
    ensures forall i, j :: 0 <= i < j < |BufferPassing(b, f)| ==> BufferPassing(b, f)[i].id != BufferPassing(b, f)[j].id
  {
    if b == [] {
      assert BufferPassing(b, f) == [];
    } else {
      var c, p := b[..|b| - 1], BufferPassing(b, f);
      BufferPassingFacts(c, f);
      assert forall e :: e in b <==> e in c || e == b[|b| - 1];
      var q := BufferPassing(c, f);
      forall i | 0 <= i < |q|
        ensures q[i].id != b[|b| - 1].id
      {
        assert q[i] in c;
      }
    }
  }

  /**
   The exact filtered path over the selected ids: the buffered records that pass, then every
   selected record that still holds its vector.
   */
  function FilteredDist(m: Mem, selected: set<Id>, f: Condition, d: Dist): map<Id, real> {
    (map x | x in selected && x in m.records && m.records[x].embedding.Some? :: d(m.records[x].embedding.value))
    + OverBuffer(map[], BufferPassing(m.buffer, f), d)
  }

  /** The live record still holds its own vector. */
  predicate HasVector(m: Mem, x: Id) {
    x in m.records && m.records[x].embedding.Some?
  }

  ghost predicate PassesBuffered(m: Mem, f: Condition, x: Id) {
    exists e :: e in m.buffer && e.id == x && Matches(f, OrEmpty(e.metadata))
  }

  /** The ids a filter is meant to select. */
  function Eligible(r: map<Id, Record>, f: Condition): set<Id> {
    set x | x in r && Matches(f, OrEmpty(r[x].metadata))
  }

  lemma FilteredLookup(m: Mem, live: map<Id, Record>, f: Condition, d: Dist, x: Id)
    requires Serves(m, live)
    ensures var l, r := FilteredDist(m, Eligible(m.records, f), f, d), EligibleDist(live, f, d);
            && (x in r <==> x in Eligible(m.records, f))
            && (x in l <==> PassesBuffered(m, f, x) || (x in r && HasVector(m, x)))
            && (x in l && x in r ==> l[x] == r[x])
  {
    BufferPassingFacts(m.buffer, f);
    OverBufferFacts(map[], BufferPassing(m.buffer, f), d);
    hide OverBuffer, BufferPassing, Matches;
    if PassesBuffered(m, f, x) {
      var e :| e in m.buffer && e.id == x && Matches(f, OrEmpty(e.metadata));
      assert e in BufferPassing(m.buffer, f);
    }
  }

  lemma FilteredByEligible(m: Mem, live: map<Id, Record>, f: Condition, d: Dist)
    requires Serves(m, live)
    ensures FilteredDist(m, Eligible(m.records, f), f, d) == EligibleDist(live, f, d) <==>
            && (forall e :: e in m.buffer && Matches(f, OrEmpty(e.metadata)) ==> e.id in Eligible(m.records, f))
            && (forall x :: x in Eligible(m.records, f) ==> HasVector(m, x) || PassesBuffered(m, f, x))
  {
    hide FilteredDist, EligibleDist, OverBuffer, BufferPassing, Serves, Eligible, Matches;
    var l, r := FilteredDist(m, Eligible(m.records, f), f, d), EligibleDist(live, f, d);
    forall x
      ensures x in r <==> x in Eligible(m.records, f)
      ensures x in l <==> PassesBuffered(m, f, x) || (x in r && HasVector(m, x))
      ensures x in l && x in r ==> l[x] == r[x]
    {
      FilteredLookup(m, live, f, d, x);
    }
    if l == r {
      forall e | e in m.buffer && Matches(f, OrEmpty(e.metadata))
        ensures e.id in Eligible(m.records, f)
      {
        assert PassesBuffered(m, f, e.id);
      }
    }
  }

  /** No integer of the filter collides with a live record's: the postings select the eligible ids. */
  ghost predicate SelectsEligible(m: Mem, f: Condition) {
    && OffsetInv(m.offs, m.records) && m.offs.offsets.Keys == m.records.Keys
    && forall x :: x in m.records ==> !P.Clashes(f, OrEmpty(m.records[x].metadata))
  }

  /**
   The exact filtered path, with the ids the postings select, ranks exactly the eligible live ids if
   and only if no stale buffered metadata lets an ineligible id in, and every eligible id still has
   its vector in the record map or in a buffered record that passes.
   */
  lemma FilteredExactIff(m: Mem, live: map<Id, Record>, f: Condition, d: Dist)
    requires Serves(m, live) && SelectsEligible(m, f)
    ensures FilteredDist(m, Selected(m, f), f, d) == EligibleDist(live, f, d) <==>
            && (forall e :: e in m.buffer && Matches(f, OrEmpty(e.metadata)) ==> e.id in Eligible(m.records, f))
            && (forall x :: x in Eligible(m.records, f) ==> HasVector(m, x) || PassesBuffered(m, f, x))
  {
    hide FilteredDist, EligibleDist, Serves, Matches, Selected, OffsetInv;
    SelectedIsEligible(m, f);
    assert Selected(m, f) == Eligible(m.records, f);
    FilteredByEligible(m, live, f, d);
  }

  /** In any run without a checkpoint, with buffered metadata in sync, the filtered query is exact. */
  lemma FilteredQueryIsExact(c: Config, steps: seq<Step>, f: Condition, d: Dist, points: seq<Scored>, k: nat)
    requires Run(c, steps).Some?
    requires forall i :: 0 <= i < |steps| ==> !steps[i].CheckpointNow? && !steps[i].CrashInCheckpoint?
    requires var m := Run(c, steps).value.mem;
             && (forall x :: x in m.records ==> !P.Clashes(f, OrEmpty(m.records[x].metadata)))
             && (forall e :: e in m.buffer ==> e.id in m.records && e.metadata == m.records[e.id].metadata)
             && Enumerates(points, FilteredDist(m, Selected(m, f), f, d))
    ensures var h := Run(c, steps).value.history;
            KNearest(TopK(points, k), EligibleDist(Fold(h, |h|), f, d), k)
  {
    hide Replay, KNearest, TopK, Exec, SysInv, Inv, Matches, FilteredDist, EligibleDist, P.Clashes, Run, P.Evaluate, Serves, OffsetInv, Selected, Unsegmented;
    var s := Run(c, steps).value;
    ReadsBeforeCheckpoint(c, steps);
    RunInv(c, steps);
    var live := Fold(s.history, |s.history|);
    ServesFilter(c, s, f, d);
    TopKIsNearest(points, EligibleDist(live, f, d), k);
  }

  /** An unsegmented state with buffered metadata in sync ranks exactly the eligible live ids. */
  lemma ServesFilter(c: Config, s: Sys, f: Condition, d: Dist)
    requires SysInv(c, s) && Unsegmented(s)
    requires forall x :: x in s.mem.records ==> !P.Clashes(f, OrEmpty(s.mem.records[x].metadata))
    requires forall e :: e in s.mem.buffer ==> e.id in s.mem.records && e.metadata == s.mem.records[e.id].metadata
    ensures FilteredDist(s.mem, Selected(s.mem, f), f, d) == EligibleDist(Fold(s.history, |s.history|), f, d)
  {
    hide Replay, FilteredDist, EligibleDist, Matches, P.Clashes, Selected, OffsetInv, FilesOk;
    SysParts(c, s);
    InvServes(s.mem, s.history);
    OffsetsComplete(s.mem, s.history);
    FilteredExactIff(s.mem, Fold(s.history, |s.history|), f, d);
  }

  lemma SysParts(c: Config, s: Sys)
    requires SysInv(c, s)
    ensures Inv(s.mem, s.history)
  {
  }

  lemma OffsetsComplete(m: Mem, h: seq<Operation>)
    requires Inv(m, h)
    ensures OffsetInv(m.offs, m.records) && m.offs.offsets.Keys == m.records.Keys
  {
  }

  /** The ANN filtered path: buffered matches, then the hits whose id is selected. */
  function FilteredAnn(m: Mem, selected: set<Id>, f: Condition, hits: seq<Scored>, d: Dist): map<Id, real> {
    HitsWithin(hits, selected) + OverBuffer(map[], BufferPassing(m.buffer, f), d)
  }

  function HitsWithin(hits: seq<Scored>, selected: set<Id>): map<Id, real> {
    map x | x in HitDist(hits) && x in selected :: HitDist(hits)[x]
  }

  lemma NoHitsWithin(selected: set<Id>, buffered: map<Id, real>)
    ensures HitsWithin([], selected) + buffered == buffered
  {
  }

  /** One more hit counts if it is selected and neither buffered nor seen before. */
  lemma HitsWithinStep(hits: seq<Scored>, selected: set<Id>, p: Scored, buffered: map<Id, real>)
    ensures var before := HitsWithin(hits, selected) + buffered;
            HitsWithin(hits + [p], selected) + buffered ==
            if p.id in selected && p.id !in before then before[p.id := p.distance] else before
  {
    assert (hits + [p])[..|hits|] == hits;
    HitDistStep(hits + [p]);
    hide HitDist;
  }

  lemma FilteredAnnByEligible(m: Mem, live: map<Id, Record>, f: Condition, hits: seq<Scored>, d: Dist)
    requires Serves(m, live) && SoundHits(hits, m.index, d)
    requires forall e :: e in m.buffer ==> e.metadata == live[e.id].metadata
    ensures PartOf(FilteredAnn(m, Eligible(m.records, f), f, hits, d), EligibleDist(live, f, d))
  {
    HitDistFacts(hits);
    BufferPassingFacts(m.buffer, f);
    OverBufferFacts(map[], BufferPassing(m.buffer, f), d);
    hide OverBuffer, BufferPassing, HitDist, Matches;
    var ann := FilteredAnn(m, Eligible(m.records, f), f, hits, d);
    forall x | x in ann
      ensures x in EligibleDist(live, f, d)
      ensures ann[x] == EligibleDist(live, f, d)[x]
    {
      if Buffered(m, x) {
        var e :| e in m.buffer && e.id == x;
        if Matches(f, OrEmpty(e.metadata)) {
          assert e in BufferPassing(m.buffer, f);
        }
      } else {
        assert Scored(x, HitDist(hits)[x]) in hits;
      }
    }
  }

  /** With buffered metadata in sync it returns only eligible live ids, at their newest vector's distance. */
  lemma FilteredAnnSound(m: Mem, live: map<Id, Record>, f: Condition, hits: seq<Scored>, d: Dist)
    requires Serves(m, live) && SelectsEligible(m, f) && SoundHits(hits, m.index, d)
    requires forall e :: e in m.buffer ==> e.metadata == live[e.id].metadata
    ensures PartOf(FilteredAnn(m, Selected(m, f), f, hits, d), EligibleDist(live, f, d))
  {
    hide Serves, FilteredAnn, EligibleDist, Matches, Selected, OffsetInv, SoundHits, PartOf;
    SelectedIsEligible(m, f);
    assert Selected(m, f) == Eligible(m.records, f);
    FilteredAnnByEligible(m, live, f, hits, d);
  }

  // ---------------------------------------------------------------------------------------------
  // What an answer is, read off the live records and the hits
  // ---------------------------------------------------------------------------------------------

  /** The newest distances of the live ids among xs. */
  function NewestAmong(live: map<Id, Record>, xs: set<Id>, d: Dist): map<Id, real> {
    map x | x in live && x in xs && live[x].embedding.Some? :: d(live[x].embedding.value)
  }

  /** Only ranked ids come out, at their own distance. */
  ghost predicate OutSound(out: seq<Scored>, truth: map<Id, real>) {
    forall p :: p in out ==> p.id in truth && p.distance == truth[p.id]
  }

  /** The ids the hybrid path ranks: the hits and the buffered ones. */
  function Ranked(m: Mem, hits: seq<Scored>): set<Id> {
    IdsOf(hits) + set e | e in m.buffer :: e.id
  }

  /** The eligible ids the exact filtered path ranks: by their own record's vector, or as a buffered match. */
  ghost function Scanned(m: Mem, live: map<Id, Record>, f: Condition): set<Id> {
    set x | x in live && (PassesBuffered(m, f, x) || (x in Eligible(live, f) && HasVector(m, x)))
  }

  /**
   What the ANN filtered path ranks: the buffered matches by their buffered vector, the other
   eligible hits by their committed one, which is stale if the id is buffered without passing.
   */
  ghost function KeptDist(m: Mem, live: map<Id, Record>, f: Condition, hits: seq<Scored>, d: Dist): map<Id, real> {
    map x | x in live && live[x].embedding.Some? && (PassesBuffered(m, f, x) || (x in Eligible(live, f) && x in IdsOf(hits) && x in m.index)) ::
      if PassesBuffered(m, f, x) then d(live[x].embedding.value) else d(m.index[x])
  }

  ghost predicate NoClash(m: Mem, f: Condition) {
    forall x :: x in m.records ==> !P.Clashes(f, OrEmpty(m.records[x].metadata))
  }

  /** Every buffered record has the live metadata of its id. */
  ghost predicate InSync(m: Mem) {
    forall e :: e in m.buffer ==> e.id in m.records && e.metadata == m.records[e.id].metadata
  }

  /** Every live id of truth that was not ranked has at least n ranked ones as near. */
  ghost predicate Enough(ranked: map<Id, real>, truth: map<Id, real>, n: nat) {
    forall y :: y in truth && y !in ranked ==> |Near(ranked, truth[y])| >= n
  }

  /** The unfiltered scan, when every read returns the newest vector. */
  ghost predicate ScanAnswer(m: Mem, live: map<Id, Record>, g: Segments, d: Dist, n: nat, out: seq<Scored>) {
    && (forall p :: p in out ==> p.id in live && p.id in m.records && ReadVector(g, m.records, p.id).Some? &&
                                 p.distance == d(ReadVector(g, m.records, p.id).value))
    && ((forall x :: x in m.records ==> x in live && ReadVector(g, m.records, x) == live[x].embedding) ==>
          KNearest(out, NewestDist(live, d), n))
  }

  /**
   The hybrid path with a sound search: n nearest of the hits and the buffered ids, by their newest
   vectors; n nearest of all live ids exactly when each unranked one has n ranked ones as near, and
   always so when the search is exact and no hit is stale.
   */
  ghost predicate HybridAnswer(m: Mem, live: map<Id, Record>, hits: seq<Scored>, d: Dist, n: nat, out: seq<Scored>) {
    var ranked, truth := NewestAmong(live, Ranked(m, hits), d), NewestDist(live, d);
    && OutSound(out, truth)
    && KNearest(out, ranked, n)
    && (KNearest(out, truth, n) <==> Enough(ranked, truth, n))
    && (KNearest(hits, IndexDist(m.index, d), n) && ((forall p :: p in hits ==> !Buffered(m, p.id)) || |m.index| <= n) ==>
          KNearest(out, truth, n))
  }

  /**
   The exact filtered path when no integer collides: n nearest of the ids it scans; with buffered
   metadata in sync only eligible ids, all of them if each still has a vector there.
   */
  ghost predicate FilteredAnswer(m: Mem, live: map<Id, Record>, f: Condition, d: Dist, n: nat, out: seq<Scored>) {
    var ranked, truth := NewestAmong(live, Scanned(m, live, f), d), EligibleDist(live, f, d);
    && KNearest(out, ranked, n)
    && (InSync(m) ==> OutSound(out, truth) && (KNearest(out, truth, n) <==> Enough(ranked, truth, n)))
    && (InSync(m) && m.records == live ==> KNearest(out, truth, n))
  }

  /** The ANN filtered path when no integer collides and the search is sound. */
  ghost predicate AnnAnswer(m: Mem, live: map<Id, Record>, f: Condition, hits: seq<Scored>, d: Dist, n: nat, out: seq<Scored>) {
    var ranked, truth := KeptDist(m, live, f, hits, d), EligibleDist(live, f, d);
    && KNearest(out, ranked, n)
    && (InSync(m) ==> OutSound(out, truth) && (KNearest(out, truth, n) <==> Enough(ranked, truth, n)))
  }

  lemma NearestSound(out: seq<Scored>, part: map<Id, real>, truth: map<Id, real>, k: nat)
    requires PartOf(part, truth) && KNearest(out, part, k)
    ensures OutSound(out, truth)
  {
  }

  lemma EnoughIff(out: seq<Scored>, part: map<Id, real>, truth: map<Id, real>, n: nat)
    requires PartOf(part, truth) && KNearest(out, part, n)
    ensures KNearest(out, truth, n) <==> Enough(part, truth, n)
    ensures OutSound(out, truth)
  {
    hide KNearest, Near, PartOf, OutSound;
    NearestOfPartIff(out, part, truth, n);
    NearestSound(out, part, truth, n);
  }

  lemma HybridRanks(m: Mem, live: map<Id, Record>, hits: seq<Scored>, d: Dist)
    requires Serves(m, live) && SoundHits(hits, m.index, d)
    ensures HybridDist(hits, m.buffer, d) == NewestAmong(live, Ranked(m, hits), d)
    ensures PartOf(NewestAmong(live, Ranked(m, hits), d), NewestDist(live, d))
  {
    hide HybridDist, IdsOf;
    HybridSound(m, live, hits, d);
    HybridKeys(m, live, hits, d);
  }

  lemma HybridAnswers(m: Mem, live: map<Id, Record>, hits: seq<Scored>, d: Dist, n: nat, out: seq<Scored>)
    requires Serves(m, live) && SoundHits(hits, m.index, d)
    requires KNearest(out, HybridDist(hits, m.buffer, d), n)
    ensures HybridAnswer(m, live, hits, d, n, out)
  {
    hide KNearest, Serves, HybridDist, NewestDist, NewestAmong, IndexDist, SoundHits, Buffered, Enough, Ranked, PartOf, OutSound;
    HybridRanks(m, live, hits, d);
    EnoughIff(out, HybridDist(hits, m.buffer, d), NewestDist(live, d), n);
    if KNearest(hits, IndexDist(m.index, d), n) && ((forall p :: p in hits ==> !Buffered(m, p.id)) || |m.index| <= n) {
      HybridExact(m, live, hits, d, out, n);
    }
  }

  lemma EligibleAgrees(m: Mem, live: map<Id, Record>, f: Condition)
    requires Serves(m, live)
    ensures Eligible(m.records, f) == Eligible(live, f)
  {
  }

  /** The buffered matches and their distances. */
  lemma BufferedMatch(m: Mem, live: map<Id, Record>, f: Condition, d: Dist, x: Id)
    requires Serves(m, live)
    ensures var r := OverBuffer(map[], BufferPassing(m.buffer, f), d);
            && (x in r <==> PassesBuffered(m, f, x))
            && (x in r ==> x in live && live[x].embedding.Some? && r[x] == d(live[x].embedding.value))
  {
    BufferPassingFacts(m.buffer, f);
    OverBufferFacts(map[], BufferPassing(m.buffer, f), d);
    hide OverBuffer, BufferPassing, Matches;
    if PassesBuffered(m, f, x) {
      var e :| e in m.buffer && e.id == x && Matches(f, OrEmpty(e.metadata));
      assert e in BufferPassing(m.buffer, f);
    }
  }

  /** A record's own vector and a sound hit of an unbuffered id are the newest. */
  lemma OwnIsNewest(m: Mem, live: map<Id, Record>, x: Id)
    requires Serves(m, live)
    ensures HasVector(m, x) ==> x in live && m.records[x].embedding == live[x].embedding
    ensures x in live ==> live[x].embedding.Some?
    ensures x in live && x in m.index && !Buffered(m, x) ==> Some(m.index[x]) == live[x].embedding
  {
  }

  lemma FilteredRankAt(m: Mem, live: map<Id, Record>, f: Condition, d: Dist, x: Id)
    requires Serves(m, live) && Eligible(m.records, f) == Eligible(live, f)
    ensures var l, r := FilteredDist(m, Eligible(m.records, f), f, d), NewestAmong(live, Scanned(m, live, f), d);
            (x in l <==> x in r) && (x in l ==> l[x] == r[x])
  {
    hide OverBuffer, BufferPassing, PassesBuffered, Matches, Serves, Eligible;
    BufferedMatch(m, live, f, d, x);
    OwnIsNewest(m, live, x);
  }

  lemma FilteredRanks(m: Mem, live: map<Id, Record>, f: Condition, d: Dist)
    requires Serves(m, live)
    ensures FilteredDist(m, Eligible(m.records, f), f, d) == NewestAmong(live, Scanned(m, live, f), d)
  {
    EligibleAgrees(m, live, f);
    hide FilteredDist, NewestAmong, Scanned, Serves, Eligible;
    var l, r := FilteredDist(m, Eligible(m.records, f), f, d), NewestAmong(live, Scanned(m, live, f), d);
    forall x
      ensures x in l <==> x in r
      ensures x in l ==> l[x] == r[x]
    {
      FilteredRankAt(m, live, f, d, x);
    }
  }

  lemma HitFacts(m: Mem, live: map<Id, Record>, hits: seq<Scored>, d: Dist, x: Id)
    requires Serves(m, live) && SoundHits(hits, m.index, d)
    ensures x in HitDist(hits) <==> x in IdsOf(hits)
    ensures x in HitDist(hits) ==> x in live && x in m.index && HitDist(hits)[x] == d(m.index[x])
  {
    HitDistFacts(hits);
    hide HitDist;
    if x in HitDist(hits) {
      assert Scored(x, HitDist(hits)[x]) in hits;
    }
  }

  lemma AnnRanks(m: Mem, live: map<Id, Record>, f: Condition, hits: seq<Scored>, d: Dist)
    requires Serves(m, live) && SoundHits(hits, m.index, d)
    ensures FilteredAnn(m, Eligible(m.records, f), f, hits, d) == KeptDist(m, live, f, hits, d)
  {
    EligibleAgrees(m, live, f);
    hide OverBuffer, BufferPassing, PassesBuffered, Matches, Serves, Eligible, HitDist, SoundHits, IdsOf;
    var l, r := FilteredAnn(m, Eligible(m.records, f), f, hits, d), KeptDist(m, live, f, hits, d);
    forall x
      ensures x in l <==> x in r
      ensures x in l ==> l[x] == r[x]
    {
      BufferedMatch(m, live, f, d, x);
      OwnIsNewest(m, live, x);
      HitFacts(m, live, hits, d, x);
    }
  }

  lemma InSyncPasses(m: Mem, live: map<Id, Record>, f: Condition, x: Id)
    requires Serves(m, live) && InSync(m) && PassesBuffered(m, f, x)
    ensures x in Eligible(live, f)
  {
  }

  lemma ScannedIsPart(m: Mem, live: map<Id, Record>, f: Condition, d: Dist)
    requires Serves(m, live) && InSync(m)
    ensures PartOf(NewestAmong(live, Scanned(m, live, f), d), EligibleDist(live, f, d))
  {
    hide PassesBuffered, Matches, Serves, Buffered, InSync, NewestAmong, EligibleDist, Eligible;
    forall x | x in live
      ensures PassesBuffered(m, f, x) ==> x in Eligible(live, f)
    {
      if PassesBuffered(m, f, x) {
        InSyncPasses(m, live, f, x);
      }
    }
    AmongEligible(live, f, d, Scanned(m, live, f));
  }

  lemma AmongEligible(live: map<Id, Record>, f: Condition, d: Dist, xs: set<Id>)
    requires xs <= Eligible(live, f)
    ensures PartOf(NewestAmong(live, xs, d), EligibleDist(live, f, d))
  {
    hide Matches;
  }

  /** With buffered metadata in sync an eligible buffered id passes, so no stale vector is ranked. */
  lemma KeptIsPart(m: Mem, live: map<Id, Record>, f: Condition, d: Dist, hits: seq<Scored>)
    requires Serves(m, live) && InSync(m)
    ensures PartOf(KeptDist(m, live, f, hits, d), EligibleDist(live, f, d))
  {
    hide Matches, IdsOf, PassesBuffered, Serves, InSync;
    forall x | x in live
      ensures PassesBuffered(m, f, x) ==> x in Eligible(live, f)
      ensures x in Eligible(live, f) && Buffered(m, x) ==> PassesBuffered(m, f, x)
      ensures x in m.index && !Buffered(m, x) ==> Some(m.index[x]) == live[x].embedding
    {
      if PassesBuffered(m, f, x) {
        InSyncPasses(m, live, f, x);
      }
      EligiblePasses(m, live, f, x);
      OwnIsNewest(m, live, x);
    }
  }

  lemma EligiblePasses(m: Mem, live: map<Id, Record>, f: Condition, x: Id)
    requires Serves(m, live) && InSync(m)
    ensures x in Eligible(live, f) && Buffered(m, x) ==> PassesBuffered(m, f, x)
  {
  }

  lemma FilteredAnswers(m: Mem, live: map<Id, Record>, f: Condition, d: Dist, n: nat, out: seq<Scored>)
    requires Serves(m, live) && SelectsEligible(m, f)
    requires KNearest(out, FilteredDist(m, Selected(m, f), f, d), n)
    ensures FilteredAnswer(m, live, f, d, n, out)
  {
    hide KNearest, Serves, FilteredDist, EligibleDist, NewestAmong, Scanned, Matches, Selected, OffsetInv, InSync, Enough, PartOf, OutSound;
    SelectedIsEligible(m, f);
    assert Selected(m, f) == Eligible(m.records, f);
    FilteredRanks(m, live, f, d);
    if InSync(m) {
      ScannedIsPart(m, live, f, d);
      EnoughIff(out, NewestAmong(live, Scanned(m, live, f), d), EligibleDist(live, f, d), n);
      if m.records == live {
        ScansAll(m, live, f, d);
      }
    }
  }

  lemma ScansAll(m: Mem, live: map<Id, Record>, f: Condition, d: Dist)
    requires Serves(m, live) && InSync(m) && m.records == live
    ensures NewestAmong(live, Scanned(m, live, f), d) == EligibleDist(live, f, d)
  {
    ScannedIsPart(m, live, f, d);
    hide PassesBuffered, Matches;
  }

  lemma AnnAnswers(m: Mem, live: map<Id, Record>, f: Condition, hits: seq<Scored>, d: Dist, n: nat, out: seq<Scored>)
    requires Serves(m, live) && SelectsEligible(m, f) && SoundHits(hits, m.index, d)
    requires KNearest(out, FilteredAnn(m, Selected(m, f), f, hits, d), n)
    ensures AnnAnswer(m, live, f, hits, d, n, out)
  {
    hide KNearest, Serves, FilteredAnn, EligibleDist, KeptDist, Matches, Selected, OffsetInv, InSync, Enough, PartOf, OutSound, SoundHits;
    SelectedIsEligible(m, f);
    assert Selected(m, f) == Eligible(m.records, f);
    AnnRanks(m, live, f, hits, d);
    if InSync(m) {
      KeptIsPart(m, live, f, d, hits);
      EnoughIff(out, KeptDist(m, live, f, hits, d), EligibleDist(live, f, d), n);
    }
  }

  /** The offsets the postings select are as many as the eligible records. */
  lemma SelectedCount(m: Mem, live: map<Id, Record>, f: Condition)
    requires Serves(m, live) && SelectsEligible(m, f)
    ensures |P.Evaluate(m.offs.postings, f)| == |Eligible(live, f)|
  {
    hide Serves, Matches, P.Evaluate;
    EligibleAgrees(m, live, f);
    SelectedIsEligible(m, f);
    var os := P.Evaluate(m.offs.postings, f);
    assert Selected(m, f) == Eligible(m.records, f);
    hide P.Indexes, ByOffset, Eligible;
    L.InverseCount(Eligible(live, f), os, m.offs.offsets, m.offs.idByOffset);
  }

  /** The unfiltered scan's answer, from what it ranks. */
  lemma ScanAnswers(m: Mem, live: map<Id, Record>, g: Segments, d: Dist, n: nat, out: seq<Scored>)
    requires Serves(m, live) && KNearest(out, BruteDist(m.records, g, d), n)
    ensures ScanAnswer(m, live, g, d, n, out)
  {
    hide Buffered;
    if forall x :: x in m.records ==> x in live && ReadVector(g, m.records, x) == live[x].embedding {
      assert BruteDist(m.records, g, d) == NewestDist(live, d);
    }
  }
}
