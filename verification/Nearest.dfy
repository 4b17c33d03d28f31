/** The k-nearest specification, and sorting and truncating a list of candidates against it. */
module Nearest {
  import opened Core

  /** One scored id. */
  datatype Scored = Scored(id: Id, distance: real)

  /** points lists the candidates, each once, in some order. */
  ghost predicate Enumerates(points: seq<Scored>, cand: map<Id, real>) {
    && (forall p :: p in points ==> p.id in cand && cand[p.id] == p.distance)
    && (forall x :: x in cand ==> Scored(x, cand[x]) in points)
    && (forall i, j :: 0 <= i < j < |points| ==> points[i].id != points[j].id)
  }

  ghost predicate SortedByDistance(points: seq<Scored>) {
    forall i, j :: 0 <= i < j < |points| ==> points[i].distance <= points[j].distance
  }

  ghost predicate Distinct(points: seq<Scored>) {
    forall i, j :: 0 <= i < j < |points| ==> points[i].id != points[j].id
  }

  /**
   out is a sorted list of k nearest candidates: distinct, with their own distances, as many as
   there are up to k, and no candidate left out is nearer than one included.
   */
  ghost predicate KNearest(out: seq<Scored>, cand: map<Id, real>, k: nat) {
    && SortedByDistance(out)
    && Distinct(out)
    && (forall p :: p in out ==> p.id in cand && cand[p.id] == p.distance)
    && |out| == (if |cand| < k then |cand| else k)
    && (forall x, p :: x in cand && Scored(x, cand[x]) !in out && p in out ==> p.distance <= cand[x])
  }

  /** Insert behind every point that is not farther: the stable step of `sort_by`. */
  function InsertPoint(s: seq<Scored>, p: Scored): (r: seq<Scored>)
    ensures multiset(r) == multiset(s) + multiset{p}
  {
    if s == [] then [p]
    else if s[|s| - 1].distance <= p.distance then s + [p]
    else
      var r := InsertPoint(s[..|s| - 1], p) + [s[|s| - 1]];
      assert s == s[..|s| - 1] + [s[|s| - 1]];
      r
  }

  function SortPoints(s: seq<Scored>): (r: seq<Scored>)
    ensures multiset(r) == multiset(s)
  {
    if s == [] then []
    else
      assert s == s[..|s| - 1] + [s[|s| - 1]];
      InsertPoint(SortPoints(s[..|s| - 1]), s[|s| - 1])
  }

  /** `sort_by` on distance, then `truncate(k)`. */
  function TopK(points: seq<Scored>, k: nat): seq<Scored> {
    var s := SortPoints(points);
    if |s| <= k then s else s[..k]
  }

  lemma {:induction false} InsertSorted(s: seq<Scored>, p: Scored)
    requires SortedByDistance(s)
    ensures SortedByDistance(InsertPoint(s, p))
  {
    if s != [] && s[|s| - 1].distance > p.distance {
      var c := s[..|s| - 1];
      InsertSorted(c, p);
      var r := InsertPoint(c, p);
      forall q | q in r
        ensures q.distance <= s[|s| - 1].distance
      {
        assert q in multiset(r);
        assert q in c || q == p;
      }
    }
  }

  lemma {:induction false} SortSorted(s: seq<Scored>)
    ensures SortedByDistance(SortPoints(s))
  {
    if s != [] {
      SortSorted(s[..|s| - 1]);
      InsertSorted(SortPoints(s[..|s| - 1]), s[|s| - 1]);
    }
  }

  /** The points at one distance, in order. */
  function AtDistance(s: seq<Scored>, r: real): seq<Scored> {
    if s == [] then [] else AtDistance(s[..|s| - 1], r) + if s[|s| - 1].distance == r then [s[|s| - 1]] else []
  }

  lemma AtDistanceLast(s: seq<Scored>, p: Scored, r: real)
    ensures AtDistance(s + [p], r) == AtDistance(s, r) + if p.distance == r then [p] else []
  {
    assert (s + [p])[..|s|] == s;
  }

  lemma InsertBefore(s: seq<Scored>, p: Scored)
    requires s != [] && s[|s| - 1].distance > p.distance
    ensures InsertPoint(s, p) == InsertPoint(s[..|s| - 1], p) + [s[|s| - 1]]
  {
  }

  lemma {:induction false} InsertStable(s: seq<Scored>, p: Scored, r: real)
    ensures AtDistance(InsertPoint(s, p), r) == AtDistance(s, r) + if p.distance == r then [p] else []
  {
    AtDistanceLast(s, p, r);
    hide AtDistance;
    if s == [] {
      assert s + [p] == [p];
    } else if s[|s| - 1].distance > p.distance {
      var c, last := s[..|s| - 1], s[|s| - 1];
      InsertStable(c, p, r);
      InsertBefore(s, p);
      hide InsertPoint;
      AtDistanceLast(InsertPoint(c, p), last, r);
      AtDistanceLast(c, last, r);
      assert c + [last] == s;
    }
  }

  /** The sort is stable: equally distant points keep the order they came in. */
  lemma {:induction false} SortStable(points: seq<Scored>, r: real)
    ensures AtDistance(SortPoints(points), r) == AtDistance(points, r)
  {
    if points != [] {
      SortStable(points[..|points| - 1], r);
      InsertStable(SortPoints(points[..|points| - 1]), points[|points| - 1], r);
    }
  }

  lemma {:induction false} DistinctByCount(s: seq<Scored>, t: seq<Scored>)
    requires multiset(s) == multiset(t) && Distinct(s)
    ensures Distinct(t)
  {
    forall i, j | 0 <= i < j < |t|
      ensures t[i].id != t[j].id
    {
      if t[i].id == t[j].id {
        assert t[i] in multiset(t) && t[j] in multiset(t);
        var a :| 0 <= a < |s| && s[a] == t[i];
        var b :| 0 <= b < |s| && s[b] == t[j];
        assert a == b;
        TwiceCounted(t, i, j);
        OnceCounted(s, a);
        assert false;
      }
    }
  }

  lemma TwiceCounted(t: seq<Scored>, i: nat, j: nat)
    requires i < j < |t| && t[i] == t[j]
    ensures multiset(t)[t[i]] >= 2
  {
    assert t == t[..i] + [t[i]] + t[i + 1..j] + [t[j]] + t[j + 1..];
  }

  lemma OnceCounted(s: seq<Scored>, a: nat)
    requires Distinct(s) && a < |s|
    ensures multiset(s)[s[a]] == 1
  {
    assert s == s[..a] + [s[a]] + s[a + 1..];
    assert s[a] !in s[..a] && s[a] !in s[a + 1..];
  }

  lemma {:induction false} DistinctCount(points: seq<Scored>, keys: set<Id>)
    requires Distinct(points)
    requires forall x :: x in keys <==> exists p :: p in points && p.id == x
    ensures |points| == |keys|
  {
    if points == [] {
      assert keys == {};
    } else {
      var c, p := points[..|points| - 1], points[|points| - 1];
      assert forall q :: q in points <==> q in c || q == p;
      assert p in points && p.id in keys;
      DistinctCount(c, keys - {p.id});
    }
  }

  lemma EnumeratesCount(points: seq<Scored>, cand: map<Id, real>)
    requires Enumerates(points, cand)
    ensures |points| == |cand|
  {
    forall x
      ensures x in cand.Keys <==> exists p :: p in points && p.id == x
    {
      if x in cand {
        assert Scored(x, cand[x]).id == x;
      }
    }
    DistinctCount(points, cand.Keys);
  }

  lemma SortMembers(points: seq<Scored>)
    ensures |SortPoints(points)| == |points|
    ensures forall p :: p in SortPoints(points) <==> p in points
  {
    var s := SortPoints(points);
    assert |s| == |multiset(s)| == |multiset(points)| == |points|;
    forall p
      ensures p in s <==> p in points
    {
      assert p in multiset(s) <==> p in multiset(points);
    }
  }

  /** In a sorted list, everything before position k is at most as far as everything from k on. */
  lemma PrefixNearer(s: seq<Scored>, k: nat, x: Scored, p: Scored)
    requires SortedByDistance(s) && k <= |s|
    requires x in s && x !in s[..k] && p in s[..k]
    ensures p.distance <= x.distance
  {
    var a :| 0 <= a < |s| && s[a] == x;
    var b :| 0 <= b < k && s[..k][b] == p;
  }

  /** The first k of a sorted enumeration are k nearest. */
  lemma PrefixIsNearest(s: seq<Scored>, cand: map<Id, real>, k: nat)
    requires SortedByDistance(s) && Enumerates(s, cand)
    ensures KNearest(if |s| <= k then s else s[..k], cand, k)
  {
    var n := if |s| <= k then |s| else k;
    var out := s[..n];
    EnumeratesCount(s, cand);
    forall x, p | x in cand && Scored(x, cand[x]) !in out && p in out
      ensures p.distance <= cand[x]
    {
      PrefixNearer(s, n, Scored(x, cand[x]), p);
    }
    assert |s| <= k ==> out == s;
  }

  /** Sorting an enumeration leaves one. */
  lemma SortEnumerates(points: seq<Scored>, cand: map<Id, real>)
    requires Enumerates(points, cand)
    ensures Enumerates(SortPoints(points), cand)
  {
    hide SortPoints;
    SortMembers(points);
    DistinctByCount(points, SortPoints(points));
  }

  /** Sorting and truncating any enumeration of the candidates gives k nearest ones. */
  lemma TopKIsNearest(points: seq<Scored>, cand: map<Id, real>, k: nat)
    requires Enumerates(points, cand)
    ensures KNearest(TopK(points, k), cand, k)
  {
    hide SortPoints, Enumerates, SortedByDistance, KNearest;
    SortSorted(points);
    SortEnumerates(points, cand);
    PrefixIsNearest(SortPoints(points), cand, k);
  }

  // ---------------------------------------------------------------------------------------------
  // Ranking only part of the candidates
  // ---------------------------------------------------------------------------------------------

  function IdsOf(out: seq<Scored>): set<Id> {
    set p | p in out :: p.id
  }

  lemma IdsCount(out: seq<Scored>)
    requires Distinct(out)
    ensures |IdsOf(out)| == |out|
  {
    DistinctCount(out, IdsOf(out));
  }

  lemma {:induction false} Smaller(a: set<Id>, b: set<Id>)
    requires a <= b
    ensures |a| <= |b|
  {
    if a != {} {
      var x :| x in a;
      Smaller(a - {x}, b - {x});
    }
  }

  lemma SameSize(a: set<Id>, b: set<Id>)
    requires a <= b && |a| == |b|
    ensures a == b
  {
    if x :| x in b && x !in a {
      assert |b| == |b - {x}| + 1;
      Smaller(a, b - {x});
    }
  }

  /** The candidates at most as far as r. */
  function Near(cand: map<Id, real>, r: real): set<Id> {
    set x | x in cand && cand[x] <= r
  }

  ghost predicate PartOf(part: map<Id, real>, whole: map<Id, real>) {
    part.Keys <= whole.Keys && forall x :: x in part ==> part[x] == whole[x]
  }

  lemma MapSizes(part: map<Id, real>, whole: map<Id, real>)
    requires PartOf(part, whole)
    ensures |part| == |part.Keys| <= |whole| == |whole.Keys|
  {
    Smaller(part.Keys, whole.Keys);
  }

  /** If k candidates are as near as r, the k nearest all are. */
  lemma NearestWithin(out: seq<Scored>, part: map<Id, real>, k: nat, r: real, p: Scored)
    requires KNearest(out, part, k) && |Near(part, r)| >= k && p in out
    ensures p.distance <= r
  {
    if p.distance > r {
      forall c | c in Near(part, r)
        ensures c in IdsOf(out) - {p.id}
      {
        assert Scored(c, part[c]) in out;
      }
      IdsCount(out);
      assert p.id in IdsOf(out);
      Smaller(Near(part, r), IdsOf(out) - {p.id});
      assert false;
    }
  }

  /** The k nearest are all as near as anything left out, so there are k candidates that near. */
  lemma LeftOutBehind(out: seq<Scored>, part: map<Id, real>, whole: map<Id, real>, k: nat, y: Id)
    requires PartOf(part, whole) && KNearest(out, part, k) && KNearest(out, whole, k)
    requires y in whole && y !in part
    ensures |Near(part, whole[y])| >= k
  {
    IdsCount(out);
    MapSizes(part, whole);
    assert IdsOf(out) <= part.Keys;
    if |out| == |whole| {
      SameSize(IdsOf(out), whole.Keys);
      assert false;
    }
    assert IdsOf(out) <= Near(part, whole[y]);
    Smaller(IdsOf(out), Near(part, whole[y]));
  }

  lemma NearestOfEnough(out: seq<Scored>, part: map<Id, real>, whole: map<Id, real>, k: nat)
    requires PartOf(part, whole) && KNearest(out, part, k)
    requires forall y :: y in whole && y !in part ==> |Near(part, whole[y])| >= k
    ensures KNearest(out, whole, k)
  {
    MapSizes(part, whole);
    if y :| y in whole && y !in part {
      Smaller(Near(part, whole[y]), part.Keys);
    } else {
      assert part == whole;
    }
    forall x, p | x in whole && Scored(x, whole[x]) !in out && p in out
      ensures p.distance <= whole[x]
    {
      if x !in part {
        NearestWithin(out, part, k, whole[x], p);
      }
    }
  }

  /**
   The k nearest of some of the candidates are k nearest of all of them exactly when, for each
   candidate that was not ranked, at least k ranked ones are as near.
   */
  lemma NearestOfPartIff(out: seq<Scored>, part: map<Id, real>, whole: map<Id, real>, k: nat)
    requires PartOf(part, whole) && KNearest(out, part, k)
    ensures KNearest(out, whole, k) <==> forall y :: y in whole && y !in part ==> |Near(part, whole[y])| >= k
  {
    hide KNearest, Near;
    if KNearest(out, whole, k) {
      forall y | y in whole && y !in part
        ensures |Near(part, whole[y])| >= k
      {
        LeftOutBehind(out, part, whole, k, y);
      }
    }
    if forall y :: y in whole && y !in part ==> |Near(part, whole[y])| >= k {
      NearestOfEnough(out, part, whole, k);
    }
  }

  /** A tier with fewer hits than asked for has been returned whole. */
  lemma FullTier(hits: seq<Scored>, tier: map<Id, real>)
    requires Distinct(hits) && |hits| == |tier|
    requires forall p :: p in hits ==> p.id in tier
    ensures IdsOf(hits) == tier.Keys
  {
    IdsCount(hits);
    assert |tier| == |tier.Keys|;
    SameSize(IdsOf(hits), tier.Keys);
  }

  /**
   Taking k nearest of one tier first and then k nearest of the union loses nothing, provided the
   two tiers share no id.
   */
  lemma MergeIsNearest(hits: seq<Scored>, tier: map<Id, real>, other: map<Id, real>, merged: map<Id, real>, out: seq<Scored>, k: nat)
    requires KNearest(hits, tier, k) && tier.Keys !! other.Keys
    requires PartOf(merged, tier + other) && IdsOf(hits) + other.Keys == merged.Keys
    requires KNearest(out, merged, k)
    ensures KNearest(out, tier + other, k)
  {
    forall y | y in tier + other && y !in merged
      ensures |Near(merged, (tier + other)[y])| >= k
    {
      HitsAreNear(hits, tier, merged, k, y);
    }
    NearestOfEnough(out, merged, tier + other, k);
  }

  /** A candidate that an exact search left out is behind k hits. */
  lemma HitsAreNear(hits: seq<Scored>, tier: map<Id, real>, merged: map<Id, real>, k: nat, y: Id)
    requires KNearest(hits, tier, k) && y in tier && y !in IdsOf(hits)
    requires forall p :: p in hits ==> p.id in merged && merged[p.id] == p.distance
    ensures |Near(merged, tier[y])| >= k
  {
    if |hits| == |tier| {
      FullTier(hits, tier);
      assert false;
    }
    IdsCount(hits);
    forall x | x in IdsOf(hits)
      ensures x in Near(merged, tier[y])
    {
      var p :| p in hits && p.id == x;
      assert Scored(y, tier[y]) !in hits;
    }
    Smaller(IdsOf(hits), Near(merged, tier[y]));
  }
}
