/**
 The label bookkeeping around the vector graph.  The graph itself is foreign code that may fail to
 add, may leave a vector behind when it fails, and may silently fail to remove.
 */
module Labels {
  import opened Core
  import opened Nearest

  /** What the graph did with one add. */
  datatype AddOutcome =
    | Added
    | NoCapacity
    // The add failed; the vector may have been left behind.
    | GraphFailed(leftBehind: bool)

  datatype IndexError = DimensionMismatch | DuplicateId | Usearch | Corrupt

  /** The two label maps, the next label and the vectors the graph holds by label. */
  datatype Labelled = Labelled(labels: map<Id, nat>, ids: map<nat, Id>, nextLabel: nat, graph: map<nat, Embedding>)

  const NO_LABELS := Labelled(map[], map[], 0, map[])

  // ---------------------------------------------------------------------------------------------
  // Transitions
  // ---------------------------------------------------------------------------------------------

  predicate AddRefused(x: Labelled, dimension: nat, id: Id, v: Embedding) {
    |v| != dimension || id in x.labels
  }

  /** The graph holds no vector under the next label; it refuses to add one under a label it holds. */
  predicate LabelFree(x: Labelled) {
    x.nextLabel !in x.graph
  }

  predicate AddSucceeds(x: Labelled, dimension: nat, id: Id, v: Embedding, outcome: AddOutcome) {
    !AddRefused(x, dimension, id, v) && outcome.Added? && LabelFree(x)
  }

  /** The graph after an add that failed. */
  function LeftIn(x: Labelled, v: Embedding, outcome: AddOutcome): map<nat, Embedding> {
    if outcome == GraphFailed(true) && LabelFree(x) then x.graph[x.nextLabel := v] else x.graph
  }

  /** A failed add is rolled back in the maps, but its label is spent. */
  function AddTo(x: Labelled, dimension: nat, id: Id, v: Embedding, outcome: AddOutcome): Labelled {
    var l := x.nextLabel;
    if AddRefused(x, dimension, id, v) || outcome.NoCapacity? then x
    else if outcome.Added? && LabelFree(x) then Labelled(x.labels[id := l], x.ids[l := id], l + 1, x.graph[l := v])
    else Labelled(x.labels, x.ids - {l}, l + 1, LeftIn(x, v, outcome))
  }

  /** `removed` says whether the graph really dropped the vector; its answer is ignored. */
  function RemoveFrom(x: Labelled, id: Id, removed: bool): Labelled {
    if id !in x.labels then x
    else
      var l := x.labels[id];
      Labelled(x.labels - {id}, x.ids - {l}, x.nextLabel, if removed then x.graph - {l} else x.graph)
  }

  /** A graph match: a label and its distance. */
  datatype GraphMatch = GraphMatch(key: nat, distance: real)

  /** Matches whose label is no longer mapped are filtered out. */
  function Hits(x: Labelled, ms: seq<GraphMatch>): seq<Scored> {
    if ms == [] then []
    else
      Hits(x, ms[..|ms| - 1]) +
      (if ms[|ms| - 1].key in x.ids then [Scored(x.ids[ms[|ms| - 1].key], ms[|ms| - 1].distance)] else [])
  }

  /** `index.meta`; the graph itself is saved in a file of its own. */
  datatype IndexMeta = IndexMeta(labels: map<Id, nat>, ids: map<nat, Id>, nextLabel: nat)

  function MetaOf(x: Labelled): IndexMeta {
    IndexMeta(x.labels, x.ids, x.nextLabel)
  }

  /** `load` accepts the two files: both exist, with as many vectors as labels. */
  predicate PairLoads(graph: Option<map<nat, Embedding>>, meta: Option<IndexMeta>) {
    graph.Some? && meta.Some? && |graph.value| == |meta.value.labels|
  }

  /** What is loaded from the two files; a refused pair leaves an empty index. */
  function LoadPair(graph: Option<map<nat, Embedding>>, meta: Option<IndexMeta>): Labelled {
    if PairLoads(graph, meta) then Labelled(meta.value.labels, meta.value.ids, meta.value.nextLabel, graph.value)
    else NO_LABELS
  }

  /** The index would load if it were saved now. */
  predicate Loads(x: Labelled) {
    PairLoads(Some(x.graph), Some(MetaOf(x)))
  }

  /** The add of `flush_buffer` on one record succeeds: nothing is held under the label it will take. */
  predicate Replaces(x: Labelled, id: Id) {
    LabelFree(RemoveFrom(x, id, true))
  }

  /** `flush_buffer` on one record: a committed vector is deleted, then the new one is added. */
  function Replace(x: Labelled, id: Id, v: Embedding): Labelled {
    AddTo(RemoveFrom(x, id, true), |v|, id, v, Added)
  }

  // ---------------------------------------------------------------------------------------------
  // The invariant
  // ---------------------------------------------------------------------------------------------

  /** The maps are mutually inverse, every mapped label is in the graph, and every label was issued. */
  ghost predicate LabelsOk(x: Labelled) {
    && (forall id :: id in x.labels ==> x.labels[id] in x.ids && x.ids[x.labels[id]] == id && x.labels[id] in x.graph)
    && (forall l :: l in x.ids ==> x.ids[l] in x.labels && x.labels[x.ids[l]] == l)
    && (forall l :: l in x.graph ==> l < x.nextLabel)
  }

  /** What the index stands for: each present id with its vector. */
  function Vectors(x: Labelled): map<Id, Embedding> {
    map id | id in x.labels && x.labels[id] in x.graph :: x.graph[x.labels[id]]
  }

  /** No vector was left behind: every label in the graph is mapped. */
  ghost predicate Clean(x: Labelled) {
    LabelsOk(x) && forall l :: l in x.graph ==> l in x.ids
  }

  lemma AddOk(x: Labelled, dimension: nat, id: Id, v: Embedding, outcome: AddOutcome)
    requires LabelsOk(x)
    ensures LabelsOk(AddTo(x, dimension, id, v, outcome))
    ensures Vectors(AddTo(x, dimension, id, v, outcome)) ==
            if AddSucceeds(x, dimension, id, v, outcome) then Vectors(x)[id := v] else Vectors(x)
    ensures AddSucceeds(x, dimension, id, v, outcome) <==> outcome.Added? && !AddRefused(x, dimension, id, v)
  {
    FreshLabel(x);
    assert x.ids - {x.nextLabel} == x.ids;
  }

  /** The next label is unused. */
  lemma FreshLabel(x: Labelled)
    requires LabelsOk(x)
    ensures x.nextLabel !in x.ids && x.nextLabel !in x.graph
  {
    assert x.nextLabel in x.ids ==> x.nextLabel in x.graph;
  }

  lemma PutBack<K, V>(m: map<K, V>, k: K, v: V)
    requires k !in m
    ensures m[k := v] - {k} == m
  {
  }

  lemma RemoveOk(x: Labelled, id: Id, removed: bool)
    requires LabelsOk(x)
    ensures LabelsOk(RemoveFrom(x, id, removed))
    ensures Vectors(RemoveFrom(x, id, removed)) == Vectors(x) - {id}
  {
  }

  /** A clean index stays clean when an id's vector is removed. */
  lemma RemoveClean(x: Labelled, id: Id)
    requires Clean(x)
    ensures Clean(RemoveFrom(x, id, true)) && Vectors(RemoveFrom(x, id, true)) == Vectors(x) - {id}
    ensures RemoveFrom(x, id, true).labels == x.labels - {id} && RemoveFrom(x, id, true).nextLabel == x.nextLabel
  {
    RemoveOk(x, id, true);
  }

  /** Weaker than clean: inverse maps and labels that were issued, over any graph at all. */
  ghost predicate Mapped(x: Labelled) {
    && (forall id :: id in x.labels ==> x.labels[id] in x.ids && x.ids[x.labels[id]] == id && x.labels[id] < x.nextLabel)
    && (forall l :: l in x.ids ==> x.ids[l] in x.labels && x.labels[x.ids[l]] == l)
  }

  /** Replacing one vector over any graph: what it needs, and what it leaves. */
  lemma ReplaceMapped(x: Labelled, id: Id, v: Embedding)
    requires Mapped(x)
    ensures Replaces(x, id) <==> LabelFree(x)
    ensures Replaces(x, id) ==>
              var y := Replace(x, id, v);
              && Mapped(y) && y.nextLabel == x.nextLabel + 1 && Vectors(y) == Vectors(x)[id := v]
              && (forall l :: l >= y.nextLabel ==> (l in y.graph <==> l in x.graph))
  {
    RemoveMapped(x, id);
    var y := RemoveFrom(x, id, true);
    if LabelFree(y) {
      AddMapped(y, id, v);
      assert Vectors(x)[id := v] == (Vectors(x) - {id})[id := v];
    }
  }

  /** A replacement whose add is refused leaves the id without a vector. */
  lemma ReplaceRefused(x: Labelled, id: Id, v: Embedding)
    requires Mapped(x) && !Replaces(x, id)
    ensures Vectors(Replace(x, id, v)) == Vectors(x) - {id}
  {
    RemoveMapped(x, id);
  }

  lemma RemoveMapped(x: Labelled, id: Id)
    requires Mapped(x)
    ensures var y := RemoveFrom(x, id, true);
            && Mapped(y) && y.nextLabel == x.nextLabel && id !in y.labels && Vectors(y) == Vectors(x) - {id}
            && (forall l :: l >= y.nextLabel ==> (l in y.graph <==> l in x.graph))
  {
  }

  lemma AddMapped(x: Labelled, id: Id, v: Embedding)
    requires Mapped(x) && id !in x.labels && LabelFree(x)
    ensures var y := AddTo(x, |v|, id, v, Added);
            && Mapped(y) && y.nextLabel == x.nextLabel + 1 && Vectors(y) == Vectors(x)[id := v]
            && (forall l :: l >= y.nextLabel ==> (l in y.graph <==> l in x.graph))
  {
  }

  lemma CleanMapped(x: Labelled)
    requires Clean(x)
    ensures Mapped(x)
  {
  }

  lemma AddClean(x: Labelled, id: Id, v: Embedding)
    requires Clean(x) && id !in x.labels
    ensures Clean(AddTo(x, |v|, id, v, Added)) && Vectors(AddTo(x, |v|, id, v, Added)) == Vectors(x)[id := v]
    ensures AddTo(x, |v|, id, v, Added).labels == x.labels[id := x.nextLabel]
    ensures LabelFree(x)
  {
    AddOk(x, |v|, id, v, Added);
  }

  /** It stays clean when an id's vector is replaced, and only that id changes its label. */
  lemma ReplaceClean(x: Labelled, id: Id, v: Embedding)
    requires Clean(x)
    ensures Clean(Replace(x, id, v)) && Vectors(Replace(x, id, v)) == Vectors(x)[id := v]
    ensures Replace(x, id, v).labels == x.labels[id := x.nextLabel]
    ensures Replaces(x, id)
  {
    RemoveClean(x, id);
    var y := RemoveFrom(x, id, true);
    AddClean(y, id, v);
    hide Clean, RemoveFrom, AddTo, LabelFree;
    assert Vectors(x)[id := v] == (Vectors(x) - {id})[id := v];
    assert x.labels[id := x.nextLabel] == (x.labels - {id})[id := x.nextLabel];
  }

  /** The graph search promises only that its matches are labels it holds, at their true distance. */
  ghost predicate SoundMatches(x: Labelled, ms: seq<GraphMatch>, d: Embedding -> real) {
    forall m :: m in ms ==> m.key in x.graph && m.distance == d(x.graph[m.key])
  }

  /** Every hit is a present id paired with its vector, whatever was left behind in the graph. */
  lemma {:induction false} HitsSound(x: Labelled, ms: seq<GraphMatch>, d: Embedding -> real)
    requires LabelsOk(x) && SoundMatches(x, ms, d)
    ensures forall p :: p in Hits(x, ms) ==> p.id in Vectors(x) && p.distance == d(Vectors(x)[p.id])
  {
    if ms != [] {
      HitsSound(x, ms[..|ms| - 1], d);
    }
  }

  /** The matches among the first i whose label is mapped. */
  function MappedBefore(x: Labelled, ms: seq<GraphMatch>, i: nat): set<nat>
    requires i <= |ms|
  {
    set j: nat | j < i && ms[j].key in x.ids
  }

  lemma MappedNext(x: Labelled, ms: seq<GraphMatch>, i: nat)
    requires i < |ms|
    ensures |MappedBefore(x, ms, i + 1)| == |MappedBefore(x, ms, i)| + if ms[i].key in x.ids then 1 else 0
  {
    assert MappedBefore(x, ms, i + 1) == if ms[i].key in x.ids then MappedBefore(x, ms, i) + {i} else MappedBefore(x, ms, i);
  }

  lemma {:induction false} HitsCount(x: Labelled, ms: seq<GraphMatch>, i: nat)
    requires i <= |ms|
    ensures |Hits(x, ms[..i])| == |MappedBefore(x, ms, i)|
  {
    if i > 0 {
      HitsCount(x, ms, i - 1);
      MappedNext(x, ms, i - 1);
      assert ms[..i][..i - 1] == ms[..i - 1];
      hide MappedBefore;
    }
  }

  lemma {:induction false} HitsPrefix(x: Labelled, ms: seq<GraphMatch>, i: nat)
    requires i <= |ms|
    ensures Hits(x, ms[..i]) <= Hits(x, ms)
    decreases |ms| - i
  {
    if i == |ms| {
      assert ms[..i] == ms;
    } else {
      HitsPrefix(x, ms, i + 1);
      assert ms[..i + 1][..i] == ms[..i];
    }
  }

  lemma HitAt(x: Labelled, ms: seq<GraphMatch>, i: nat)
    requires i < |ms| && ms[i].key in x.ids
    ensures |MappedBefore(x, ms, i)| < |Hits(x, ms)|
    ensures Hits(x, ms)[|MappedBefore(x, ms, i)|] == Scored(x.ids[ms[i].key], ms[i].distance)
  {
    HitsCount(x, ms, i);
    hide MappedBefore;
    HitsPrefix(x, ms, i + 1);
    assert ms[..i + 1][..i] == ms[..i];
  }

  /**
   Exactly the matches whose label is mapped are returned, in the order of the matches: each one
   stands behind as many hits as there are mapped matches before it, and there are no others.
   */
  lemma HitsComplete(x: Labelled, ms: seq<GraphMatch>)
    ensures |Hits(x, ms)| == |MappedBefore(x, ms, |ms|)|
    ensures forall i :: 0 <= i < |ms| && ms[i].key in x.ids ==>
              && |MappedBefore(x, ms, i)| < |Hits(x, ms)|
              && Hits(x, ms)[|MappedBefore(x, ms, i)|] == Scored(x.ids[ms[i].key], ms[i].distance)
  {
    hide MappedBefore, Hits;
    HitsCount(x, ms, |ms|);
    assert ms[..|ms|] == ms;
    forall i: nat | i < |ms| && ms[i].key in x.ids
      ensures |MappedBefore(x, ms, i)| < |Hits(x, ms)|
      ensures Hits(x, ms)[|MappedBefore(x, ms, i)|] == Scored(x.ids[ms[i].key], ms[i].distance)
    {
      HitAt(x, ms, i);
    }
  }

  /** A saved index loads exactly when no vector was left behind. */
  lemma LoadsIff(x: Labelled)
    requires LabelsOk(x)
    ensures Loads(x) <==> forall l :: l in x.graph ==> l in x.ids
  {
    assert x.ids.Keys <= x.graph.Keys;
    InverseCount(x.labels.Keys, x.ids.Keys, x.labels, x.ids);
    assert |x.labels| == |x.labels.Keys|;
    if |x.graph| == |x.ids| {
      assert |x.graph| == |x.graph.Keys| && |x.ids| == |x.ids.Keys|;
      SameSizeNat(x.ids.Keys, x.graph.Keys);
    }
    if forall l :: l in x.graph ==> l in x.ids {
      assert x.ids.Keys == x.graph.Keys;
      assert |x.graph| == |x.graph.Keys| && |x.ids| == |x.ids.Keys|;
    }
  }

  lemma NothingLoaded(graph: Option<map<nat, Embedding>>, meta: Option<IndexMeta>)
    ensures !PairLoads(graph, meta) ==> LoadPair(graph, meta) == NO_LABELS && Vectors(NO_LABELS) == map[]
  {
  }

  /** The files of one save of a clean index load to that index. */
  lemma CleanLoads(x: Labelled)
    requires Clean(x)
    ensures LoadPair(Some(x.graph), Some(MetaOf(x))) == x
  {
    LoadsIff(x);
  }

  /** Two finite sets matched one to one by a pair of inverse maps have the same size. */
  lemma {:induction false} InverseCount(ks: set<Id>, ls: set<nat>, f: map<Id, nat>, g: map<nat, Id>)
    requires forall id :: id in ks ==> id in f && f[id] in ls
    requires forall l :: l in ls ==> l in g && g[l] in ks
    requires forall id :: id in ks ==> g[f[id]] == id
    requires forall l :: l in ls ==> f[g[l]] == l
    ensures |ks| == |ls|
    decreases ks
  {
    if ks == {} {
      assert ls == {};
    } else {
      var id :| id in ks;
      InverseCount(ks - {id}, ls - {f[id]}, f, g);
    }
  }

  lemma {:induction false} SameSizeNat(a: set<nat>, b: set<nat>)
    requires a <= b && |a| == |b|
    ensures a == b
    decreases |a|
  {
    if a != {} {
      var l :| l in a;
      SameSizeNat(a - {l}, b - {l});
      assert a == a - {l} + {l} && b == b - {l} + {l};
    }
  }

  // ---------------------------------------------------------------------------------------------
  // Whole runs
  // ---------------------------------------------------------------------------------------------

  datatype IndexStep =
    | AddStep(id: Id, v: Embedding, outcome: AddOutcome)
    | DeleteStep(id: Id, removed: bool)
    // Saved and loaded back; a refused load leaves an empty index.
    | SaveLoad

  function StepIx(x: Labelled, dimension: nat, s: IndexStep): Labelled {
    match s
    case AddStep(id, v, outcome) => AddTo(x, dimension, id, v, outcome)
    case DeleteStep(id, removed) => RemoveFrom(x, id, removed)
    case SaveLoad => LoadPair(Some(x.graph), Some(MetaOf(x)))
  }

  function RunIx(dimension: nat, steps: seq<IndexStep>): Labelled {
    if steps == [] then NO_LABELS else StepIx(RunIx(dimension, steps[..|steps| - 1]), dimension, steps[|steps| - 1])
  }

  /** The vector of each id's latest successful add that no delete or refused load followed. */
  function Latest(dimension: nat, steps: seq<IndexStep>): map<Id, Embedding> {
    if steps == [] then map[]
    else
      var init := steps[..|steps| - 1];
      var before := Latest(dimension, init);
      match steps[|steps| - 1]
      case AddStep(id, v, outcome) =>
        if outcome.Added? && |v| == dimension && id !in before then before[id := v] else before
      case DeleteStep(id, _) => before - {id}
      case SaveLoad => if Loads(RunIx(dimension, init)) then before else map[]
  }

  /** Over any run the maps stay inverse and the index stands for the latest successful adds. */
  lemma {:induction false} RunIxOk(dimension: nat, steps: seq<IndexStep>)
    ensures LabelsOk(RunIx(dimension, steps)) && Vectors(RunIx(dimension, steps)) == Latest(dimension, steps)
  {
    if steps != [] {
      var x := RunIx(dimension, steps[..|steps| - 1]);
      RunIxOk(dimension, steps[..|steps| - 1]);
      assert Vectors(x).Keys == x.labels.Keys;
      match steps[|steps| - 1]
      case AddStep(id, v, outcome) => AddOk(x, dimension, id, v, outcome);
      case DeleteStep(id, removed) => RemoveOk(x, id, removed);
      case SaveLoad =>
    }
  }

  /** No label is issued twice while the index is not thrown away by a refused load. */
  lemma StepNeverReissues(x: Labelled, dimension: nat, s: IndexStep)
    requires LabelsOk(x) && (s.SaveLoad? ==> Loads(x))
    ensures Extends(x, StepIx(x, dimension, s))
  {
  }

  /** No load was refused after the first n steps. */
  predicate KeepsIndex(dimension: nat, steps: seq<IndexStep>, n: nat) {
    forall i :: n <= i < |steps| && steps[i].SaveLoad? ==> Loads(RunIx(dimension, steps[..i]))
  }

  /** y maps no label that x had issued to another id. */
  ghost predicate Extends(x: Labelled, y: Labelled) {
    && x.nextLabel <= y.nextLabel
    && forall l :: l in y.ids && l < x.nextLabel ==> l in x.ids && x.ids[l] == y.ids[l]
  }

  lemma RunStep(dimension: nat, steps: seq<IndexStep>)
    requires steps != [] && KeepsIndex(dimension, steps, |steps| - 1)
    ensures Extends(RunIx(dimension, steps[..|steps| - 1]), RunIx(dimension, steps))
  {
    hide LabelsOk, StepIx, Loads;
    RunIxOk(dimension, steps[..|steps| - 1]);
    StepNeverReissues(RunIx(dimension, steps[..|steps| - 1]), dimension, steps[|steps| - 1]);
  }

  lemma KeepsIndexInit(dimension: nat, steps: seq<IndexStep>, n: nat)
    requires n < |steps| && KeepsIndex(dimension, steps, n)
    ensures KeepsIndex(dimension, steps, |steps| - 1)
    ensures KeepsIndex(dimension, steps[..|steps| - 1], n)
  {
    hide Loads, RunIx;
    var init := steps[..|steps| - 1];
    forall i | n <= i < |init|
      ensures init[..i] == steps[..i] && init[i] == steps[i]
    {
    }
  }

  /** A label once issued is never mapped to another id, however the run goes on. */
  lemma {:induction false} NeverReissued(dimension: nat, steps: seq<IndexStep>, n: nat)
    requires n <= |steps| && KeepsIndex(dimension, steps, n)
    ensures var before, after := RunIx(dimension, steps[..n]), RunIx(dimension, steps);
            && before.nextLabel <= after.nextLabel
            && forall l :: l in after.ids && l < before.nextLabel ==> l in before.ids && before.ids[l] == after.ids[l]
    decreases steps
  {
    hide RunIx, KeepsIndex;
    if n == |steps| {
      assert steps[..n] == steps;
    } else {
      var init := steps[..|steps| - 1];
      assert init[..n] == steps[..n];
      KeepsIndexInit(dimension, steps, n);
      NeverReissued(dimension, init, n);
      RunStep(dimension, steps);
    }
  }

  /** One delete that the graph did not carry out, and the saved index no longer loads. */
  lemma LeftBehindRefusesLoad(id: Id, v: Embedding)
    ensures !Loads(RunIx(|v|, [AddStep(id, v, Added), DeleteStep(id, false)]))
  {
    var steps := [AddStep(id, v, Added), DeleteStep(id, false)];
    assert steps[..1] == [steps[0]] && steps[..1][..0] == [];
    assert RunIx(|v|, []) == NO_LABELS;
    assert RunIx(|v|, steps[..1]) == Labelled(map[id := 0], map[0 := id], 1, map[0 := v]);
    var x := RunIx(|v|, steps);
    assert x.labels == map[] && x.graph == map[0 := v];
    assert |x.graph| == 1;
  }

  /** After any run, every hit is a present id at the distance of its latest successful add. */
  lemma SearchAfterRun(dimension: nat, steps: seq<IndexStep>, ms: seq<GraphMatch>, d: Embedding -> real)
    requires SoundMatches(RunIx(dimension, steps), ms, d)
    ensures forall p :: p in Hits(RunIx(dimension, steps), ms) ==>
                          p.id in Latest(dimension, steps) && p.distance == d(Latest(dimension, steps)[p.id])
  {
    RunIxOk(dimension, steps);
    HitsSound(RunIx(dimension, steps), ms, d);
  }

  // ---------------------------------------------------------------------------------------------
  // The index object
  // ---------------------------------------------------------------------------------------------

  class UsearchIndex {
    const dimension: nat
    var labels: map<Id, nat>
    var ids: map<nat, Id>
    var nextLabel: nat
    /** The vectors held by the foreign graph. */
    var graph: map<nat, Embedding>

    constructor (dim: nat)
      ensures dimension == dim && State() == NO_LABELS
    {
      dimension := dim;
      labels, ids, nextLabel, graph := map[], map[], 0, map[];
    }

    function State(): Labelled
      reads this
    {
      Labelled(labels, ids, nextLabel, graph)
    }

    /** The foreign graph's own add. */
    method GraphAdd(key: nat, v: Embedding, outcome: AddOutcome) returns (added: bool)
      requires !outcome.NoCapacity?
      modifies this`graph
      ensures added == (outcome.Added? && key !in old(graph))
      ensures graph == if added || (outcome == GraphFailed(true) && key !in old(graph)) then old(graph)[key := v] else old(graph)
    {
      added := outcome.Added? && key !in graph;
      if added || (outcome == GraphFailed(true) && key !in graph) {
        graph := graph[key := v];
      }
    }

    /** The maps change before the graph does and are rolled back if it fails. */
    method Add(id: Id, v: Embedding, outcome: AddOutcome) returns (r: Result<(), IndexError>)
      modifies this
      ensures State() == AddTo(old(State()), dimension, id, v, outcome)
      ensures r.Ok? <==> AddSucceeds(old(State()), dimension, id, v, outcome)
      ensures LabelsOk(old(State())) ==>
                && LabelsOk(State())
                && Vectors(State()) == if r.Ok? then Vectors(old(State()))[id := v] else Vectors(old(State()))
      ensures r == Err(DimensionMismatch) <==> |v| != dimension
      ensures r == Err(DuplicateId) <==> |v| == dimension && id in old(labels)
      ensures r.Err? ==> labels == old(labels)
      ensures nextLabel == old(nextLabel) + if |v| == dimension && id !in old(labels) && !outcome.NoCapacity? then 1 else 0
      ensures graph == if nextLabel > old(nextLabel) && outcome != GraphFailed(false) && old(nextLabel) !in old(graph)
                       then old(graph)[old(nextLabel) := v] else old(graph)
    {
      hide LabelsOk, Vectors;
      if LabelsOk(State()) {
        AddOk(State(), dimension, id, v, outcome);
      }
      if |v| != dimension {
        return Err(DimensionMismatch);
      }
      if id in labels {
        return Err(DuplicateId);
      }
      if outcome.NoCapacity? {
        return Err(Usearch);
      }
      var key := nextLabel;
      nextLabel := nextLabel + 1;
      labels := labels[id := key];
      ids := ids[key := id];
      var added := GraphAdd(key, v, outcome);
      if !added {
        PutBack(old(labels), id, key);
        assert ids - {key} == old(ids) - {key};
        labels := labels - {id};
        ids := ids - {key};
        return Err(Usearch);
      }
      r := Ok(());
    }

    /** The graph's own answer to the removal is ignored. */
    method Delete(id: Id, removed: bool)
      modifies this
      ensures State() == RemoveFrom(old(State()), id, removed)
      ensures LabelsOk(old(State())) ==> LabelsOk(State()) && Vectors(State()) == Vectors(old(State())) - {id}
      ensures nextLabel == old(nextLabel)
      ensures graph == if removed && id in old(labels) then old(graph) - {old(labels)[id]} else old(graph)
    {
      if LabelsOk(State()) {
        RemoveOk(State(), id, removed);
      }
      if id !in labels {
        return;
      }
      var key := labels[id];
      if removed {
        graph := graph - {key};
      }
      labels := labels - {id};
      ids := ids - {key};
    }

    /** Graph matches turned into hits. */
    method Search(dim: nat, ms: seq<GraphMatch>, ghost d: Embedding -> real) returns (r: Result<seq<Scored>, IndexError>)
      requires LabelsOk(State()) && SoundMatches(State(), ms, d)
      ensures r.Err? <==> dim != dimension
      ensures r.Ok? ==> r.value == Hits(State(), ms)
      ensures r.Ok? ==> forall p :: p in r.value ==> p.id in Vectors(State()) && p.distance == d(Vectors(State())[p.id])
    {
      if dim != dimension {
        return Err(DimensionMismatch);
      }
      var hits: seq<Scored> := [];
      for i := 0 to |ms|
        invariant hits == Hits(State(), ms[..i])
      {
        assert ms[..i + 1][..i] == ms[..i];
        if ms[i].key in ids {
          hits := hits + [Scored(ids[ms[i].key], ms[i].distance)];
        }
      }
      assert ms[..|ms|] == ms;
      HitsSound(State(), ms, d);
      r := Ok(hits);
    }
  }
}
