/**
 The two stores of the replicated log: a vector of entries in memory, and a table keyed by the
 decimal text of the index, whose keys come back in text order or any other.
 */
module RaftStores {
  import opened Core
  import opened RaftTypes

  // ---------------------------------------------------------------------------------------------
  // Keys
  // ---------------------------------------------------------------------------------------------

  function Digit(d: nat): (c: char)
    requires d < 10
    ensures '0' <= c <= '9' && (c - '0') as nat == d
  {
    '0' + d as char
  }

  /** `to_string` of an index. */
  function Decimal(n: nat): (s: string)
    ensures |s| > 0 && forall i :: 0 <= i < |s| ==> '0' <= s[i] <= '9'
  {
    if n < 10 then [Digit(n)] else Decimal(n / 10) + [Digit(n % 10)]
  }

  function DigitsValue(s: string): Option<nat> {
    if s == [] then Some(0)
    else
      var c, front := s[|s| - 1], DigitsValue(s[..|s| - 1]);
      if '0' <= c <= '9' && front.Some? then Some(10 * front.value + (c - '0') as nat) else None
  }

  /** `parse::<u64>`: an optional plus sign, then digits, within 64 bits. */
  function ParseU64(s: string): Option<nat> {
    var digits := if |s| > 1 && s[0] == '+' then s[1..] else s;
    if digits == [] then None
    else
      var v := DigitsValue(digits);
      if v.Some? && v.value < TWO_64 then v else None
  }

  lemma DigitsStep(s: string, d: nat)
    requires d < 10
    ensures DigitsValue(s + [Digit(d)]) ==
            if DigitsValue(s).Some? then Some(10 * DigitsValue(s).value + d) else None
  {
    hide Digit;
    var t := s + [Digit(d)];
    assert t[..|t| - 1] == s && t[|t| - 1] == Digit(d);
  }

  lemma {:induction false} DigitsOfDecimal(n: nat)
    ensures DigitsValue(Decimal(n)) == Some(n)
  {
    hide DigitsValue;
    NoDigits();
    if n < 10 {
      assert [] + [Digit(n)] == Decimal(n);
      DigitsStep([], n);
    } else {
      DigitsOfDecimal(n / 10);
      DigitsStep(Decimal(n / 10), n % 10);
    }
  }

  lemma NoDigits()
    ensures DigitsValue([]) == Some(0)
  {
  }

  /** A key reads back as its index, so different indices have different keys. */
  lemma KeyRoundTrip(n: nat)
    ensures ParseU64(Decimal(n)) == if n < TWO_64 then Some(n) else None
  {
    DigitsOfDecimal(n);
  }

  lemma KeysDiffer(m: U64, n: U64)
    ensures Decimal(m) == Decimal(n) <==> m == n
  {
    KeyRoundTrip(m);
    KeyRoundTrip(n);
  }

  // ---------------------------------------------------------------------------------------------
  // The vector store
  // ---------------------------------------------------------------------------------------------

  datatype MemLog = MemLog(entries: seq<Entry>, lastPurged: Option<LogId>)

  datatype LogState = LogState(lastPurged: Option<LogId>, lastLogId: Option<LogId>)

  /** The entries with index in [lo, hi), in stored order. */
  function Within(es: seq<Entry>, lo: nat, hi: nat): seq<Entry> {
    if es == [] then []
    else
      var e := es[|es| - 1];
      Within(es[..|es| - 1], lo, hi) + (if lo <= e.logId.index < hi then [e] else [])
  }

  function LastId(es: seq<Entry>): Option<LogId> {
    if es == [] then None else Some(es[|es| - 1].logId)
  }

  function OrElse(a: Option<LogId>, b: Option<LogId>): Option<LogId> {
    if a.Some? then a else b
  }

  function MemState(m: MemLog): LogState {
    LogState(m.lastPurged, OrElse(LastId(m.entries), m.lastPurged))
  }

  // ---------------------------------------------------------------------------------------------
  // The table store
  // ---------------------------------------------------------------------------------------------

  datatype RedbLog = RedbLog(table: map<string, Entry>, lastPurged: Option<LogId>)

  /** The entries found under the keys of start..end, looked up one index at a time. */
  function Lookup(t: map<string, Entry>, start: nat, end: nat): seq<Entry>
    decreases end
  {
    if start >= end then []
    else Lookup(t, start, end - 1) + (if Decimal(end - 1) in t then [t[Decimal(end - 1)]] else [])
  }

  /** order lists the table's keys, each at least once, in the order the table iterates. */
  ghost predicate Lists(order: seq<string>, t: map<string, Entry>) {
    forall k :: k in order <==> k in t
  }

  /** The position with the highest index among the keys of order. */
  function Highest(t: map<string, Entry>, order: seq<string>): Option<LogId>
    requires forall k :: k in order ==> k in t
  {
    if order == [] then None
    else
      var k, m := order[|order| - 1], Highest(t, order[..|order| - 1]);
      if ParseU64(k).Some? && (m.None? || t[k].logId.index > m.value.index) then Some(t[k].logId) else m
  }

  function RedbState(r: RedbLog, order: seq<string>): LogState
    requires Lists(order, r.table)
  {
    LogState(r.lastPurged, OrElse(Highest(r.table, order), r.lastPurged))
  }

  function InsertAll(t: map<string, Entry>, es: seq<Entry>): map<string, Entry> {
    if es == [] then t
    else InsertAll(t, es[..|es| - 1])[Decimal(es[|es| - 1].logId.index) := es[|es| - 1]]
  }

  /** The table without the keys that parse to an index in [lo, hi). */
  function Without(t: map<string, Entry>, lo: nat, hi: nat): map<string, Entry> {
    map k | k in t && !(ParseU64(k).Some? && lo <= ParseU64(k).value < hi) :: t[k]
  }

  // ---------------------------------------------------------------------------------------------
  // Refinement
  // ---------------------------------------------------------------------------------------------

  ghost predicate Ascending(es: seq<Entry>) {
    forall i, j :: 0 <= i < j < |es| ==> es[i].logId.index < es[j].logId.index
  }

  /** The table holds exactly the vector's entries, each under its own index. */
  ghost predicate Refines(es: seq<Entry>, t: map<string, Entry>) {
    && Ascending(es)
    && (forall e :: e in es ==> Decimal(e.logId.index) in t && t[Decimal(e.logId.index)] == e)
    && (forall k :: k in t ==> t[k] in es && k == Decimal(t[k].logId.index))
  }

  lemma AscendingAppend(es: seq<Entry>, e: Entry)
    requires Ascending(es) && forall x :: x in es ==> x.logId.index < e.logId.index
    ensures Ascending(es + [e])
  {
  }

  lemma AscendingInit(es: seq<Entry>)
    requires Ascending(es) && es != []
    ensures Ascending(es[..|es| - 1]) && forall x :: x in es[..|es| - 1] ==> x.logId.index < es[|es| - 1].logId.index
  {
  }

  lemma {:induction false} WithinMembers(es: seq<Entry>, lo: nat, hi: nat)
    ensures forall e :: e in Within(es, lo, hi) <==> e in es && lo <= e.logId.index < hi
    ensures Ascending(es) ==> Ascending(Within(es, lo, hi))
  {
    if es != [] {
      hide Ascending;
      var n := |es| - 1;
      WithinMembers(es[..n], lo, hi);
      assert es == es[..n] + [es[n]];
      if Ascending(es) {
        AscendingInit(es);
        if lo <= es[n].logId.index < hi {
          AscendingAppend(Within(es[..n], lo, hi), es[n]);
        }
      }
    }
  }

  lemma FirstIsMember<T>(s: seq<T>)
    ensures s != [] ==> exists x :: x in s
  {
    if s != [] {
      assert s[0] in s;
    }
  }

  /** Without its last element, an ascending vector has every other member and only those. */
  lemma WithoutLast(a: seq<Entry>)
    requires Ascending(a) && a != []
    ensures forall e :: e in a[..|a| - 1] <==> e in a && e != a[|a| - 1]
    ensures forall e :: e in a ==> e.logId.index <= a[|a| - 1].logId.index
    ensures a[|a| - 1] in a && Ascending(a[..|a| - 1])
  {
    assert a == a[..|a| - 1] + [a[|a| - 1]];
  }

  lemma SameLast(a: seq<Entry>, b: seq<Entry>)
    requires Ascending(a) && Ascending(b) && a != [] && b != []
    requires a[|a| - 1] in b && b[|b| - 1] in a
    ensures a[|a| - 1] == b[|b| - 1]
  {
    var i :| 0 <= i < |a| && a[i] == b[|b| - 1];
    var j :| 0 <= j < |b| && b[j] == a[|a| - 1];
  }

  /** An ascending vector is determined by its members. */
  lemma {:induction false} SameMembers(a: seq<Entry>, b: seq<Entry>)
    requires Ascending(a) && Ascending(b) && forall e :: e in a <==> e in b
    ensures a == b
  {
    hide Ascending;
    FirstIsMember(a);
    FirstIsMember(b);
    if a != [] {
      WithoutLast(a);
      WithoutLast(b);
      SameLast(a, b);
      var m, n := |a| - 1, |b| - 1;
      forall e
        ensures e in a[..m] <==> e in b[..n]
      {
        assert e in a <==> e in b;
      }
      SameMembers(a[..m], b[..n]);
      assert a == a[..m] + [a[m]] && b == b[..n] + [b[n]];
    }
  }

  /** The entry stored under one index, if any. */
  lemma LookupOne(es: seq<Entry>, t: map<string, Entry>, i: nat)
    requires Refines(es, t) && i < TWO_64
    ensures Decimal(i) in t ==> t[Decimal(i)] in es && t[Decimal(i)].logId.index == i
    ensures forall e :: e in es && e.logId.index == i ==> Decimal(i) in t && t[Decimal(i)] == e
  {
    hide Decimal, Ascending;
    if Decimal(i) in t {
      KeysDiffer(i, t[Decimal(i)].logId.index);
    }
  }

  lemma {:induction false} LookupMembers(es: seq<Entry>, t: map<string, Entry>, start: nat, end: nat)
    requires Refines(es, t) && end <= TWO_64
    ensures forall e :: e in Lookup(t, start, end) <==> e in es && start <= e.logId.index < end
    ensures Ascending(Lookup(t, start, end))
  {
    hide Refines, Decimal;
    if start < end {
      hide Ascending;
      LookupMembers(es, t, start, end - 1);
      LookupOne(es, t, end - 1);
      if Decimal(end - 1) in t {
        AscendingAppend(Lookup(t, start, end - 1), t[Decimal(end - 1)]);
      }
    }
  }

  /** Every bounded read agrees. */
  lemma ReadsAgree(es: seq<Entry>, t: map<string, Entry>, start: nat, end: nat)
    requires Refines(es, t) && end <= TWO_64
    ensures Lookup(t, start, end) == Within(es, start, end)
  {
    hide Refines;
    LookupMembers(es, t, start, end);
    WithinMembers(es, start, end);
    assert Ascending(es) by {
      RefinesAscends(es, t);
    }
    SameMembers(Lookup(t, start, end), Within(es, start, end));
  }

  lemma RefinesAscends(es: seq<Entry>, t: map<string, Entry>)
    requires Refines(es, t)
    ensures Ascending(es)
  {
  }

  lemma {:induction false} HighestIsMaximal(t: map<string, Entry>, order: seq<string>)
    requires forall k :: k in order ==> k in t && ParseU64(k).Some?
    ensures Highest(t, order).None? <==> order == []
    ensures Highest(t, order).Some? ==>
              && (exists k :: k in order && t[k].logId == Highest(t, order).value)
              && (forall k :: k in order ==> t[k].logId.index <= Highest(t, order).value.index)
  {
    if order != [] {
      var n := |order| - 1;
      HighestIsMaximal(t, order[..n]);
      assert order == order[..n] + [order[n]];
      assert order[n] in order;
    }
  }

  /** Every key of the table parses to the index of its entry. */
  lemma KeysParse(es: seq<Entry>, t: map<string, Entry>)
    requires Refines(es, t)
    ensures forall k :: k in t ==> ParseU64(k) == Some(t[k].logId.index as nat)
  {
    hide Decimal, ParseU64;
    forall k | k in t
      ensures ParseU64(k) == Some(t[k].logId.index as nat)
    {
      KeyRoundTrip(t[k].logId.index);
    }
  }

  /** The last position agrees, whatever order the keys come back in. */
  lemma LastAgrees(es: seq<Entry>, t: map<string, Entry>, order: seq<string>)
    requires Refines(es, t) && Lists(order, t)
    ensures Highest(t, order) == LastId(es)
  {
    hide Decimal, ParseU64, Highest;
    KeysParse(es, t);
    HighestIsMaximal(t, order);
    if es == [] {
      FirstIsMember(order);
    } else {
      var e := es[|es| - 1];
      var top := Decimal(e.logId.index);
      assert e in es;
      assert top in t && t[top] == e;
      assert top in order;
      var k :| k in order && t[k].logId == Highest(t, order).value;
      assert t[top].logId.index <= t[k].logId.index;
      var i :| 0 <= i < |es| && es[i] == t[k];
      assert i == |es| - 1;
    }
  }

  lemma AppendOneRefines(es: seq<Entry>, t: map<string, Entry>, e: Entry)
    requires Refines(es, t) && Ascending(es + [e])
    ensures Refines(es + [e], t[Decimal(e.logId.index) := e])
  {
    hide Decimal;
    assert (es + [e])[|es|] == e;
    forall x | x in es
      ensures Decimal(x.logId.index) != Decimal(e.logId.index)
    {
      var i :| 0 <= i < |es| && es[i] == x;
      assert (es + [e])[i] == x;
      KeysDiffer(x.logId.index, e.logId.index);
    }
  }

  lemma {:induction false} AppendRefines(es: seq<Entry>, t: map<string, Entry>, more: seq<Entry>)
    requires Refines(es, t) && Ascending(es + more)
    ensures Refines(es + more, InsertAll(t, more))
  {
    if more == [] {
      assert es + more == es;
    } else {
      var n := |more| - 1;
      assert es + more == es + more[..n] + [more[n]];
      assert (es + more)[..|es| + n] == es + more[..n];
      AppendRefines(es, t, more[..n]);
      AppendOneRefines(es + more[..n], InsertAll(t, more[..n]), more[n]);
    }
  }

  /** A table whose keys are filtered by index refines the vector filtered the same way. */
  lemma FilterRefines(es: seq<Entry>, t: map<string, Entry>, lo: nat, hi: nat, kept: seq<Entry>)
    requires Refines(es, t) && Ascending(kept)
    requires forall e :: e in kept <==> e in es && !(lo <= e.logId.index < hi)
    ensures Refines(kept, Without(t, lo, hi))
  {
    hide Decimal, ParseU64, Ascending;
    KeysParse(es, t);
    forall e | e in kept
      ensures Decimal(e.logId.index) in Without(t, lo, hi)
    {
      assert t[Decimal(e.logId.index)] == e;
    }
  }

  /** Dropping the indices from `at` on, or up to `upTo`, does the same to both. */
  lemma DropRefines(es: seq<Entry>, t: map<string, Entry>, at: nat)
    requires Refines(es, t) && at <= TWO_64
    ensures Refines(Within(es, 0, at), Without(t, at, TWO_64))
    ensures Refines(Within(es, at, TWO_64), Without(t, 0, at))
  {
    RefinesAscends(es, t);
    hide Refines, Within, Ascending;
    WithinMembers(es, 0, at);
    WithinMembers(es, at, TWO_64);
    FilterRefines(es, t, at, TWO_64, Within(es, 0, at));
    FilterRefines(es, t, 0, at, Within(es, at, TWO_64));
  }

  // ---------------------------------------------------------------------------------------------
  // Whole runs
  // ---------------------------------------------------------------------------------------------

  datatype LogStep = AppendStep(entries: seq<Entry>) | TruncateStep(at: LogId) | PurgeStep(upTo: LogId)

  function StepMem(m: MemLog, s: LogStep): MemLog {
    match s
    case AppendStep(es) => m.(entries := m.entries + es)
    case TruncateStep(at) => m.(entries := Within(m.entries, 0, at.index))
    case PurgeStep(upTo) => MemLog(Within(m.entries, upTo.index + 1, TWO_64), Some(upTo))
  }

  function StepRedb(r: RedbLog, s: LogStep): RedbLog {
    match s
    case AppendStep(es) => r.(table := InsertAll(r.table, es))
    case TruncateStep(at) => r.(table := Without(r.table, at.index, TWO_64))
    case PurgeStep(upTo) => RedbLog(Without(r.table, 0, upTo.index + 1), Some(upTo))
  }

  function RunMem(steps: seq<LogStep>): MemLog {
    if steps == [] then MemLog([], None) else StepMem(RunMem(steps[..|steps| - 1]), steps[|steps| - 1])
  }

  function RunRedb(steps: seq<LogStep>): RedbLog {
    if steps == [] then RedbLog(map[], None) else StepRedb(RunRedb(steps[..|steps| - 1]), steps[|steps| - 1])
  }

  /** The step drops what is stored under the index: a truncation at or below it, a purge up to it. */
  predicate Drops(s: LogStep, index: nat) {
    (s.TruncateStep? && s.at.index <= index) || (s.PurgeStep? && index <= s.upTo.index)
  }

  /** Step i appends the entry, and no later step drops its index. */
  ghost predicate KeptSince(steps: seq<LogStep>, e: Entry, i: nat) {
    && i < |steps| && steps[i].AppendStep? && e in steps[i].entries
    && forall j :: i < j < |steps| ==> !Drops(steps[j], e.logId.index)
  }

  lemma StepMembers(m: MemLog, s: LogStep, e: Entry)
    ensures e in StepMem(m, s).entries <==> (s.AppendStep? && e in s.entries) || (e in m.entries && !Drops(s, e.logId.index))
  {
    if s.TruncateStep? {
      WithinMembers(m.entries, 0, s.at.index);
    } else if s.PurgeStep? {
      WithinMembers(m.entries, s.upTo.index + 1, TWO_64);
    }
  }

  /** After any run an entry is stored exactly if some step appended it and no later one dropped it. */
  lemma {:induction false} StoredIff(steps: seq<LogStep>, e: Entry)
    ensures e in RunMem(steps).entries <==> exists i :: KeptSince(steps, e, i)
  {
    if steps != [] {
      var n := |steps| - 1;
      StoredIff(steps[..n], e);
      StepMembers(RunMem(steps[..n]), steps[n], e);
      KeptStep(steps, e);
      hide StepMem, KeptSince, Drops;
    }
  }

  lemma KeptStep(steps: seq<LogStep>, e: Entry)
    requires steps != []
    ensures var n := |steps| - 1;
            (exists i :: KeptSince(steps, e, i)) <==>
              (steps[n].AppendStep? && e in steps[n].entries) || ((exists i :: KeptSince(steps[..n], e, i)) && !Drops(steps[n], e.logId.index))
  {
    var n := |steps| - 1;
    if i: nat :| KeptSince(steps, e, i) {
      assert i < n ==> KeptSince(steps[..n], e, i);
    }
    if steps[n].AppendStep? && e in steps[n].entries {
      assert KeptSince(steps, e, n);
    }
    if (exists i :: KeptSince(steps[..n], e, i)) && !Drops(steps[n], e.logId.index) {
      var i :| KeptSince(steps[..n], e, i);
      assert KeptSince(steps, e, i);
    }
  }

  /** The purge position is that of the latest purge. */
  lemma {:induction false} LastPurgedIs(steps: seq<LogStep>, i: nat)
    requires i < |steps| && steps[i].PurgeStep? && forall j :: i < j < |steps| ==> !steps[j].PurgeStep?
    ensures RunMem(steps).lastPurged == Some(steps[i].upTo)
    decreases |steps|
  {
    if i < |steps| - 1 {
      LastPurgedIs(steps[..|steps| - 1], i);
    }
  }

  lemma {:induction false} NeverPurged(steps: seq<LogStep>)
    requires forall s :: s in steps ==> !s.PurgeStep?
    ensures RunMem(steps).lastPurged == None
  {
    if steps != [] {
      assert steps[|steps| - 1] in steps;
      NeverPurged(steps[..|steps| - 1]);
    }
  }

  /**
   What the log state reports: the purge position, and as the last position that of the stored entry
   with the highest index, or the purge position if nothing is stored.
   */
  lemma StateReports(m: MemLog)
    requires Ascending(m.entries)
    ensures MemState(m).lastPurged == m.lastPurged
    ensures m.entries == [] ==> MemState(m).lastLogId == m.lastPurged
    ensures m.entries != [] ==>
              exists e :: e in m.entries && MemState(m).lastLogId == Some(e.logId) && forall x :: x in m.entries ==> x.logId.index <= e.logId.index
  {
    if m.entries != [] {
      WithoutLast(m.entries);
    }
  }

  /** The entries have consecutive indices from first on. */
  ghost predicate Consecutive(es: seq<Entry>, first: nat) {
    forall i :: 0 <= i < |es| ==> es[i].logId.index == first + i
  }

  /** Every append continues the log at the index after its last position. */
  ghost predicate Continues(steps: seq<LogStep>) {
    forall n :: 0 <= n < |steps| && steps[n].AppendStep? ==>
                  var last := MemState(RunMem(steps[..n])).lastLogId;
                  steps[n].entries != [] ==>
                    Consecutive(steps[n].entries,
                                if last.Some? then last.value.index + 1 else steps[n].entries[0].logId.index)
  }

  lemma ContinuesAscends(es: seq<Entry>, more: seq<Entry>, first: nat)
    requires Ascending(es) && Consecutive(more, first) && (es != [] ==> first == es[|es| - 1].logId.index + 1)
    ensures Ascending(es + more)
  {
    forall i, j | 0 <= i < j < |es + more|
      ensures (es + more)[i].logId.index < (es + more)[j].logId.index
    {
      if i < |es| && |es| <= j {
        assert es[i].logId.index <= es[|es| - 1].logId.index;
      }
    }
  }

  lemma {:induction false} RunsRefine(steps: seq<LogStep>)
    requires Continues(steps)
    ensures Refines(RunMem(steps).entries, RunRedb(steps).table)
    ensures RunMem(steps).lastPurged == RunRedb(steps).lastPurged
  {
    if steps != [] {
      var n := |steps| - 1;
      var init := steps[..n];
      forall i | 0 <= i < n
        ensures init[..i] == steps[..i]
      {
      }
      RunsRefine(init);
      StepRefines(RunMem(init), RunRedb(init), steps[n]);
    }
  }

  lemma AppendStepRefines(m: MemLog, r: RedbLog, es: seq<Entry>)
    requires Refines(m.entries, r.table)
    requires es != [] ==>
               var last := MemState(m).lastLogId;
               Consecutive(es, if last.Some? then last.value.index + 1 else es[0].logId.index)
    ensures Refines(m.entries + es, InsertAll(r.table, es))
  {
    RefinesAscends(m.entries, r.table);
    hide Refines, Ascending, InsertAll, Consecutive;
    if es == [] {
      assert m.entries + es == m.entries;
    } else {
      var last := MemState(m).lastLogId;
      ContinuesAscends(m.entries, es, if last.Some? then last.value.index + 1 else es[0].logId.index);
    }
    AppendRefines(m.entries, r.table, es);
  }

  lemma StepRefines(m: MemLog, r: RedbLog, s: LogStep)
    requires Refines(m.entries, r.table) && m.lastPurged == r.lastPurged
    requires s.AppendStep? && s.entries != [] ==>
               var last := MemState(m).lastLogId;
               Consecutive(s.entries, if last.Some? then last.value.index + 1 else s.entries[0].logId.index)
    ensures Refines(StepMem(m, s).entries, StepRedb(r, s).table)
    ensures StepMem(m, s).lastPurged == StepRedb(r, s).lastPurged
  {
    hide Refines, Ascending, Within, Without, InsertAll, Consecutive, MemState;
    match s
    case AppendStep(es) => AppendStepRefines(m, r, es);
    case TruncateStep(at) => DropRefines(m.entries, r.table, at.index);
    case PurgeStep(upTo) => DropRefines(m.entries, r.table, upTo.index + 1);
  }

  /**
   After any run of continuing appends, truncations and purges the two stores report the same log
   state and return the same entries for every bounded range, in any key order.
   */
  lemma StoresAgree(steps: seq<LogStep>, order: seq<string>, start: nat, end: nat)
    requires Continues(steps) && Lists(order, RunRedb(steps).table) && end <= TWO_64
    ensures RedbState(RunRedb(steps), order) == MemState(RunMem(steps))
    ensures Lookup(RunRedb(steps).table, start, end) == Within(RunMem(steps).entries, start, end)
  {
    RunsRefine(steps);
    LastAgrees(RunMem(steps).entries, RunRedb(steps).table, order);
    ReadsAgree(RunMem(steps).entries, RunRedb(steps).table, start, end);
  }

  // ---------------------------------------------------------------------------------------------
  // Where the stores differ
  // ---------------------------------------------------------------------------------------------

  lemma {:induction false} LookupAscends(t: map<string, Entry>, start: nat, end: nat)
    requires end <= TWO_64 && forall k :: k in t ==> k == Decimal(t[k].logId.index)
    ensures forall e :: e in Lookup(t, start, end) ==> e.logId.index < end
    ensures Ascending(Lookup(t, start, end))
  {
    if start < end {
      LookupAscends(t, start, end - 1);
      var k := Decimal(end - 1);
      if k in t {
        KeysDiffer(end - 1, t[k].logId.index);
      }
    }
  }

  lemma {:induction false} WithinAll(es: seq<Entry>)
    ensures Within(es, 0, TWO_64) == es
  {
    if es != [] {
      var n := |es| - 1;
      WithinAll(es[..n]);
      assert es == es[..n] + [es[n]];
      assert Within(es, 0, TWO_64) == Within(es[..n], 0, TWO_64) + [es[n]];
    }
  }

  /** An append keeps every bounded read in agreement exactly when its index is above all stored ones. */
  lemma AppendAgreesIff(es: seq<Entry>, t: map<string, Entry>, e: Entry)
    requires Refines(es, t)
    ensures (forall a: nat, b: nat :: b <= TWO_64 ==>
               Lookup(t[Decimal(e.logId.index) := e], a, b) == Within(es + [e], a, b))
            <==> (es == [] || e.logId.index > es[|es| - 1].logId.index)
  {
    var u := t[Decimal(e.logId.index) := e];
    RefinesAscends(es, t);
    if es == [] || e.logId.index > es[|es| - 1].logId.index {
      AppendAgrees(es, t, e);
    } else {
      hide Lookup, Within;
      KeysOwn(es, t, e);
      LookupAscends(u, 0, TWO_64);
      WithinAll(es + [e]);
      assert (es + [e])[|es| - 1].logId.index >= (es + [e])[|es|].logId.index;
    }
  }

  lemma KeysOwn(es: seq<Entry>, t: map<string, Entry>, e: Entry)
    requires Refines(es, t)
    ensures var u := t[Decimal(e.logId.index) := e]; forall k :: k in u ==> k == Decimal(u[k].logId.index)
  {
    hide Decimal;
  }

  lemma AppendAgrees(es: seq<Entry>, t: map<string, Entry>, e: Entry)
    requires Refines(es, t) && (es == [] || e.logId.index > es[|es| - 1].logId.index)
    ensures forall a: nat, b: nat :: b <= TWO_64 ==>
              Lookup(t[Decimal(e.logId.index) := e], a, b) == Within(es + [e], a, b)
  {
    ContinuesAscendsOne(es, t, e);
    hide Refines, Decimal, Ascending;
    AppendOneRefines(es, t, e);
    forall a: nat, b: nat | b <= TWO_64
      ensures Lookup(t[Decimal(e.logId.index) := e], a, b) == Within(es + [e], a, b)
    {
      ReadsAgree(es + [e], t[Decimal(e.logId.index) := e], a, b);
    }
  }

  lemma ContinuesAscendsOne(es: seq<Entry>, t: map<string, Entry>, e: Entry)
    requires Refines(es, t) && (es == [] || e.logId.index > es[|es| - 1].logId.index)
    ensures Ascending(es + [e])
  {
    hide Decimal;
    forall i, j | 0 <= i < j < |es + [e]|
      ensures (es + [e])[i].logId.index < (es + [e])[j].logId.index
    {
      if j == |es| {
        assert es[i].logId.index <= es[|es| - 1].logId.index;
      }
    }
  }

  const UNBOUNDED_MEM := TWO_64 - 1
  const UNBOUNDED_REDB := 1_000_000

  /** A read without an upper bound stops at a million in the table store only. */
  lemma UnboundedAgreesIff(es: seq<Entry>, t: map<string, Entry>, start: nat)
    requires Refines(es, t)
    ensures Lookup(t, start, UNBOUNDED_REDB) == Within(es, start, UNBOUNDED_MEM)
            <==> forall e :: e in es && start <= e.logId.index < UNBOUNDED_MEM ==> e.logId.index < UNBOUNDED_REDB
  {
    ReadsAgree(es, t, start, UNBOUNDED_REDB);
    WithinMembers(es, start, UNBOUNDED_REDB);
    WithinMembers(es, start, UNBOUNDED_MEM);
    var a, b := Within(es, start, UNBOUNDED_REDB), Within(es, start, UNBOUNDED_MEM);
    if forall e :: e in es && start <= e.logId.index < UNBOUNDED_MEM ==> e.logId.index < UNBOUNDED_REDB {
      SameMembers(a, b);
    } else {
      var e :| e in es && start <= e.logId.index < UNBOUNDED_MEM && e.logId.index >= UNBOUNDED_REDB;
      assert e in b && e !in a;
    }
  }

  /** One entry at a million: an unbounded read finds it in the vector store only. */
  lemma UnboundedReadMisses(e: Entry)
    requires e.logId.index == 1_000_000
    ensures Continues([AppendStep([e])])
    ensures Within(RunMem([AppendStep([e])]).entries, 0, UNBOUNDED_MEM) == [e]
    ensures Lookup(RunRedb([AppendStep([e])]).table, 0, UNBOUNDED_REDB) != [e]
  {
    hide Lookup;
    var steps := [AppendStep([e])];
    assert steps[..0] == [];
    assert RunMem(steps).entries == [] + [e] == [e];
    assert [e][..0] == [];
    RunsRefine(steps);
    UnboundedAgreesIff([e], RunRedb(steps).table, 0);
  }

  /** Opened again: the purge position comes back from its index and term alone. */
  function Reopened(r: RedbLog): RedbLog {
    RedbLog(r.table, if r.lastPurged.None? then None else Some(LogId(r.lastPurged.value.term, 0, r.lastPurged.value.index)))
  }

  /** Reopening keeps every entry; it keeps the log state exactly when the purge position's node was 0. */
  lemma ReopenKeepsIff(r: RedbLog, order: seq<string>)
    requires Lists(order, r.table)
    ensures RedbState(Reopened(r), order) == RedbState(r, order) <==> (r.lastPurged.Some? ==> r.lastPurged.value.node == 0)
    ensures Reopened(r).table == r.table
  {
  }

  /** A log purged at a position proposed by another node than 0 reports another one when reopened. */
  lemma ReopenForgetsNode(id: LogId)
    requires id.node != 0
    ensures Continues([PurgeStep(id)]) && Lists([], RunRedb([PurgeStep(id)]).table)
    ensures RedbState(RunRedb([PurgeStep(id)]), []).lastPurged == Some(id)
    ensures RedbState(Reopened(RunRedb([PurgeStep(id)])), []).lastPurged != Some(id)
  {
    var steps := [PurgeStep(id)];
    assert steps[..0] == [];
    assert RunRedb(steps).table == map[];
  }

  // ---------------------------------------------------------------------------------------------
  // The store objects
  // ---------------------------------------------------------------------------------------------

  class MemoryLogStore {
    var entries: seq<Entry>
    var lastPurged: Option<LogId>

    constructor ()
      ensures State() == RunMem([])
    {
      entries, lastPurged := [], None;
    }

    function State(): MemLog
      reads this
    {
      MemLog(entries, lastPurged)
    }

    method Append(es: seq<Entry>)
      modifies this
      ensures State() == StepMem(old(State()), AppendStep(es))
    {
      for i := 0 to |es|
        invariant lastPurged == old(lastPurged) && entries == old(entries) + es[..i]
      {
        entries := entries + [es[i]];
      }
      assert es[..|es|] == es;
    }

    /** `retain`: the entries in [lo, hi), in order. */
    method Retain(lo: nat, hi: nat)
      modifies this`entries
      ensures entries == Within(old(entries), lo, hi)
    {
      var kept: seq<Entry> := [];
      for i := 0 to |entries|
        invariant entries == old(entries) && kept == Within(entries[..i], lo, hi)
      {
        assert entries[..i + 1][..i] == entries[..i];
        if lo <= entries[i].logId.index < hi {
          kept := kept + [entries[i]];
        }
      }
      assert entries[..|entries|] == entries;
      entries := kept;
    }

    method Truncate(at: LogId)
      modifies this
      ensures State() == StepMem(old(State()), TruncateStep(at))
    {
      Retain(0, at.index);
    }

    method Purge(upTo: LogId)
      modifies this
      ensures State() == StepMem(old(State()), PurgeStep(upTo))
    {
      lastPurged := Some(upTo);
      Retain(upTo.index + 1, TWO_64);
    }

    method GetLogState() returns (s: LogState)
      ensures s == MemState(State())
    {
      var last := if |entries| == 0 then None else Some(entries[|entries| - 1].logId);
      s := LogState(lastPurged, if last.Some? then last else lastPurged);
    }

    method TryGetLogEntries(start: nat, end: nat) returns (es: seq<Entry>)
      ensures es == Within(entries, start, end)
    {
      es := [];
      for i := 0 to |entries|
        invariant es == Within(entries[..i], start, end)
      {
        assert entries[..i + 1][..i] == entries[..i];
        if start <= entries[i].logId.index < end {
          es := es + [entries[i]];
        }
      }
      assert entries[..|entries|] == entries;
    }
  }

  /** `order` parameters are the order in which the table hands out its keys. */
  class RedbLogStore {
    var table: map<string, Entry>
    var lastPurged: Option<LogId>

    constructor ()
      ensures State() == RunRedb([])
    {
      table, lastPurged := map[], None;
    }

    function State(): RedbLog
      reads this
    {
      RedbLog(table, lastPurged)
    }

    method Append(es: seq<Entry>)
      modifies this
      ensures State() == StepRedb(old(State()), AppendStep(es))
    {
      for i := 0 to |es|
        invariant lastPurged == old(lastPurged) && table == InsertAll(old(table), es[..i])
      {
        assert es[..i + 1][..i] == es[..i];
        table := table[Decimal(es[i].logId.index) := es[i]];
      }
      assert es[..|es|] == es;
    }

    /** Collects the keys whose index lies in [lo, hi), then removes them one by one. */
    method RemoveRange(lo: nat, hi: nat, order: seq<string>)
      requires Lists(order, table)
      modifies this`table
      ensures table == Without(old(table), lo, hi)
    {
      var doomed: seq<string> := [];
      for i := 0 to |order|
        invariant forall k :: k in doomed <==> k in order[..i] && ParseU64(k).Some? && lo <= ParseU64(k).value < hi
      {
        assert order[..i + 1] == order[..i] + [order[i]];
        var v := ParseU64(order[i]);
        if v.Some? && lo <= v.value < hi {
          doomed := doomed + [order[i]];
        }
      }
      assert order[..|order|] == order;
      for i := 0 to |doomed|
        invariant table == map k | k in old(table) && k !in doomed[..i] :: old(table)[k]
      {
        assert doomed[..i + 1] == doomed[..i] + [doomed[i]];
        table := table - {doomed[i]};
      }
      assert doomed[..|doomed|] == doomed;
    }

    method Truncate(at: LogId, order: seq<string>)
      requires Lists(order, table)
      modifies this
      ensures State() == StepRedb(old(State()), TruncateStep(at))
    {
      RemoveRange(at.index, TWO_64, order);
    }

    method Purge(upTo: LogId, order: seq<string>)
      requires Lists(order, table)
      modifies this
      ensures State() == StepRedb(old(State()), PurgeStep(upTo))
    {
      RemoveRange(0, upTo.index + 1, order);
      lastPurged := Some(upTo);
    }

    method FindLastLogId(order: seq<string>) returns (last: Option<LogId>)
      requires Lists(order, table)
      ensures last == Highest(table, order)
    {
      last := None;
      for i := 0 to |order|
        invariant last == Highest(table, order[..i])
      {
        assert order[..i + 1][..i] == order[..i];
        assert order[i] in table;
        if ParseU64(order[i]).Some? && (last.None? || table[order[i]].logId.index > last.value.index) {
          last := Some(table[order[i]].logId);
        }
      }
      assert order[..|order|] == order;
    }

    method GetLogState(order: seq<string>) returns (s: LogState)
      requires Lists(order, table)
      ensures s == RedbState(State(), order)
    {
      var last := FindLastLogId(order);
      s := LogState(lastPurged, if last.Some? then last else lastPurged);
    }

    method ReadLogEntries(start: nat, end: nat) returns (es: seq<Entry>)
      ensures es == Lookup(table, start, end)
    {
      es := [];
      var i := start;
      while i < end
        invariant start <= i && (i <= end || i == start)
        invariant es == Lookup(table, start, i)
      {
        var k := Decimal(i);
        if k in table {
          es := es + [table[k]];
        }
        i := i + 1;
      }
    }
  }
}
