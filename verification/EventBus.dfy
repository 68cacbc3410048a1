/** The in-process event bus: `bus/event_bus.py`. */
module EventBus {
  import opened StableOrder

  newtype Topic = int
  datatype EventType = Wildcard | Exact(topic: Topic)

  type Table = map<EventType, seq<Entry>>

  function At(table: Table, t: EventType): seq<Entry> {
    if t in table then table[t] else []
  }

  predicate AllConsumers(s: seq<Entry>) {
    forall i :: 0 <= i < |s| ==> s[i].Consumer?
  }

  predicate Named(s: seq<Entry>, n: Name) {
    exists i :: 0 <= i < |s| && s[i].Consumer? && s[i].name == n
  }

  /** No consumer name twice. */
  ghost predicate DistinctNames(s: seq<Entry>) {
    forall i, j :: 0 <= i < j < |s| && s[i].Consumer? && s[j].Consumer? ==> s[i].name != s[j].name
  }

  /** The same, said of the entries without their order. */
  ghost predicate NamesApart(m: multiset<Entry>) {
    forall x, y :: x in m && y in m && x.Consumer? && y.Consumer? && x.name == y.name ==> x == y && m[x] == 1
  }

  /** `_consumer_name_is_registered` */
  predicate NameTaken(table: Table, t: EventType, n: Name) {
    if t.Wildcard? then exists u :: u in table && Named(table[u], n)
    else Named(At(table, Wildcard), n) || Named(At(table, t), n)
  }

  /** The wildcard consumers followed by those of the type itself. */
  function Durable(table: Table, t: EventType): seq<Entry> {
    if t.Wildcard? then At(table, t) else At(table, Wildcard) + At(table, t)
  }

  /** Every list holds its live registrations in stable priority order. */
  ghost predicate SortedFrom(table: Table, registered: Table) {
    forall t :: At(table, t) == StableSort(At(registered, t))
  }

  /** Wherever an event type is looked up, no name is found twice. */
  ghost predicate NamesUnique(table: Table) {
    forall t :: NamesApart(multiset(Durable(table, t)))
  }

  ghost predicate Proper(table: Table) {
    forall t :: AllConsumers(At(table, t))
  }

  // ---------------------------------------------------------------- names

  lemma {:induction false} TwiceCounts(s: seq<Entry>, i: nat, j: nat)
    requires i < j < |s| && s[i] == s[j]
    ensures 2 <= multiset(s)[s[i]]
  {
    assert s == s[..j] + [s[j]] + s[j + 1..];
    assert s[i] == s[..j][i] && s[i] in multiset(s[..j]);
  }

  lemma ApartIsDistinct(s: seq<Entry>)
    requires NamesApart(multiset(s))
    ensures DistinctNames(s)
  {
    forall i, j | 0 <= i < j < |s| && s[i].Consumer? && s[j].Consumer? ensures s[i].name != s[j].name {
      assert s[i] in multiset(s) && s[j] in multiset(s);
      if s[i] == s[j] {
        TwiceCounts(s, i, j);
      }
    }
  }

  lemma ApartAdd(m: multiset<Entry>, x: Entry)
    requires NamesApart(m) && x.Consumer? && forall y :: y in m && y.Consumer? ==> y.name != x.name
    ensures NamesApart(m + multiset{x})
  {
    assert x !in m;
  }

  lemma ApartFewer(m: multiset<Entry>, n: multiset<Entry>)
    requires NamesApart(m) && n <= m
    ensures NamesApart(n)
  {
  }

  lemma NotNamed(s: seq<Entry>, n: Name)
    requires !Named(s, n)
    ensures forall y :: y in multiset(s) && y.Consumer? ==> y.name != n
  {
    forall y | y in multiset(s) && y.Consumer? ensures y.name != n {
      var i :| 0 <= i < |s| && s[i] == y;
    }
  }

  /** The list of one type with one more entry, as `on` leaves it. */
  function Added(table: Table, t: EventType, x: Entry): Table {
    table[t := StableSort(At(table, t) + [x])]
  }

  function Extra(add: bool, x: Entry): multiset<Entry> {
    if add then multiset{x} else multiset{}
  }

  lemma AddedAt(table: Table, t: EventType, x: Entry, u: EventType)
    ensures multiset(At(Added(table, t, x), u)) == multiset(At(table, u)) + Extra(t == u, x)
  {
    SortKeepsEntries(At(table, t) + [x]);
  }

  lemma DurableEntries(table: Table, t: EventType)
    ensures multiset(Durable(table, t)) ==
              if t.Wildcard? then multiset(At(table, t)) else multiset(At(table, Wildcard)) + multiset(At(table, t))
  {
  }

  lemma AddedEntries(table: Table, t: EventType, x: Entry, u: EventType)
    ensures multiset(Durable(Added(table, t, x), u)) == multiset(Durable(table, u)) + Extra(t == u || t.Wildcard?, x)
  {
    AddedAt(table, t, x, u);
    AddedAt(table, t, x, Wildcard);
    DurableEntries(table, u);
    DurableEntries(Added(table, t, x), u);
  }

  lemma SortedAdd(table: Table, registered: Table, t: EventType, x: Entry)
    requires SortedFrom(table, registered)
    ensures SortedFrom(Added(table, t, x), registered[t := At(registered, t) + [x]])
  {
    SortParts(At(registered, t), [x]);
    var next, log := Added(table, t, x), registered[t := At(registered, t) + [x]];
    forall u ensures At(next, u) == StableSort(At(log, u)) {
      assert At(table, u) == StableSort(At(registered, u));
    }
  }

  lemma SortedRemove(table: Table, registered: Table, t: EventType, h: Handler)
    requires SortedFrom(table, registered)
    ensures SortedFrom(Removed(table, t, h), registered[t := Without(At(registered, t), h)])
  {
    SortWithout(At(registered, t), h);
    var next, log := Removed(table, t, h), registered[t := Without(At(registered, t), h)];
    forall u ensures At(next, u) == StableSort(At(log, u)) {
      assert At(table, u) == StableSort(At(registered, u));
    }
  }

  lemma FreeName(table: Table, t: EventType, n: Name, u: EventType)
    requires !NameTaken(table, t, n) && (t == u || t.Wildcard?)
    ensures forall y :: y in multiset(Durable(table, u)) && y.Consumer? ==> y.name != n
  {
    NotNamed(At(table, Wildcard), n);
    NotNamed(At(table, u), n);
  }

  lemma AddedIsUnique(table: Table, t: EventType, x: Entry)
    requires NamesUnique(table) && x.Consumer? && !NameTaken(table, t, x.name)
    ensures NamesUnique(Added(table, t, x))
  {
    forall u ensures NamesApart(multiset(Durable(Added(table, t, x), u))) {
      AddedEntries(table, t, x, u);
      if t == u || t.Wildcard? {
        FreeName(table, t, x.name, u);
        ApartAdd(multiset(Durable(table, u)), x);
      }
    }
  }

  lemma NamedByEntries(s: seq<Entry>, r: seq<Entry>, n: Name)
    requires multiset(r) <= multiset(s) && Named(r, n)
    ensures Named(s, n)
  {
    var i :| 0 <= i < |r| && r[i].Consumer? && r[i].name == n;
    assert r[i] in multiset(r);
    var j :| 0 <= j < |s| && s[j] == r[i];
  }

  lemma NamedSorted(s: seq<Entry>, n: Name)
    ensures Named(StableSort(s), n) <==> Named(s, n)
  {
    SortKeepsEntries(s);
    if Named(s, n) { NamedByEntries(StableSort(s), s, n); }
    if Named(StableSort(s), n) { NamedByEntries(s, StableSort(s), n); }
  }

  /** A list of registrations that is read together with those of `t` has the name. */
  ghost predicate NameClashes(registered: Table, t: EventType, n: Name) {
    exists u :: (u == t || u == Wildcard || t == Wildcard) && Named(At(registered, u), n)
  }

  lemma TakenIffClashes(table: Table, registered: Table, t: EventType, n: Name)
    requires SortedFrom(table, registered)
    ensures NameTaken(table, t, n) <==> NameClashes(registered, t, n)
  {
    forall u ensures Named(At(table, u), n) <==> Named(At(registered, u), n) {
      assert At(table, u) == StableSort(At(registered, u));
      NamedSorted(At(registered, u), n);
    }
    if NameTaken(table, t, n) {
      var u := if Named(At(table, Wildcard), n) then Wildcard
               else if !t.Wildcard? then t
               else var v :| v in table && Named(table[v], n); v;
      assert Named(At(registered, u), n);
    }
    if NameClashes(registered, t, n) {
      var u :| (u == t || u == Wildcard || t == Wildcard) && Named(At(registered, u), n);
      assert Named(At(table, u), n);
    }
  }

  lemma AllConsumersByEntries(s: seq<Entry>, r: seq<Entry>)
    requires AllConsumers(s) && multiset(r) <= multiset(s)
    ensures AllConsumers(r)
  {
    forall i | 0 <= i < |r| ensures r[i].Consumer? {
      assert r[i] in multiset(r);
      var j :| 0 <= j < |s| && s[j] == r[i];
    }
  }

  lemma AddedIsProper(table: Table, t: EventType, x: Entry)
    requires Proper(table) && x.Consumer?
    ensures Proper(Added(table, t, x))
  {
    SortKeepsEntries(At(table, t) + [x]);
    assert AllConsumers(At(table, t) + [x]) by {
      assert AllConsumers(At(table, t));
    }
    AllConsumersByEntries(At(table, t) + [x], StableSort(At(table, t) + [x]));
    forall u ensures AllConsumers(At(Added(table, t, x), u)) {
      assert AllConsumers(At(table, u));
    }
  }

  function Removed(table: Table, t: EventType, h: Handler): Table {
    table[t := Without(At(table, t), h)]
  }

  lemma RemovedAt(table: Table, t: EventType, h: Handler, u: EventType)
    ensures multiset(At(Removed(table, t, h), u)) <= multiset(At(table, u))
  {
    WithoutKeepsEntries(At(table, t), h);
  }

  lemma RemovedEntries(table: Table, t: EventType, h: Handler, u: EventType)
    ensures multiset(Durable(Removed(table, t, h), u)) <= multiset(Durable(table, u))
  {
    RemovedAt(table, t, h, u);
    RemovedAt(table, t, h, Wildcard);
    DurableEntries(table, u);
    DurableEntries(Removed(table, t, h), u);
  }

  lemma RemovedKeeps(table: Table, t: EventType, h: Handler)
    requires NamesUnique(table) && Proper(table)
    ensures NamesUnique(Removed(table, t, h)) && Proper(Removed(table, t, h))
  {
    var next := Removed(table, t, h);
    forall u ensures NamesApart(multiset(Durable(next, u))) {
      RemovedEntries(table, t, h, u);
      ApartFewer(multiset(Durable(table, u)), multiset(Durable(next, u)));
    }
    forall u ensures AllConsumers(At(next, u)) {
      assert AllConsumers(At(table, u));
      RemovedAt(table, t, h, u);
      AllConsumersByEntries(At(table, u), At(next, u));
    }
  }

  lemma SortBoth(s: seq<Entry>, t: seq<Entry>)
    ensures StableSort(StableSort(s) + StableSort(t)) == StableSort(s + t)
  {
    SortParts(s, t);
    SortParts(s, StableSort(t));
  }

  lemma {:induction false} ReportNames(entries: seq<Entry>, skip: set<Name>, succeeds: Entry -> bool, i: nat)
    requires i < |Report(entries, skip, succeeds)|
    ensures Named(entries, Report(entries, skip, succeeds)[i].name)
    ensures Report(entries, skip, succeeds)[i].name !in skip
    ensures exists k :: 0 <= k < |entries| && Reports(entries[k], succeeds, Report(entries, skip, succeeds)[i])
  {
    var last := |entries| - 1;
    var init := Report(entries[..last], skip, succeeds);
    if i < |init| {
      ReportNames(entries[..last], skip, succeeds, i);
      var k :| 0 <= k < last && Reports(entries[..last][k], succeeds, init[i]);
      assert Reports(entries[k], succeeds, init[i]);
    } else {
      assert Reports(entries[last], succeeds, Report(entries, skip, succeeds)[i]);
    }
  }

  /** The result is of this consumer, with the outcome of its handler. */
  predicate Reports(x: Entry, succeeds: Entry -> bool, r: Result) {
    x.Consumer? && x.name == r.name && succeeds(x) == r.succeeded
  }

  lemma ReportNext(entries: seq<Entry>, skip: set<Name>, succeeds: Entry -> bool, i: nat)
    requires i < |entries|
    ensures Report(entries[..i + 1], skip, succeeds) ==
              Report(entries[..i], skip, succeeds) +
              if entries[i].Local? || entries[i].name in skip then [] else [Result(entries[i].name, succeeds(entries[i]))]
  {
    assert entries[..i + 1][..i] == entries[..i];
  }

  ghost predicate DistinctResults(r: seq<Result>) {
    forall i, j :: 0 <= i < j < |r| ==> r[i].name != r[j].name
  }

  lemma {:induction false} ReportIsDistinct(entries: seq<Entry>, skip: set<Name>, succeeds: Entry -> bool)
    requires DistinctNames(entries)
    ensures DistinctResults(Report(entries, skip, succeeds))
  {
    if entries != [] {
      var last := |entries| - 1;
      ReportIsDistinct(entries[..last], skip, succeeds);
      var r, init := Report(entries, skip, succeeds), Report(entries[..last], skip, succeeds);
      forall i, j | 0 <= i < j < |r| ensures r[i].name != r[j].name {
        if j == |init| {
          ReportNames(entries[..last], skip, succeeds, i);
          var k :| 0 <= k < last && entries[..last][k].Consumer? && entries[..last][k].name == r[i].name;
          assert entries[k] == entries[..last][k] && entries[last].Consumer?;
          assert r[i] == init[i] && r[j].name == entries[last].name;
          assert entries[k].name == r[i].name;
          assert entries[k].name != entries[last].name;
        } else {
          assert r[i] == init[i] && r[j] == init[j];
        }
      }
    }
  }

  /** A consumer appears in the report exactly when it is in the list and not skipped. */
  lemma {:induction false} ReportIsComplete(entries: seq<Entry>, skip: set<Name>, succeeds: Entry -> bool, n: Name)
    ensures (exists i :: 0 <= i < |Report(entries, skip, succeeds)| && Report(entries, skip, succeeds)[i].name == n) <==>
              Named(entries, n) && n !in skip
  {
    var r := Report(entries, skip, succeeds);
    if i :| 0 <= i < |r| && r[i].name == n {
      ReportNames(entries, skip, succeeds, i);
    }
    if Named(entries, n) && n !in skip {
      var last := |entries| - 1;
      var init := Report(entries[..last], skip, succeeds);
      if entries[last].Consumer? && entries[last].name == n {
        assert r[|init|].name == n;
      } else {
        var k :| 0 <= k < |entries| && entries[k].Consumer? && entries[k].name == n;
        assert entries[..last][k] == entries[k];
        ReportIsComplete(entries[..last], skip, succeeds, n);
        var i :| 0 <= i < |init| && init[i].name == n;
        assert r[i].name == n;
      }
    }
  }

  datatype Result = Result(name: Name, succeeded: bool)

  /** What a dispatch reports: every unskipped consumer of the list, in its order, with its outcome. */
  function Report(entries: seq<Entry>, skip: set<Name>, succeeds: Entry -> bool): seq<Result> {
    if entries == [] then []
    else
      var last := entries[|entries| - 1];
      Report(entries[..|entries| - 1], skip, succeeds) +
      (if last.Local? || last.name in skip then [] else [Result(last.name, succeeds(last))])
  }

  class Bus {
    var handlers: Table
    var locals: Table
    /** All live registrations of each type, in the order they were made. */
    ghost var registered: Table
    ghost var registeredLocals: Table

    ghost predicate Valid()
      reads this
    {
      && SortedFrom(handlers, registered)
      && SortedFrom(locals, registeredLocals)
      && NamesUnique(handlers)
      && Proper(handlers)
    }

    constructor ()
      ensures Valid() && registered == map[] && registeredLocals == map[]
    {
      handlers, locals, registered, registeredLocals := map[], map[], map[], map[];
    }

    /** A name is refused exactly when a live registration that would be read together with this one already has it. */
    method On(t: EventType, name: Name, handler: Handler, priority: int) returns (ok: bool)
      requires Valid()
      modifies this
      ensures Valid()
      ensures ok == !NameClashes(old(registered), t, name)
      ensures registered == if ok then old(registered)[t := At(old(registered), t) + [Consumer(name, handler, priority)]]
                            else old(registered)
      ensures registeredLocals == old(registeredLocals)
    {
      TakenIffClashes(handlers, registered, t, name);
      if NameTaken(handlers, t, name) { return false; }
      var x := Consumer(name, handler, priority);
      SortedAdd(handlers, registered, t, x);
      AddedIsUnique(handlers, t, x);
      AddedIsProper(handlers, t, x);
      handlers := Added(handlers, t, x);
      registered := registered[t := At(registered, t) + [x]];
      return true;
    }

    method Off(t: EventType, handler: Handler)
      requires Valid()
      modifies this
      ensures Valid()
      ensures registered == old(registered)[t := Without(At(old(registered), t), handler)]
      ensures registeredLocals == old(registeredLocals)
    {
      SortedRemove(handlers, registered, t, handler);
      RemovedKeeps(handlers, t, handler);
      handlers := Removed(handlers, t, handler);
      registered := registered[t := Without(At(registered, t), handler)];
    }

    method OnLocal(t: EventType, handler: Handler, priority: int)
      requires Valid()
      modifies this
      ensures Valid()
      ensures registeredLocals == old(registeredLocals)[t := At(old(registeredLocals), t) + [Local(handler, priority)]]
      ensures registered == old(registered)
    {
      var x := Local(handler, priority);
      SortedAdd(locals, registeredLocals, t, x);
      locals := Added(locals, t, x);
      registeredLocals := registeredLocals[t := At(registeredLocals, t) + [x]];
    }

    method OffLocal(t: EventType, handler: Handler)
      requires Valid()
      modifies this
      ensures Valid()
      ensures registeredLocals == old(registeredLocals)[t := Without(At(old(registeredLocals), t), handler)]
      ensures registered == old(registered)
    {
      SortedRemove(locals, registeredLocals, t, handler);
      locals := Removed(locals, t, handler);
      registeredLocals := registeredLocals[t := Without(At(registeredLocals, t), handler)];
    }

    /** `_entries_for`: one stable sort of the live registrations, wildcard ones first. */
    function EntriesFor(t: EventType): seq<Entry>
      reads this
    {
      if t.Wildcard? then At(handlers, t) else StableSort(At(handlers, Wildcard) + At(handlers, t))
    }

    lemma EntriesAreOneSort(t: EventType)
      requires Valid()
      ensures EntriesFor(t) == StableSort(Durable(registered, t))
    {
      SortBoth(At(registered, Wildcard), At(registered, t));
    }

    /** No consumer name occurs twice among the consumers of an event. */
    lemma EntriesAreApart(t: EventType)
      requires Valid()
      ensures DistinctNames(EntriesFor(t))
    {
      assert NamesApart(multiset(Durable(handlers, t)));
      SortKeepsEntries(Durable(handlers, t));
      ApartIsDistinct(EntriesFor(t));
    }

    /** `_best_effort_entries_for` */
    function BestEffortEntriesFor(t: EventType): seq<Entry>
      reads this
    {
      StableSort(EntriesFor(t) + At(locals, t))
    }

    /** The incrementally sorted lists give the order of one stable sort by priority of all live registrations,
        wildcard, then exact, then local, each in registration order. */
    lemma BestEffortIsOneSort(t: EventType)
      requires Valid()
      ensures BestEffortEntriesFor(t) == StableSort(Durable(registered, t) + At(registeredLocals, t))
    {
      EntriesAreOneSort(t);
      SortBoth(Durable(registered, t), At(registeredLocals, t));
    }

    /** Invokes the consumers in order and reports each unskipped one once, with its outcome. */
    method Dispatch(t: EventType, skip: set<Name>, succeeds: Entry -> bool) returns (results: seq<Result>)
      requires Valid()
      ensures results == Report(StableSort(Durable(registered, t)), skip, succeeds)
      ensures DistinctResults(results)
    {
      EntriesAreOneSort(t);
      var entries := EntriesFor(t);
      results := [];
      for i := 0 to |entries|
        invariant results == Report(entries[..i], skip, succeeds)
      {
        ReportNext(entries, skip, succeeds, i);
        var entry := entries[i];
        if entry.Local? || entry.name in skip { continue; }
        results := results + [Result(entry.name, succeeds(entry))];
      }
      assert entries[..|entries|] == entries;
      EntriesAreApart(t);
      ReportIsDistinct(entries, skip, succeeds);
    }
  }
}
