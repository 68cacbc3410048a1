/** Stable sorting by priority, as Python's `sort` and `sorted` do it, and why its result is the only one. */
module StableOrder {
  newtype Name = int
  newtype Handler = int

  /** A registration; ephemeral local ones have no consumer name. */
  datatype Entry =
    | Consumer(name: Name, handler: Handler, priority: int)
    | Local(handler: Handler, priority: int)

  predicate Sorted(s: seq<Entry>) {
    forall i, j :: 0 <= i < j < |s| ==> s[i].priority <= s[j].priority
  }

  /** The entries of one priority, in order. */
  function WithPriority(s: seq<Entry>, p: int): seq<Entry> {
    if s == [] then []
    else
      var last := s[|s| - 1];
      WithPriority(s[..|s| - 1], p) + (if last.priority == p then [last] else [])
  }

  /** `r` is `s` sorted by priority with ties in their old order. */
  ghost predicate StablySorts(s: seq<Entry>, r: seq<Entry>) {
    Sorted(r) && forall p :: WithPriority(r, p) == WithPriority(s, p)
  }

  function Insert(s: seq<Entry>, x: Entry): seq<Entry> {
    if s == [] || s[|s| - 1].priority <= x.priority then s + [x]
    else Insert(s[..|s| - 1], x) + [s[|s| - 1]]
  }

  function StableSort(s: seq<Entry>): seq<Entry> {
    if s == [] then [] else Insert(StableSort(s[..|s| - 1]), s[|s| - 1])
  }

  lemma {:induction false} WithPriorityAppend(s: seq<Entry>, t: seq<Entry>, p: int)
    ensures WithPriority(s + t, p) == WithPriority(s, p) + WithPriority(t, p)
  {
    if t == [] {
      assert s + t == s;
    } else {
      assert (s + t)[..|s + t| - 1] == s + t[..|t| - 1];
      WithPriorityAppend(s, t[..|t| - 1], p);
    }
  }

  lemma WithPriorityOne(x: Entry, p: int)
    ensures WithPriority([x], p) == Part(x, p)
  {
    assert [x][..0] == [];
  }

  lemma {:induction false} InsertBelow(s: seq<Entry>, x: Entry, b: int)
    requires x.priority <= b && forall i :: 0 <= i < |s| ==> s[i].priority <= b
    ensures forall i :: 0 <= i < |Insert(s, x)| ==> Insert(s, x)[i].priority <= b
  {
    if s != [] && s[|s| - 1].priority > x.priority {
      InsertBelow(s[..|s| - 1], x, b);
    }
  }

  lemma {:induction false} InsertSorts(s: seq<Entry>, x: Entry)
    requires Sorted(s)
    ensures Sorted(Insert(s, x))
  {
    if s != [] && s[|s| - 1].priority > x.priority {
      var init, last := s[..|s| - 1], s[|s| - 1];
      InsertSorts(init, x);
      InsertBelow(init, x, last.priority);
    }
  }

  lemma {:induction false} InsertIsStable(s: seq<Entry>, x: Entry, p: int)
    ensures WithPriority(Insert(s, x), p) == WithPriority(s + [x], p)
  {
    if s != [] && s[|s| - 1].priority > x.priority {
      var init, last := s[..|s| - 1], s[|s| - 1];
      InsertIsStable(init, x, p);
      var w := WithPriority(init, p);
      assert WithPriority(Insert(s, x), p) == w + Part(x, p) + Part(last, p) by {
        WithPriorityAppend(Insert(init, x), [last], p);
        WithPriorityAppend(init, [x], p);
        WithPriorityOne(x, p);
        WithPriorityOne(last, p);
      }
      assert WithPriority(s + [x], p) == w + Part(last, p) + Part(x, p) by {
        WithPriorityAppend(s, [x], p);
        WithPriorityOne(x, p);
      }
    }
  }

  function Part(x: Entry, p: int): seq<Entry> {
    if x.priority == p then [x] else []
  }

  lemma {:induction false} SortIsStable(s: seq<Entry>)
    ensures StablySorts(s, StableSort(s))
  {
    if s != [] {
      var init, last := s[..|s| - 1], s[|s| - 1];
      SortIsStable(init);
      InsertSorts(StableSort(init), last);
      forall p ensures WithPriority(StableSort(s), p) == WithPriority(s, p) {
        InsertIsStable(StableSort(init), last, p);
        WithPriorityAppend(StableSort(init), [last], p);
        WithPriorityOne(last, p);
      }
    }
  }

  lemma {:induction false} PriorityOccurs(s: seq<Entry>, p: int)
    requires WithPriority(s, p) != []
    ensures exists i :: 0 <= i < |s| && s[i].priority == p
  {
    var last := |s| - 1;
    if s[last].priority != p {
      PriorityOccurs(s[..last], p);
      var i :| 0 <= i < last && s[..last][i].priority == p;
      assert s[i].priority == p;
    }
  }

  /** Two sorted lists with the same entries of each priority are one list: a stable sort has one result. */
  lemma {:induction false} SortedIsUnique(s: seq<Entry>, t: seq<Entry>)
    requires Sorted(s) && Sorted(t) && forall p :: WithPriority(s, p) == WithPriority(t, p)
    ensures s == t
  {
    if s == [] {
      NoPriorityMeansEmpty(t);
    } else {
      assert t != [] by {
        assert WithPriority(s, s[|s| - 1].priority) != [];
      }
      SameLast(s, t);
      var s', t' := s[..|s| - 1], t[..|t| - 1];
      forall p ensures WithPriority(s', p) == WithPriority(t', p) {
        assert WithPriority(s, p) == WithPriority(t, p);
        CancelRight(WithPriority(s', p), WithPriority(t', p), Part(s[|s| - 1], p));
      }
      SortedIsUnique(s', t');
      assert s == s' + [s[|s| - 1]] && t == t' + [t[|t| - 1]];
    }
  }

  lemma NoPriorityMeansEmpty(s: seq<Entry>)
    requires forall p :: WithPriority(s, p) == []
    ensures s == []
  {
    if s != [] {
      LastOfPriority(s);
    }
  }

  lemma SameLast(s: seq<Entry>, t: seq<Entry>)
    requires s != [] && t != [] && Sorted(s) && Sorted(t)
    requires WithPriority(s, s[|s| - 1].priority) == WithPriority(t, s[|s| - 1].priority)
    requires WithPriority(s, t[|t| - 1].priority) == WithPriority(t, t[|t| - 1].priority)
    ensures s[|s| - 1] == t[|t| - 1]
  {
    LastOfPriority(s);
    LastOfPriority(t);
    LastIsLargest(t, s[|s| - 1].priority);
    LastIsLargest(s, t[|t| - 1].priority);
  }

  lemma LastIsLargest(s: seq<Entry>, p: int)
    requires s != [] && Sorted(s) && WithPriority(s, p) != []
    ensures p <= s[|s| - 1].priority
  {
    PriorityOccurs(s, p);
  }

  lemma LastOfPriority(s: seq<Entry>)
    requires s != []
    ensures var w := WithPriority(s, s[|s| - 1].priority); w != [] && w[|w| - 1] == s[|s| - 1]
  {
  }

  lemma CancelRight(a: seq<Entry>, b: seq<Entry>, c: seq<Entry>)
    requires a + c == b + c
    ensures a == b
  {
    assert |a + c| == |b + c|;
    assert a == (a + c)[..|a|] && b == (b + c)[..|b|];
  }

  // ---------------------------------------------------------------- sorting what is sorted in parts

  /** Sorting first one part and then the whole is sorting once. */
  lemma SortParts(s: seq<Entry>, t: seq<Entry>)
    ensures StableSort(StableSort(s) + t) == StableSort(s + t)
    ensures StableSort(s + StableSort(t)) == StableSort(s + t)
  {
    SortIsStable(s);
    SortIsStable(t);
    SortIsStable(s + t);
    SortIsStable(StableSort(s) + t);
    SortIsStable(s + StableSort(t));
    forall p ensures WithPriority(StableSort(StableSort(s) + t), p) == WithPriority(StableSort(s + t), p) {
      WithPriorityAppend(StableSort(s), t, p);
      WithPriorityAppend(s, t, p);
    }
    SortedIsUnique(StableSort(StableSort(s) + t), StableSort(s + t));
    forall p ensures WithPriority(StableSort(s + StableSort(t)), p) == WithPriority(StableSort(s + t), p) {
      WithPriorityAppend(s, StableSort(t), p);
      WithPriorityAppend(s, t, p);
    }
    SortedIsUnique(StableSort(s + StableSort(t)), StableSort(s + t));
  }

  // ---------------------------------------------------------------- unregistering

  /** The entries that are not of this handler. */
  function Without(s: seq<Entry>, h: Handler): seq<Entry> {
    if s == [] then []
    else Without(s[..|s| - 1], h) + (if s[|s| - 1].handler == h then [] else [s[|s| - 1]])
  }

  /** What removal is: list by list, and of one entry exactly that of the handler. */
  lemma {:induction false} WithoutParts(s: seq<Entry>, t: seq<Entry>, h: Handler)
    ensures Without(s + t, h) == Without(s, h) + Without(t, h)
    ensures |t| == 1 ==> Without(t, h) == if t[0].handler == h then [] else t
  {
    if t == [] {
      assert s + t == s;
    } else {
      assert (s + t)[..|s + t| - 1] == s + t[..|t| - 1];
      WithoutParts(s, t[..|t| - 1], h);
    }
  }

  lemma {:induction false} WithoutBelow(s: seq<Entry>, h: Handler, b: int)
    requires forall i :: 0 <= i < |s| ==> s[i].priority <= b
    ensures forall i :: 0 <= i < |Without(s, h)| ==> Without(s, h)[i].priority <= b
  {
    if s != [] {
      WithoutBelow(s[..|s| - 1], h, b);
    }
  }

  lemma {:induction false} WithoutSorted(s: seq<Entry>, h: Handler)
    requires Sorted(s)
    ensures Sorted(Without(s, h))
  {
    if s != [] {
      WithoutSorted(s[..|s| - 1], h);
      WithoutBelow(s[..|s| - 1], h, s[|s| - 1].priority);
    }
  }

  lemma {:induction false} WithoutAppend(s: seq<Entry>, x: Entry, h: Handler)
    ensures Without(s + [x], h) == Without(s, h) + if x.handler == h then [] else [x]
  {
    assert (s + [x])[..|s + [x]| - 1] == s;
  }

  lemma {:induction false} WithoutPriority(s: seq<Entry>, h: Handler, p: int)
    ensures WithPriority(Without(s, h), p) == Without(WithPriority(s, p), h)
  {
    if s != [] {
      var init, last := s[..|s| - 1], s[|s| - 1];
      WithoutPriority(init, h, p);
      if last.handler == h {
        assert Without(s, h) == Without(init, h);
      } else {
        WithPriorityAppend(Without(init, h), [last], p);
        WithPriorityOne(last, p);
      }
      if last.priority == p {
        WithoutAppend(WithPriority(init, p), last, h);
      } else {
        assert WithPriority(s, p) == WithPriority(init, p);
      }
    }
  }

  /** Removing from the sorted list is sorting what is left. */
  lemma SortWithout(s: seq<Entry>, h: Handler)
    ensures Without(StableSort(s), h) == StableSort(Without(s, h))
  {
    SortIsStable(s);
    SortIsStable(Without(s, h));
    WithoutSorted(StableSort(s), h);
    forall p ensures WithPriority(Without(StableSort(s), h), p) == WithPriority(StableSort(Without(s, h)), p) {
      WithoutPriority(StableSort(s), h, p);
      WithoutPriority(s, h, p);
    }
    SortedIsUnique(Without(StableSort(s), h), StableSort(Without(s, h)));
  }

  // ---------------------------------------------------------------- the same entries

  lemma {:induction false} InsertKeepsEntries(s: seq<Entry>, x: Entry)
    ensures multiset(Insert(s, x)) == multiset(s) + multiset{x}
  {
    if s != [] && s[|s| - 1].priority > x.priority {
      InsertKeepsEntries(s[..|s| - 1], x);
      assert s == s[..|s| - 1] + [s[|s| - 1]];
    }
  }

  lemma {:induction false} SortKeepsEntries(s: seq<Entry>)
    ensures multiset(StableSort(s)) == multiset(s)
  {
    if s != [] {
      SortKeepsEntries(s[..|s| - 1]);
      InsertKeepsEntries(StableSort(s[..|s| - 1]), s[|s| - 1]);
      assert s == s[..|s| - 1] + [s[|s| - 1]];
    }
  }

  lemma {:induction false} WithoutKeepsEntries(s: seq<Entry>, h: Handler)
    ensures multiset(Without(s, h)) <= multiset(s)
  {
    if s != [] {
      WithoutKeepsEntries(s[..|s| - 1], h);
      assert s == s[..|s| - 1] + [s[|s| - 1]];
    }
  }
}
