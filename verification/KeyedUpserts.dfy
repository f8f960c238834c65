/** Writing a list of items into a keyed table, one by one: only the order within each key matters. */
module KeyedUpserts {
  import opened Basics

  /** The items of one key, in order. */
  function ForKey<I>(items: seq<I>, key: I -> string, k: string): seq<I>
  {
    if items == [] then []
    else
      var last := items[|items| - 1];
      ForKey(items[..|items| - 1], key, k) + (if key(last) == k then [last] else [])
  }

  function Upsert<I, R>(rows: map<string, R>, item: I, key: I -> string, merge: (Option<R>, I) -> R): map<string, R>
  {
    var k := key(item);
    rows[k := merge(if k in rows then Some(rows[k]) else None, item)]
  }

  function UpsertAll<I, R>(rows: map<string, R>, items: seq<I>, key: I -> string, merge: (Option<R>, I) -> R): map<string, R>
  {
    if items == [] then rows
    else Upsert(UpsertAll(rows, items[..|items| - 1], key, merge), items[|items| - 1], key, merge)
  }

  /** One row after the items of its key. */
  function MergeAll<I, R>(row: Option<R>, items: seq<I>, merge: (Option<R>, I) -> R): Option<R>
  {
    if items == [] then row else Some(merge(MergeAll(row, items[..|items| - 1], merge), items[|items| - 1]))
  }

  function Lookup<R>(rows: map<string, R>, k: string): Option<R>
  {
    if k in rows then Some(rows[k]) else None
  }

  /** A row depends on its own items alone. */
  lemma {:induction false} UpsertAllAt<I, R>(rows: map<string, R>, items: seq<I>, key: I -> string,
                                             merge: (Option<R>, I) -> R, k: string)
    ensures Lookup(UpsertAll(rows, items, key, merge), k) == MergeAll(Lookup(rows, k), ForKey(items, key, k), merge)
  {
    if items != [] {
      var front, last := items[..|items| - 1], items[|items| - 1];
      UpsertAllAt(rows, front, key, merge, k);
      if key(last) == k {
        var mine := ForKey(items, key, k);
        assert mine == ForKey(front, key, k) + [last];
        assert mine[..|mine| - 1] == ForKey(front, key, k);
      } else {
        assert ForKey(items, key, k) == ForKey(front, key, k);
      }
    }
  }

  /** So any reordering that keeps each key's items in order writes the same table. */
  lemma {:induction false} ReorderingKeepsTable<I, R>(rows: map<string, R>, a: seq<I>, b: seq<I>, key: I -> string,
                                                      merge: (Option<R>, I) -> R)
    requires forall k :: ForKey(a, key, k) == ForKey(b, key, k)
    ensures UpsertAll(rows, a, key, merge) == UpsertAll(rows, b, key, merge)
  {
    var x, y := UpsertAll(rows, a, key, merge), UpsertAll(rows, b, key, merge);
    forall k ensures Lookup(x, k) == Lookup(y, k) {
      UpsertAllAt(rows, a, key, merge, k);
      UpsertAllAt(rows, b, key, merge, k);
    }
    assert forall k :: k in x ==> Lookup(x, k).Some? && Lookup(y, k) == Some(x[k]);
    assert forall k :: k in y ==> Lookup(y, k).Some? && Lookup(x, k) == Some(y[k]);
  }

  lemma {:induction false} ForKeyAppend<I>(a: seq<I>, b: seq<I>, key: I -> string, k: string)
    ensures ForKey(a + b, key, k) == ForKey(a, key, k) + ForKey(b, key, k)
  {
    if b == [] {
      assert a + b == a;
    } else {
      assert (a + b)[..|a + b| - 1] == a + b[..|b| - 1];
      ForKeyAppend(a, b[..|b| - 1], key, k);
    }
  }

  lemma {:induction false} UpsertAllAppend<I, R>(rows: map<string, R>, a: seq<I>, b: seq<I>, key: I -> string,
                                                 merge: (Option<R>, I) -> R)
    ensures UpsertAll(rows, a + b, key, merge) == UpsertAll(UpsertAll(rows, a, key, merge), b, key, merge)
  {
    if b == [] {
      assert a + b == a;
    } else {
      assert (a + b)[..|a + b| - 1] == a + b[..|b| - 1];
      UpsertAllAppend(rows, a, b[..|b| - 1], key, merge);
    }
  }

  // ---- stable sorting ----

  predicate SortedBy<I>(s: seq<I>, key: I -> string)
  {
    forall i: nat, j: nat :: i < j < |s| ==> StrLeq(key(s[i]), key(s[j]))
  }

  function Insert<I>(s: seq<I>, x: I, key: I -> string): seq<I>
  {
    if s == [] || StrLeq(key(s[|s| - 1]), key(x)) then s + [x]
    else Insert(s[..|s| - 1], x, key) + [s[|s| - 1]]
  }

  /** The items by key, those of one key in their given order. */
  function StableSort<I>(s: seq<I>, key: I -> string): seq<I>
  {
    if s == [] then [] else Insert(StableSort(s[..|s| - 1], key), s[|s| - 1], key)
  }

  lemma {:induction false} InsertHas<I>(s: seq<I>, x: I, key: I -> string, y: I)
    ensures y in Insert(s, x, key) <==> y in s || y == x
  {
    if s != [] && !StrLeq(key(s[|s| - 1]), key(x)) {
      InsertHas(s[..|s| - 1], x, key, y);
      assert s == s[..|s| - 1] + [s[|s| - 1]];
    }
  }

  lemma {:induction false} InsertSorts<I>(s: seq<I>, x: I, key: I -> string)
    requires SortedBy(s, key)
    ensures SortedBy(Insert(s, x, key), key)
  {
    if s != [] && !StrLeq(key(s[|s| - 1]), key(x)) {
      var front, last := s[..|s| - 1], s[|s| - 1];
      InsertSorts(front, x, key);
      var r := Insert(front, x, key);
      StrLessTotal(key(last), key(x));
      forall i: nat | i < |r| ensures StrLeq(key(r[i]), key(last)) {
        InsertHas(front, x, key, r[i]);
        if r[i] in front {
          var j: nat :| j < |front| && front[j] == r[i];
          assert StrLeq(key(s[j]), key(s[|s| - 1]));
        }
      }
    } else if s != [] {
      forall i: nat | i < |s| ensures StrLeq(key(s[i]), key(x)) {
        LeqTrans(key(s[i]), key(s[|s| - 1]), key(x));
      }
    }
  }

  lemma {:induction false} LeqTrans(a: string, b: string, c: string)
    requires StrLeq(a, b) && StrLeq(b, c)
    ensures StrLeq(a, c)
  {
    if a != b && b != c { StrLessTrans(a, b, c); }
  }

  lemma {:induction false} InsertForKey<I>(s: seq<I>, x: I, key: I -> string, k: string)
    requires SortedBy(s, key)
    ensures ForKey(Insert(s, x, key), key, k) == ForKey(s + [x], key, k)
  {
    if s != [] && !StrLeq(key(s[|s| - 1]), key(x)) {
      var front, last := s[..|s| - 1], s[|s| - 1];
      InsertForKey(front, x, key, k);
      var r := Insert(s, x, key);
      assert r[..|r| - 1] == Insert(front, x, key);
      assert (front + [x])[..|front|] == front;
      assert (s + [x])[..|s|] == s;
    }
  }

  lemma {:induction false} StableSortHas<I>(s: seq<I>, key: I -> string, y: I)
    ensures y in StableSort(s, key) <==> y in s
  {
    if s != [] {
      StableSortHas(s[..|s| - 1], key, y);
      InsertHas(StableSort(s[..|s| - 1], key), s[|s| - 1], key, y);
      assert s == s[..|s| - 1] + [s[|s| - 1]];
    }
  }

  lemma {:induction false} StableSortSorts<I>(s: seq<I>, key: I -> string)
    ensures SortedBy(StableSort(s, key), key)
  {
    if s != [] {
      StableSortSorts(s[..|s| - 1], key);
      InsertSorts(StableSort(s[..|s| - 1], key), s[|s| - 1], key);
    }
  }

  /** Sorting keeps the order within each key. */
  lemma {:induction false} StableSortForKey<I>(s: seq<I>, key: I -> string, k: string)
    ensures ForKey(StableSort(s, key), key, k) == ForKey(s, key, k)
  {
    if s != [] {
      var front, last := s[..|s| - 1], s[|s| - 1];
      var sorted := StableSort(front, key);
      StableSortForKey(front, key, k);
      StableSortSorts(front, key);
      assert StableSort(s, key) == Insert(sorted, last, key);
      assert front + [last] == s;
      hide SortedBy, ForKey, Insert, StableSort;
      InsertForKey(sorted, last, key, k);
      ForKeyAppend(sorted, [last], key, k);
      ForKeyAppend(front, [last], key, k);
    }
  }

  // ---- sorting and compacting names ----

  function Self(s: string): string
  {
    s
  }

  function Compact(s: seq<string>): seq<string>
  {
    if |s| <= 1 then s
    else
      var front := Compact(s[..|s| - 1]);
      if s[|s| - 2] == s[|s| - 1] then front else front + [s[|s| - 1]]
  }

  predicate StrictlyAscending(s: seq<string>)
  {
    forall i: nat, j: nat :: i < j < |s| ==> StrLess(s[i], s[j])
  }

  lemma {:induction false} CompactSpec(s: seq<string>)
    requires SortedBy(s, Self)
    ensures StrictlyAscending(Compact(s))
    ensures forall y :: y in Compact(s) <==> y in s
    ensures s != [] ==> Compact(s) != [] && Compact(s)[|Compact(s)| - 1] == s[|s| - 1]
  {
    if |s| > 1 {
      var front := s[..|s| - 1];
      CompactSpec(front);
      var c := Compact(front);
      var x, last := s[|s| - 2], s[|s| - 1];
      assert s == front + [last];
      assert StrLeq(Self(x), Self(last));
      if x != last {
        forall i: nat | i < |c| ensures StrLess(c[i], last) {
          if i < |c| - 1 { StrLessTrans(c[i], x, last); }
        }
      }
    }
  }

  function SortedNames(s: seq<string>): seq<string>
  {
    Compact(StableSort(s, Self))
  }

  /** Every name once, in order. */
  lemma {:induction false} SortedNamesSpec(s: seq<string>)
    ensures StrictlyAscending(SortedNames(s))
    ensures forall y :: y in SortedNames(s) <==> y in s
  {
    StableSortSorts(s, Self);
    CompactSpec(StableSort(s, Self));
    forall y ensures y in SortedNames(s) <==> y in s {
      StableSortHas(s, Self, y);
    }
  }

  // ---- grouping by name ----

  /** The items of each name in turn. */
  function Grouped<I>(items: seq<I>, key: I -> string, names: seq<string>): seq<I>
  {
    if names == [] then []
    else Grouped(items, key, names[..|names| - 1]) + ForKey(items, key, names[|names| - 1])
  }

  lemma {:induction false} ForKeyTwice<I>(items: seq<I>, key: I -> string, name: string, k: string)
    ensures ForKey(ForKey(items, key, name), key, k) == if k == name then ForKey(items, key, k) else []
  {
    if items != [] {
      var front, last := items[..|items| - 1], items[|items| - 1];
      ForKeyTwice(front, key, name, k);
      ForKeyAppend(ForKey(front, key, name), if key(last) == name then [last] else [], key, k);
    }
  }

  lemma {:induction false} LastIsNew(names: seq<string>)
    requires StrictlyAscending(names) && names != []
    ensures names[|names| - 1] !in names[..|names| - 1] && StrictlyAscending(names[..|names| - 1])
  {
    StrLessIrreflexive(names[|names| - 1]);
  }

  lemma {:induction false} GroupedLast<I>(items: seq<I>, key: I -> string, names: seq<string>, k: string)
    requires names != []
    ensures var front, last := names[..|names| - 1], names[|names| - 1];
            ForKey(Grouped(items, key, names), key, k)
            == ForKey(Grouped(items, key, front), key, k) + (if k == last then ForKey(items, key, k) else [])
  {
    var front, last := names[..|names| - 1], names[|names| - 1];
    assert Grouped(items, key, names) == Grouped(items, key, front) + ForKey(items, key, last);
    hide Grouped, ForKey;
    ForKeyTwice(items, key, last, k);
    ForKeyAppend(Grouped(items, key, front), ForKey(items, key, last), key, k);
  }

  lemma {:induction false} InLast(names: seq<string>, k: string)
    requires names != []
    ensures k in names <==> k in names[..|names| - 1] || k == names[|names| - 1]
  {
    assert names == names[..|names| - 1] + [names[|names| - 1]];
  }

  lemma {:induction false} GroupedForKey<I>(items: seq<I>, key: I -> string, names: seq<string>, k: string)
    requires StrictlyAscending(names)
    ensures ForKey(Grouped(items, key, names), key, k) == if k in names then ForKey(items, key, k) else []
  {
    if names != [] {
      LastIsNew(names);
      hide StrictlyAscending, Grouped, ForKey;
      GroupedForKey(items, key, names[..|names| - 1], k);
      GroupedLast(items, key, names, k);
      InLast(names, k);
    }
  }
}
