/** Sharing one item budget between direct messages and mentions, and grouping both into sections (server/src/digest.rs). */
module Grouping {
  import opened Ordering

  /** A missed message: what it is grouped by, what its section would be called, and the message. */
  datatype Row<K, V> = Row(key: K, name: string, item: V)

  datatype Section<K, V> = Section(key: K, name: string, items: seq<V>)

  /** A map in key order: the sections sorted by key. */
  ghost predicate Sorted<K, V>(ss: seq<Section<K, V>>, less: (K, K) -> bool) {
    forall i, j :: 0 <= i < j < |ss| ==> less(ss[i].key, ss[j].key)
  }

  /** The row goes to the end of its section, which is made in its place if it is not there. */
  function Put<K(==), V>(ss: seq<Section<K, V>>, r: Row<K, V>, less: (K, K) -> bool): seq<Section<K, V>> {
    if ss == [] || less(r.key, ss[0].key) then
      [Section(r.key, r.name, [r.item])] + ss
    else if ss[0].key == r.key then
      [ss[0].(items := ss[0].items + [r.item])] + ss[1..]
    else
      [ss[0]] + Put(ss[1..], r, less)
  }

  // ----- what the sections hold, told row by row -----

  function ItemsOf<K(==), V>(rows: seq<Row<K, V>>, k: K): seq<V> {
    if rows == [] then []
    else ItemsOf(rows[..|rows| - 1], k) + if rows[|rows| - 1].key == k then [rows[|rows| - 1].item] else []
  }

  /** The name the first row of a key gives. */
  function FirstName<K(==), V>(rows: seq<Row<K, V>>, k: K): string {
    if rows == [] then "" else if rows[0].key == k then rows[0].name else FirstName(rows[1..], k)
  }

  function ItemsAt<K(==), V>(ss: seq<Section<K, V>>, k: K): seq<V> {
    if ss == [] then [] else if ss[0].key == k then ss[0].items else ItemsAt(ss[1..], k)
  }

  function Total<K, V>(ss: seq<Section<K, V>>): nat {
    if ss == [] then 0 else |ss[0].items| + Total(ss[1..])
  }

  /** Sections in key order without repetition; each holds exactly the rows of its key, in their order, under the name of the first. */
  ghost predicate Grouped<K(!new), V>(ss: seq<Section<K, V>>, rows: seq<Row<K, V>>, less: (K, K) -> bool) {
    && Sorted(ss, less)
    && (forall k :: ItemsAt(ss, k) == ItemsOf(rows, k))
    && (forall s :: s in ss ==> s.items != [] && s.name == FirstName(rows, s.key))
    && Total(ss) == |rows|
  }

  lemma SortedTail<K, V>(ss: seq<Section<K, V>>, less: (K, K) -> bool)
    requires ss != [] && Sorted(ss, less)
    ensures Sorted(ss[1..], less) && forall s :: s in ss[1..] ==> less(ss[0].key, s.key)
  {
  }

  lemma {:induction false} NotThere<K(!new), V>(ss: seq<Section<K, V>>, k: K)
    requires forall s :: s in ss ==> s.key != k
    ensures ItemsAt(ss, k) == []
  {
    if ss != [] {
      NotThere(ss[1..], k);
    }
  }

  lemma {:induction false} There<K(!new), V>(ss: seq<Section<K, V>>, k: K) returns (i: nat)
    requires ItemsAt(ss, k) != []
    ensures i < |ss| && ss[i].key == k && ss[i].items == ItemsAt(ss, k)
  {
    if ss[0].key == k {
      i := 0;
    } else {
      i := There(ss[1..], k);
      i := i + 1;
    }
  }

  lemma {:induction false} PutItems<K(!new), V>(ss: seq<Section<K, V>>, r: Row<K, V>, less: (K, K) -> bool, k: K)
    requires StrictOrder(less) && Sorted(ss, less)
    ensures ItemsAt(Put(ss, r, less), k) == ItemsAt(ss, k) + if r.key == k then [r.item] else []
  {
    if ss == [] || less(r.key, ss[0].key) {
      assert ([Section(r.key, r.name, [r.item])] + ss)[1..] == ss;
      if k == r.key {
        NotThere(ss, k);
      }
    } else if ss[0].key != r.key {
      SortedTail(ss, less);
      assert ([ss[0]] + Put(ss[1..], r, less))[1..] == Put(ss[1..], r, less);
      PutItems(ss[1..], r, less, k);
    }
  }

  lemma {:induction false} PutKeys<K(!new), V>(ss: seq<Section<K, V>>, r: Row<K, V>, less: (K, K) -> bool)
    requires StrictOrder(less) && Sorted(ss, less)
    ensures Sorted(Put(ss, r, less), less)
    ensures forall s :: s in Put(ss, r, less) ==> s.key == r.key || exists t :: t in ss && t.key == s.key
  {
    if ss != [] && !less(r.key, ss[0].key) {
      SortedTail(ss, less);
      if ss[0].key != r.key {
        PutKeys(ss[1..], r, less);
        var rest := Put(ss[1..], r, less);
        forall s | s in rest
          ensures less(ss[0].key, s.key)
        {
        }
      }
    }
  }

  lemma {:induction false} PutTotal<K, V>(ss: seq<Section<K, V>>, r: Row<K, V>, less: (K, K) -> bool)
    ensures Total(Put(ss, r, less)) == Total(ss) + 1
  {
    if ss == [] || less(r.key, ss[0].key) {
      assert ([Section(r.key, r.name, [r.item])] + ss)[1..] == ss;
    } else if ss[0].key != r.key {
      assert ([ss[0]] + Put(ss[1..], r, less))[1..] == Put(ss[1..], r, less);
      PutTotal(ss[1..], r, less);
    }
  }

  lemma {:induction false} KeyThere<K(!new), V>(rows: seq<Row<K, V>>, k: K)
    ensures ItemsOf(rows, k) != [] <==> exists r :: r in rows && r.key == k
  {
    if rows != [] {
      var n := |rows| - 1;
      KeyThere(rows[..n], k);
      assert rows[n] in rows && forall r :: r in rows ==> r in rows[..n] || r == rows[n];
    }
  }

  lemma {:induction false} FirstNameKept<K(!new), V>(rows: seq<Row<K, V>>, r: Row<K, V>, k: K)
    ensures ItemsOf(rows, k) != [] ==> FirstName(rows + [r], k) == FirstName(rows, k)
    ensures ItemsOf(rows, k) == [] && r.key == k ==> FirstName(rows + [r], k) == r.name
  {
    KeyThere(rows, k);
    if rows == [] {
      assert rows + [r] == [r];
    } else {
      assert (rows + [r])[1..] == rows[1..] + [r] && rows[0] in rows;
      KeyThere(rows[1..], k);
      FirstNameKept(rows[1..], r, k);
    }
  }

  /** A section of the result is an old one, the one that grew, or a new one for a key that was not there. */
  lemma {:induction false} PutSection<K(!new), V>(ss: seq<Section<K, V>>, r: Row<K, V>, less: (K, K) -> bool, s: Section<K, V>)
    requires StrictOrder(less) && Sorted(ss, less) && s in Put(ss, r, less)
    ensures || s in ss
            || (s == Section(r.key, r.name, [r.item]) && ItemsAt(ss, r.key) == [])
            || exists t :: t in ss && t.key == r.key && s == t.(items := t.items + [r.item])
  {
    if ss == [] || less(r.key, ss[0].key) {
      if s !in ss {
        NotThere(ss, r.key);
      }
    } else if ss[0].key != r.key && s != ss[0] {
      SortedTail(ss, less);
      PutSection(ss[1..], r, less, s);
    }
  }

  lemma {:induction false} ItemsAtOf<K(!new), V>(ss: seq<Section<K, V>>, less: (K, K) -> bool, s: Section<K, V>)
    requires StrictOrder(less) && Sorted(ss, less) && s in ss
    ensures ItemsAt(ss, s.key) == s.items
  {
    if s != ss[0] {
      SortedTail(ss, less);
      ItemsAtOf(ss[1..], less, s);
    }
  }

  lemma PutName<K(!new), V>(ss: seq<Section<K, V>>, rows: seq<Row<K, V>>, r: Row<K, V>, less: (K, K) -> bool, s: Section<K, V>)
    requires StrictOrder(less) && Grouped(ss, rows, less) && s in Put(ss, r, less)
    ensures s.items != [] && s.name == FirstName(rows + [r], s.key)
  {
    PutSection(ss, r, less, s);
    FirstNameKept(rows, r, s.key);
    if s in ss {
      ItemsAtOf(ss, less, s);
    } else if ItemsAt(ss, r.key) != [] || s != Section(r.key, r.name, [r.item]) {
      var t :| t in ss && t.key == r.key && s == t.(items := t.items + [r.item]);
      ItemsAtOf(ss, less, t);
    }
  }

  lemma PutGroups<K(!new), V>(ss: seq<Section<K, V>>, rows: seq<Row<K, V>>, r: Row<K, V>, less: (K, K) -> bool)
    requires StrictOrder(less) && Grouped(ss, rows, less)
    ensures Grouped(Put(ss, r, less), rows + [r], less)
  {
    PutKeys(ss, r, less);
    PutTotal(ss, r, less);
    assert (rows + [r])[..|rows|] == rows;
    forall k
      ensures ItemsAt(Put(ss, r, less), k) == ItemsOf(rows + [r], k)
    {
      PutItems(ss, r, less, k);
    }
    forall s | s in Put(ss, r, less)
      ensures s.items != [] && s.name == FirstName(rows + [r], s.key)
    {
      PutName(ss, rows, r, less, s);
    }
  }

  lemma NothingGrouped<K(!new), V>(rows: seq<Row<K, V>>, less: (K, K) -> bool)
    ensures Grouped([], rows[..0], less)
  {
  }

  /** The next row of a longer list. */
  lemma PutNext<K(!new), V>(ss: seq<Section<K, V>>, rows: seq<Row<K, V>>, i: nat, less: (K, K) -> bool)
    requires StrictOrder(less) && i < |rows| && Grouped(ss, rows[..i], less)
    ensures Grouped(Put(ss, rows[i], less), rows[..i + 1], less)
  {
    PutGroups(ss, rows[..i], rows[i], less);
    hide Grouped, Put, StrictOrder;
    assert rows[..i] + [rows[i]] == rows[..i + 1];
  }

  lemma GroupedTotal<K(!new), V>(ss: seq<Section<K, V>>, rows: seq<Row<K, V>>, less: (K, K) -> bool)
    requires Grouped(ss, rows, less)
    ensures Total(ss) == |rows|
  {
  }

  // ----- the description leaves no choice -----

  lemma FirstKeyThere<K(!new), V>(a: seq<Section<K, V>>, b: seq<Section<K, V>>, less: (K, K) -> bool)
    requires StrictOrder(less) && Sorted(a, less) && Sorted(b, less) && a != [] && a[0].items != []
    requires forall k :: ItemsAt(a, k) == ItemsAt(b, k)
    ensures b != [] && !less(a[0].key, b[0].key)
  {
    assert ItemsAt(b, a[0].key) == a[0].items;
    var i := There(b, a[0].key);
  }

  lemma SameFirst<K(!new), V>(a: seq<Section<K, V>>, b: seq<Section<K, V>>, less: (K, K) -> bool)
    requires StrictOrder(less) && Sorted(a, less) && Sorted(b, less) && a != [] && a[0].items != []
    requires forall k :: ItemsAt(a, k) == ItemsAt(b, k)
    requires b != [] ==> b[0].items != [] && (a[0].key == b[0].key ==> a[0].name == b[0].name)
    ensures b != [] && a[0] == b[0]
  {
    FirstKeyThere(a, b, less);
    FirstKeyThere(b, a, less);
    assert a[0].key == b[0].key && ItemsAt(a, a[0].key) == ItemsAt(b, a[0].key);
  }

  lemma SameTailItems<K(!new), V>(a: seq<Section<K, V>>, b: seq<Section<K, V>>, less: (K, K) -> bool, k: K)
    requires StrictOrder(less) && Sorted(a, less) && Sorted(b, less) && a != [] && b != [] && a[0].key == b[0].key
    requires ItemsAt(a, k) == ItemsAt(b, k)
    ensures ItemsAt(a[1..], k) == ItemsAt(b[1..], k)
  {
    SortedTail(a, less);
    SortedTail(b, less);
    if k == a[0].key {
      NotThere(a[1..], k);
      NotThere(b[1..], k);
    }
  }

  lemma {:induction false} SameItemsSameSections<K(!new), V>(a: seq<Section<K, V>>, b: seq<Section<K, V>>, less: (K, K) -> bool, name: K -> string)
    requires StrictOrder(less) && Sorted(a, less) && Sorted(b, less)
    requires forall k :: ItemsAt(a, k) == ItemsAt(b, k)
    requires forall s :: s in a ==> s.items != [] && s.name == name(s.key)
    requires forall s :: s in b ==> s.items != [] && s.name == name(s.key)
    ensures a == b
  {
    if a == [] {
      if b != [] {
        assert b[0] in b;
        FirstKeyThere(b, a, less);
      }
    } else {
      assert a[0] in a && (b != [] ==> b[0] in b);
      SameFirst(a, b, less);
      SortedTail(a, less);
      SortedTail(b, less);
      forall k
        ensures ItemsAt(a[1..], k) == ItemsAt(b[1..], k)
      {
        SameTailItems(a, b, less, k);
      }
      SameItemsSameSections(a[1..], b[1..], less, name);
      assert a == [a[0]] + a[1..] && b == [b[0]] + b[1..];
    }
  }

  /** Only one list of sections fits the description. */
  lemma GroupedIsUnique<K(!new), V>(a: seq<Section<K, V>>, b: seq<Section<K, V>>, rows: seq<Row<K, V>>, less: (K, K) -> bool)
    requires StrictOrder(less) && Grouped(a, rows, less) && Grouped(b, rows, less)
    ensures a == b
  {
    forall k
      ensures ItemsAt(a, k) == ItemsAt(b, k)
    {
      assert ItemsAt(a, k) == ItemsOf(rows, k);
    }
    SameItemsSameSections(a, b, less, k => FirstName(rows, k));
  }

  // ----- one digest -----

  function Min(a: nat, b: nat): nat {
    if a <= b then a else b
  }

  method BuildRoomSections<V>(mentions: seq<Row<int, V>>, budget: nat)
    returns (sections: seq<Section<int, V>>, overflow: nat, left: nat)
    ensures Grouped(sections, mentions[..Min(|mentions|, budget)], IntLess)
    ensures Total(sections) + overflow == |mentions| && Total(sections) + left == budget
  {
    assert StrictOrder(IntLess);
    hide Grouped, Put, Total, StrictOrder;
    sections, overflow, left := [], 0, budget;
    NothingGrouped(mentions, IntLess);
    var i := 0;
    while i < |mentions|
      invariant i <= |mentions|
      invariant left == budget - Min(i, budget) && overflow == i - Min(i, budget)
      invariant Grouped(sections, mentions[..Min(i, budget)], IntLess)
    {
      if left == 0 {
        overflow := overflow + 1;
      } else {
        PutNext(sections, mentions, i, IntLess);
        sections := Put(sections, mentions[i], IntLess);
        left := left - 1;
      }
      i := i + 1;
    }
    GroupedTotal(sections, mentions[..Min(|mentions|, budget)], IntLess);
  }

  method BuildDmSections<V>(dms: seq<Row<string, V>>, budget: nat)
    returns (sections: seq<Section<string, V>>, overflow: nat, left: nat)
    ensures Grouped(sections, dms[..Min(|dms|, budget)], StringLess)
    ensures Total(sections) + overflow == |dms| && Total(sections) + left == budget
  {
    StringOrder();
    hide Grouped, Put, Total, StrictOrder;
    sections, overflow, left := [], 0, budget;
    NothingGrouped(dms, StringLess);
    var i := 0;
    while i < |dms|
      invariant i <= |dms|
      invariant left == budget - Min(i, budget) && overflow == i - Min(i, budget)
      invariant Grouped(sections, dms[..Min(i, budget)], StringLess)
    {
      if left == 0 {
        overflow := overflow + 1;
      } else {
        PutNext(sections, dms, i, StringLess);
        sections := Put(sections, dms[i], StringLess);
        left := left - 1;
      }
      i := i + 1;
    }
    GroupedTotal(sections, dms[..Min(|dms|, budget)], StringLess);
  }

  /** Direct messages take what they can of the budget; mentions share what is left. */
  method BuildSections<V, W>(dms: seq<Row<string, V>>, mentions: seq<Row<int, W>>, maxItems: nat)
    returns (dmSections: seq<Section<string, V>>, roomSections: seq<Section<int, W>>, overflow: nat)
    ensures Grouped(dmSections, dms[..Min(|dms|, maxItems)], StringLess)
    ensures Grouped(roomSections, mentions[..Min(|mentions|, maxItems - Min(|dms|, maxItems))], IntLess)
    ensures Total(dmSections) + Total(roomSections) == Min(maxItems, |dms| + |mentions|)
    ensures Total(dmSections) + Total(roomSections) + overflow == |dms| + |mentions|
  {
    var budget, more;
    dmSections, overflow, budget := BuildDmSections(dms, maxItems);
    roomSections, more, budget := BuildRoomSections(mentions, budget);
    overflow := overflow + more;
  }
}
