/** The cache's index from keys to file descriptors: a table that doubles as it is filled, is
    sorted once, and is searched by bisection. */
module SimpleCache {
  datatype Item = Item(fildes: int, key: string)

  // ---------------------------------------------------------------- strcmp is a total order

  /** strcmp; only the sign of the result is meaningful. */
  function Strcmp(a: string, b: string): int {
    if a == [] && b == [] then 0
    else if a == [] then -1
    else if b == [] then 1
    else if a[0] < b[0] then -1
    else if a[0] > b[0] then 1
    else Strcmp(a[1..], b[1..])
  }

  lemma {:induction false} ZeroMeansEqual(a: string, b: string)
    ensures Strcmp(a, b) == 0 <==> a == b
  {
    if a == [] || b == [] {
    } else {
      assert a == [a[0]] + a[1..] && b == [b[0]] + b[1..];
      ZeroMeansEqual(a[1..], b[1..]);
    }
  }

  lemma {:induction false} OppositeSigns(a: string, b: string)
    ensures Strcmp(a, b) < 0 <==> Strcmp(b, a) > 0
  {
    if a == [] || b == [] {
    } else {
      OppositeSigns(a[1..], b[1..]);
    }
  }

  lemma {:induction false} AtMostIsTransitive(a: string, b: string, c: string)
    requires Strcmp(a, b) <= 0 && Strcmp(b, c) <= 0
    ensures Strcmp(a, c) <= 0
    ensures Strcmp(a, b) < 0 || Strcmp(b, c) < 0 ==> Strcmp(a, c) < 0
  {
    if a == [] || b == [] || c == [] || !(a[0] == b[0] == c[0]) {
    } else {
      AtMostIsTransitive(a[1..], b[1..], c[1..]);
    }
  }

  /** The strings agree up to i, and a has the smaller character there. */
  predicate SmallerAt(a: string, b: string, i: nat) {
    i < |a| && i < |b| && a[..i] == b[..i] && a[i] < b[i]
  }

  lemma SameStart(a: string, b: string, i: nat)
    requires i <= |a| && i <= |b| && a[..i] == b[..i]
    ensures forall j :: 0 <= j < i ==> a[j] == b[j]
  {
    forall j | 0 <= j < i ensures a[j] == b[j] {
      assert a[..i][j] == b[..i][j];
    }
  }

  lemma SmallerShifts(a: string, b: string, i: nat)
    requires a != [] && b != [] && a[0] == b[0]
    ensures SmallerAt(a, b, i + 1) <==> SmallerAt(a[1..], b[1..], i)
    ensures !SmallerAt(a, b, 0)
  {
    if i + 1 < |a| && i + 1 < |b| {
      assert a[..i + 1] == [a[0]] + a[1..][..i] && b[..i + 1] == [b[0]] + b[1..][..i];
    }
  }

  /** The order is the lexicographic one: a string comes before those that extend it, and otherwise the
      first difference decides. */
  lemma {:induction false} OrderIsLexicographic(a: string, b: string)
    ensures Strcmp(a, b) < 0 <==> a < b || exists i: nat :: SmallerAt(a, b, i)
  {
    if a == [] || b == [] {
    } else if a[0] != b[0] {
      assert a[0] < b[0] ==> SmallerAt(a, b, 0);
      forall i: nat | SmallerAt(a, b, i) ensures i == 0 {
        SameStart(a, b, i);
      }
    } else {
      OrderIsLexicographic(a[1..], b[1..]);
      assert a == [a[0]] + a[1..] && b == [b[0]] + b[1..];
      assert a < b <==> a[1..] < b[1..];
      if i: nat :| SmallerAt(a, b, i) {
        SmallerShifts(a, b, 0);
        SmallerShifts(a, b, i - 1);
      }
      if i: nat :| SmallerAt(a[1..], b[1..], i) {
        SmallerShifts(a, b, i);
      }
    }
  }

  predicate Sorted(s: seq<Item>) {
    forall i, j :: 0 <= i < j < |s| ==> Strcmp(s[i].key, s[j].key) <= 0
  }

  // ---------------------------------------------------------------- the index

  const INITIAL_CAPACITY := 16

  ghost predicate Power(n: nat)
  {
    n == INITIAL_CAPACITY || (n % 2 == 0 && n > INITIAL_CAPACITY && Power(n / 2))
  }

  class Index {
    var items: array<Item>
    var nitems: nat
    /** The entries in the order of the file. */
    ghost var loaded: seq<Item>

    constructor ()
      ensures nitems == 0 && items.Length == INITIAL_CAPACITY && fresh(items)
    {
      items := new Item[INITIAL_CAPACITY](_ => Item(0, ""));
      nitems, loaded := 0, [];
    }

    /** The table in use, with room for one more line. */
    ghost predicate Valid()
      reads this, items
    {
      && nitems < items.Length && Sorted(items[..nitems]) && multiset(items[..nitems]) == multiset(loaded)
      && forall i :: 0 <= i < nitems ==> items[i].fildes >= 0
    }

    ghost function Table(): seq<Item>
      reads this, items
      requires nitems <= items.Length
    {
      items[..nitems]
    }

    /** realloc to twice the capacity: the old entries move to a larger array. */
    method Double()
      requires nitems == items.Length
      modifies `items
      ensures fresh(items) && items.Length == 2 * old(items.Length)
      ensures nitems == old(nitems) && items[..nitems] == old(items[..nitems])
    {
      var larger := new Item[2 * items.Length](_ => Item(0, ""));
      for i := 0 to nitems
        invariant forall j :: 0 <= j < i ==> larger[j] == items[j]
        modifies larger
      {
        larger[i] := items[i];
      }
      items := larger;
    }

    /** The reading loop of simplecache_init.  An entry whose file cannot be opened (a negative
        descriptor) ends the program, which `ok` reports. */
    method Load(entries: seq<Item>) returns (ok: bool)
      requires nitems == 0 && items.Length == INITIAL_CAPACITY
      modifies this, items
      ensures ok <==> forall i :: 0 <= i < |entries| ==> entries[i].fildes >= 0
      ensures nitems < items.Length && Power(items.Length) && (items == old(items) || fresh(items))
      ensures items.Length == INITIAL_CAPACITY || items.Length <= 2 * nitems
      ensures ok ==> Table() == entries
    {
      for i := 0 to |entries|
        invariant nitems == i < items.Length && Power(items.Length)
        invariant items.Length == INITIAL_CAPACITY || items.Length <= 2 * nitems
        invariant items == old(items) || fresh(items)
        invariant items[..nitems] == entries[..i]
        invariant forall j :: 0 <= j < i ==> entries[j].fildes >= 0
      {
        items[nitems] := entries[i];
        if items[nitems].fildes < 0 {
          return false;
        }
        nitems := nitems + 1;
        assert items[..nitems] == entries[..i + 1];
        if nitems == items.Length {
          Double();
        }
      }
      ok := true;
    }

    /** qsort leaves some sorted arrangement of the entries; `sorted` says which.  Where keys are
        repeated there are several. */
    method Qsort(sorted: seq<Item>)
      requires nitems < items.Length
      requires Sorted(sorted) && multiset(sorted) == multiset(items[..nitems]) && |sorted| == nitems
      modifies items
      ensures items[..nitems] == sorted
    {
      for i := 0 to nitems
        invariant items[..i] == sorted[..i]
      {
        items[i] := sorted[i];
      }
    }

    /** simplecache_init */
    method Init(entries: seq<Item>, sorted: seq<Item>) returns (ok: bool)
      requires nitems == 0 && items.Length == INITIAL_CAPACITY
      requires Sorted(sorted) && multiset(sorted) == multiset(entries)
      modifies this, items
      ensures ok <==> forall i :: 0 <= i < |entries| ==> entries[i].fildes >= 0
      ensures ok ==> Valid() && loaded == entries
    {
      ok := Load(entries);
      if ok {
        SameLength(sorted, entries);
        Qsort(sorted);
        loaded := entries;
        forall i | 0 <= i < nitems ensures items[i].fildes >= 0 {
          assert items[i] == sorted[i] && sorted[i] in multiset(entries);
        }
      }
    }

    /** The bisection of simplecache_get over the sorted table. */
    method Bisect(key: string) returns (fildes: int)
      requires Valid()
      ensures fildes == -1 <==> forall i :: 0 <= i < nitems ==> items[i].key != key
      ensures fildes != -1 ==> exists i :: 0 <= i < nitems && items[i] == Item(fildes, key)
    {
      var lo: int := 0;
      var hi: int := nitems - 1;
      while lo <= hi
        invariant 0 <= lo <= hi + 1 <= nitems
        invariant forall i :: 0 <= i < nitems && items[i].key == key ==> lo <= i <= hi
      {
        var mid := lo + (hi - lo) / 2;
        var cmp := Strcmp(key, items[mid].key);
        if cmp < 0 {
          AllAbove(items[..nitems], mid, key);
          assert forall i :: mid <= i < nitems ==> items[..nitems][i].key != key;
          hi := mid - 1;
        } else if cmp > 0 {
          AllBelow(items[..nitems], mid, key);
          assert forall i :: 0 <= i <= mid ==> items[..nitems][i].key != key;
          lo := mid + 1;
        } else {
          ZeroMeansEqual(key, items[mid].key);
          return items[mid].fildes;
        }
      }
      fildes := -1;
    }

    /** simplecache_get: -1 exactly when no line of the file has the key, else a descriptor
        registered under it, and the one a linear scan would find when keys are unique. */
    method Get(key: string) returns (fildes: int)
      requires Valid()
      ensures fildes == -1 <==> forall i :: 0 <= i < |loaded| ==> loaded[i].key != key
      ensures fildes != -1 ==> Item(fildes, key) in loaded
      ensures UniqueKeys(loaded) ==> fildes == Scan(loaded, key)
    {
      fildes := Bisect(key);
      GetAgreesWithScan(loaded, items[..nitems], key, fildes);
    }
  }

  lemma {:induction false} SameLength(s: seq<Item>, t: seq<Item>)
    requires multiset(s) == multiset(t)
    ensures |s| == |t|
  {
    assert |multiset(s)| == |s| && |multiset(t)| == |t|;
  }

  lemma AllAbove(s: seq<Item>, mid: nat, key: string)
    requires Sorted(s) && mid < |s| && Strcmp(key, s[mid].key) < 0
    ensures forall i :: mid <= i < |s| ==> s[i].key != key
  {
    forall i | mid <= i < |s| ensures s[i].key != key {
      if mid < i {
        AtMostIsTransitive(key, s[mid].key, s[i].key);
      }
      ZeroMeansEqual(key, s[i].key);
    }
  }

  lemma AllBelow(s: seq<Item>, mid: nat, key: string)
    requires Sorted(s) && mid < |s| && Strcmp(key, s[mid].key) > 0
    ensures forall i :: 0 <= i <= mid ==> s[i].key != key
  {
    forall i | 0 <= i <= mid ensures s[i].key != key {
      OppositeSigns(s[mid].key, key);
      if i < mid {
        AtMostIsTransitive(s[i].key, s[mid].key, key);
      }
      ZeroMeansEqual(s[i].key, key);
    }
  }

  // ---------------------------------------------------------------- agreement with a linear scan

  /** The first entry with the key, in the order of the file. */
  function Scan(entries: seq<Item>, key: string): int {
    if entries == [] then -1
    else if entries[0].key == key then entries[0].fildes
    else Scan(entries[1..], key)
  }

  predicate UniqueKeys(entries: seq<Item>) {
    forall i, j :: 0 <= i < j < |entries| ==> entries[i].key != entries[j].key
  }

  lemma {:induction false} ScanFinds(entries: seq<Item>, key: string, i: nat)
    requires i < |entries| && entries[i].key == key && UniqueKeys(entries)
    ensures Scan(entries, key) == entries[i].fildes
  {
    if i == 0 {
    } else {
      ScanFinds(entries[1..], key, i - 1);
    }
  }

  lemma {:induction false} ScanMisses(entries: seq<Item>, key: string)
    requires forall i :: 0 <= i < |entries| ==> entries[i].key != key
    ensures Scan(entries, key) == -1
  {
    if entries == [] {
    } else {
      ScanMisses(entries[1..], key);
    }
  }

  /** What Bisect promises of the sorted table determines the answer from the file's entries: absent
      keys give -1, present keys a descriptor registered under that key, and the one that a
      linear scan finds when keys are unique. */
  lemma GetAgreesWithScan(entries: seq<Item>, table: seq<Item>, key: string, fildes: int)
    requires multiset(table) == multiset(entries)
    requires fildes == -1 <==> forall i :: 0 <= i < |table| ==> table[i].key != key
    requires fildes != -1 ==> exists i :: 0 <= i < |table| && table[i] == Item(fildes, key)
    ensures fildes == -1 <==> forall i :: 0 <= i < |entries| ==> entries[i].key != key
    ensures fildes != -1 ==> Item(fildes, key) in entries
    ensures UniqueKeys(entries) ==> fildes == Scan(entries, key)
  {
    forall i | 0 <= i < |entries| ensures entries[i] in table {
      assert entries[i] in multiset(table);
    }
    forall i | 0 <= i < |table| ensures table[i] in entries {
      assert table[i] in multiset(entries);
    }
    if fildes == -1 {
      ScanMisses(entries, key);
    } else {
      assert Item(fildes, key) in entries;
      var i :| 0 <= i < |entries| && entries[i] == Item(fildes, key);
      if UniqueKeys(entries) {
        ScanFinds(entries, key, i);
      }
    }
  }

  // ---------------------------------------------------------------- a sorted arrangement exists

  function Insert(x: Item, s: seq<Item>): seq<Item> {
    if s == [] || Strcmp(x.key, s[0].key) <= 0 then [x] + s else [s[0]] + Insert(x, s[1..])
  }

  function Arrange(s: seq<Item>): seq<Item> {
    if s == [] then [] else Insert(s[0], Arrange(s[1..]))
  }

  lemma SortedCons(x: Item, s: seq<Item>)
    requires Sorted(s) && forall i :: 0 <= i < |s| ==> Strcmp(x.key, s[i].key) <= 0
    ensures Sorted([x] + s)
  {
  }

  lemma {:induction false} InsertKeepsItems(x: Item, s: seq<Item>)
    ensures multiset(Insert(x, s)) == multiset(s) + multiset{x}
  {
    if s == [] || Strcmp(x.key, s[0].key) <= 0 {
    } else {
      InsertKeepsItems(x, s[1..]);
      assert s == [s[0]] + s[1..];
    }
  }

  lemma {:induction false} InsertSorted(x: Item, s: seq<Item>)
    requires Sorted(s)
    ensures Sorted(Insert(x, s))
  {
    if s == [] {
    } else if Strcmp(x.key, s[0].key) <= 0 {
      forall j | 0 <= j < |s| ensures Strcmp(x.key, s[j].key) <= 0 {
        if j > 0 {
          AtMostIsTransitive(x.key, s[0].key, s[j].key);
        }
      }
      SortedCons(x, s);
    } else {
      var rest := Insert(x, s[1..]);
      InsertSorted(x, s[1..]);
      InsertKeepsItems(x, s[1..]);
      OppositeSigns(s[0].key, x.key);
      forall j | 0 <= j < |rest| ensures Strcmp(s[0].key, rest[j].key) <= 0 {
        assert rest[j] in multiset(s[1..]) + multiset{x};
        assert rest[j] == x || rest[j] in s[1..];
      }
      SortedCons(s[0], rest);
    }
  }

  /** Every list of entries has an arrangement that qsort may leave. */
  lemma {:induction false} ArrangeSorts(s: seq<Item>)
    ensures Sorted(Arrange(s)) && multiset(Arrange(s)) == multiset(s)
  {
    if s == [] {
    } else {
      ArrangeSorts(s[1..]);
      InsertSorted(s[0], Arrange(s[1..]));
      assert Arrange(s) == Insert(s[0], Arrange(s[1..]));
      hide Sorted, Insert, Arrange;
      InsertKeepsItems(s[0], Arrange(s[1..]));
      assert s == [s[0]] + s[1..];
    }
  }
}
