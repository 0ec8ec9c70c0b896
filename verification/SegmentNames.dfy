/** The names of the shared-memory segments.  Proxy and cache agree on a segment only by its name,
    which `snprintf` cuts to nine characters. */
module SegmentNames {
  import Decimal

  /** `snprintf(memName, 10, "Shm_%d", m)` keeps nine characters and the terminator. */
  const NAME_LENGTH := 9

  function Cut(s: string, n: nat): string {
    if n <= |s| then s[..n] else s
  }

  function Name(m: nat): string {
    Cut("Shm_" + Decimal.Print(m), NAME_LENGTH)
  }

  predicate Distinct(count: nat) {
    forall i, j :: 0 <= i < j < count ==> Name(i) != Name(j)
  }

  /** The first 100000 names are whole; later ones keep the first five digits of their number. */
  lemma NamesAre(m: nat)
    ensures m >= 100_000 ==> |Decimal.Print(m)| > 5
    ensures Name(m) == "Shm_" + if m < 100_000 then Decimal.Print(m) else Decimal.Print(m)[..5]
  {
    assert Decimal.Pow10(5) == 100_000;
    Decimal.PrintLength(m, 5);
  }

  lemma NameDetermines(i: nat, j: nat)
    requires i < 100_000 && j < 100_000 && Name(i) == Name(j)
    ensures i == j
  {
    NamesAre(i);
    NamesAre(j);
    assert Name(i)[4..] == Decimal.Print(i);
    assert Name(j)[4..] == Decimal.Print(j);
    Decimal.ValueOfPrint(i);
    Decimal.ValueOfPrint(j);
  }

  /** Six digits do not fit: segment 100000 gets the name of segment 10000. */
  lemma SixDigitsCollide()
    ensures Name(100_000) == Name(10_000)
  {
    NamesAre(10_000);
    assert Decimal.Print(100_000) == Decimal.Print(10_000) + "0";
    assert Decimal.Pow10(5) == 100_000 && Decimal.Pow10(4) == 10_000;
    Decimal.PrintLength(10_000, 5);
    Decimal.PrintLength(10_000, 4);
  }

  /** The names of the first `count` segments tell them apart exactly up to 100000 segments. */
  lemma NamesDistinctUpTo(count: nat)
    ensures Distinct(count) <==> count <= 100_000
  {
    if count <= 100_000 {
      forall i, j | 0 <= i < j < count ensures Name(i) != Name(j) {
        if Name(i) == Name(j) {
          NameDetermines(i, j);
        }
      }
    } else {
      SixDigitsCollide();
      assert 0 <= 10_000 < 100_000 < count;
    }
  }
}
