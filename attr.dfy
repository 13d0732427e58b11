/**
 * The wormhole-type capacity table (src/attr.rs): for each type code, the
 * largest ship mass, in thousands of tonnes, that may jump through it. The
 * source fills a hash map with 96 `insert` calls in ascending key order; the
 * model keeps that insertion sequence (split into blocks) and builds the map
 * from it by the same inserts.
 */
module Attr {
  import opened Ints
  import opened Text

  /** The inserts at src/attr.rs:6-11. */
  const Block1: seq<(string, u32)> := [
    ("A009", 5),
    ("A239", 375),
    ("A641", 1000),
    ("A982", 375),
    ("B041", 375),
    ("B274", 375)
  ]

  /** The inserts at src/attr.rs:12-17. */
  const Block2: seq<(string, u32)> := [
    ("B449", 1000),
    ("B520", 375),
    ("B735", 375),
    ("C008", 5),
    ("C125", 62),
    ("C140", 2000)
  ]

  /** The inserts at src/attr.rs:18-23. */
  const Block3: seq<(string, u32)> := [
    ("C247", 375),
    ("C248", 2000),
    ("C391", 2000),
    ("C414", 375),
    ("C729", 375),
    ("D364", 375)
  ]

  /** The inserts at src/attr.rs:24-29. */
  const Block4: seq<(string, u32)> := [
    ("D382", 375),
    ("D792", 1000),
    ("D845", 375),
    ("E004", 5),
    ("E175", 375),
    ("E545", 375)
  ]

  /** The inserts at src/attr.rs:30-35. */
  const Block5: seq<(string, u32)> := [
    ("E587", 1000),
    ("F135", 375),
    ("F216", 375),
    ("F353", 62),
    ("F355", 62),
    ("G008", 5)
  ]

  /** The inserts at src/attr.rs:36-41. */
  const Block6: seq<(string, u32)> := [
    ("G024", 375),
    ("H121", 62),
    ("H296", 2000),
    ("H900", 375),
    ("I182", 375),
    ("J244", 62)
  ]

  /** The inserts at src/attr.rs:42-47. */
  const Block7: seq<(string, u32)> := [
    ("J377", 62000),
    ("K329", 2000),
    ("K346", 375),
    ("L005", 5),
    ("L031", 1000),
    ("L477", 375)
  ]

  /** The inserts at src/attr.rs:48-53. */
  const Block8: seq<(string, u32)> := [
    ("L614", 62),
    ("M001", 5),
    ("M164", 375),
    ("M267", 375),
    ("M555", 1000),
    ("M609", 62)
  ]

  /** The inserts at src/attr.rs:54-59. */
  const Block9: seq<(string, u32)> := [
    ("N062", 375),
    ("N110", 62),
    ("N290", 2000),
    ("N432", 2000),
    ("N766", 375),
    ("N770", 375)
  ]

  /** The inserts at src/attr.rs:60-65. */
  const Block10: seq<(string, u32)> := [
    ("N944", 2000),
    ("N968", 375),
    ("O128", 375),
    ("O477", 375),
    ("O883", 62),
    ("P060", 62)
  ]

  /** The inserts at src/attr.rs:66-71. */
  const Block11: seq<(string, u32)> := [
    ("Q003", 5),
    ("Q063", 62),
    ("Q317", 62),
    ("R051", 1000),
    ("R081", 450),
    ("R259", 375)
  ]

  /** The inserts at src/attr.rs:72-77. */
  const Block12: seq<(string, u32)> := [
    ("R474", 375),
    ("R943", 375),
    ("S047", 375),
    ("S199", 2000),
    ("S804", 62),
    ("S877", 375)
  ]

  /** The inserts at src/attr.rs:78-83. */
  const Block13: seq<(string, u32)> := [
    ("T405", 375),
    ("T458", 62),
    ("U210", 375),
    ("U319", 2000),
    ("U372", 375),
    ("U574", 375)
  ]

  /** The inserts at src/attr.rs:84-89. */
  const Block14: seq<(string, u32)> := [
    ("V283", 1000),
    ("V301", 62),
    ("V753", 2000),
    ("V898", 375),
    ("V911", 2000),
    ("V928", 375)
  ]

  /** The inserts at src/attr.rs:90-95. */
  const Block15: seq<(string, u32)> := [
    ("W237", 2000),
    ("X450", 375),
    ("X702", 375),
    ("X877", 375),
    ("Y683", 375),
    ("Y790", 62)
  ]

  /** The inserts at src/attr.rs:96-101. */
  const Block16: seq<(string, u32)> := [
    ("Z006", 5),
    ("Z060", 62),
    ("Z142", 2000),
    ("Z457", 375),
    ("Z647", 62),
    ("Z971", 62)
  ]

  /** The 96 insertions, in source order. */
  const Entries: seq<(string, u32)> :=
    Block1 + Block2 + Block3 + Block4 + Block5 + Block6 + Block7 + Block8 + Block9 + Block10 + Block11 + Block12 + Block13 + Block14 + Block15 + Block16

  /** The table itself: the insertion sequence applied to an empty map, later inserts overriding earlier ones. */
  function InsertAll(entries: seq<(string, u32)>): (m: map<string, u32>)
  {
    if entries == [] then map[]
    else InsertAll(entries[..|entries| - 1])[entries[|entries| - 1].0 := entries[|entries| - 1].1]
  }

  const WormholeAttr: map<string, u32> := InsertAll(Entries)

  /** Each key is strictly below the next one. */
  predicate AscendingKeys(s: seq<(string, u32)>)
  {
    forall i :: 0 <= i < |s| - 1 ==> StrLess(s[i].0, s[i + 1].0)
  }

  /** A type code: one upper-case letter and three digits. */
  predicate IsTypeCode(k: string)
  {
    |k| == 4 && 'A' <= k[0] <= 'Z' && '0' <= k[1] <= '9' && '0' <= k[2] <= '9' && '0' <= k[3] <= '9'
  }

  /** The capacities that occur in the table. */
  const Capacities: set<u32> := {5, 62, 375, 450, 1000, 2000, 62000}

  predicate WellFormedEntries(s: seq<(string, u32)>)
  {
    forall i :: 0 <= i < |s| ==> IsTypeCode(s[i].0) && s[i].1 in Capacities
  }

  lemma AscendingConcat(a: seq<(string, u32)>, b: seq<(string, u32)>)
    requires AscendingKeys(a) && AscendingKeys(b)
    requires |a| > 0 && |b| > 0 && StrLess(a[|a| - 1].0, b[0].0)
    ensures AscendingKeys(a + b)
  {
    var s := a + b;
    forall i | 0 <= i < |s| - 1 ensures StrLess(s[i].0, s[i + 1].0) {
      if i < |a| - 1 {
        assert s[i] == a[i] && s[i + 1] == a[i + 1];
      } else if i == |a| - 1 {
        assert s[i] == a[|a| - 1] && s[i + 1] == b[0];
      } else {
        assert s[i] == b[i - |a|] && s[i + 1] == b[i - |a| + 1];
      }
    }
  }

  // Each block is checked on its own: the verifier evaluates the comparisons on the literal entries.

  lemma Block1Ascending()
    ensures AscendingKeys(Block1)
  {
  }

  lemma Block1WellFormed()
    ensures WellFormedEntries(Block1)
  {
  }

  lemma Block2Ascending()
    ensures AscendingKeys(Block2)
  {
  }

  lemma Block2WellFormed()
    ensures WellFormedEntries(Block2)
  {
  }

  lemma Block3Ascending()
    ensures AscendingKeys(Block3)
  {
  }

  lemma Block3WellFormed()
    ensures WellFormedEntries(Block3)
  {
  }

  lemma Block4Ascending()
    ensures AscendingKeys(Block4)
  {
  }

  lemma Block4WellFormed()
    ensures WellFormedEntries(Block4)
  {
  }

  lemma Block5Ascending()
    ensures AscendingKeys(Block5)
  {
  }

  lemma Block5WellFormed()
    ensures WellFormedEntries(Block5)
  {
  }

  lemma Block6Ascending()
    ensures AscendingKeys(Block6)
  {
  }

  lemma Block6WellFormed()
    ensures WellFormedEntries(Block6)
  {
  }

  lemma Block7Ascending()
    ensures AscendingKeys(Block7)
  {
  }

  lemma Block7WellFormed()
    ensures WellFormedEntries(Block7)
  {
  }

  lemma Block8Ascending()
    ensures AscendingKeys(Block8)
  {
  }

  lemma Block8WellFormed()
    ensures WellFormedEntries(Block8)
  {
  }

  lemma Block9Ascending()
    ensures AscendingKeys(Block9)
  {
  }

  lemma Block9WellFormed()
    ensures WellFormedEntries(Block9)
  {
  }

  lemma Block10Ascending()
    ensures AscendingKeys(Block10)
  {
  }

  lemma Block10WellFormed()
    ensures WellFormedEntries(Block10)
  {
  }

  lemma Block11Ascending()
    ensures AscendingKeys(Block11)
  {
  }

  lemma Block11WellFormed()
    ensures WellFormedEntries(Block11)
  {
  }

  lemma Block12Ascending()
    ensures AscendingKeys(Block12)
  {
  }

  lemma Block12WellFormed()
    ensures WellFormedEntries(Block12)
  {
  }

  lemma Block13Ascending()
    ensures AscendingKeys(Block13)
  {
  }

  lemma Block13WellFormed()
    ensures WellFormedEntries(Block13)
  {
  }

  lemma Block14Ascending()
    ensures AscendingKeys(Block14)
  {
  }

  lemma Block14WellFormed()
    ensures WellFormedEntries(Block14)
  {
  }

  lemma Block15Ascending()
    ensures AscendingKeys(Block15)
  {
  }

  lemma Block15WellFormed()
    ensures WellFormedEntries(Block15)
  {
  }

  lemma Block16Ascending()
    ensures AscendingKeys(Block16)
  {
  }

  lemma Block16WellFormed()
    ensures WellFormedEntries(Block16)
  {
  }


  /** The keys are inserted in strictly ascending order. */
  lemma EntriesAscending()
    ensures |Entries| == 96
    ensures AscendingKeys(Entries)
  {
    Block1Ascending();
    Block2Ascending();
    Block3Ascending();
    Block4Ascending();
    Block5Ascending();
    Block6Ascending();
    Block7Ascending();
    Block8Ascending();
    Block9Ascending();
    Block10Ascending();
    Block11Ascending();
    Block12Ascending();
    Block13Ascending();
    Block14Ascending();
    Block15Ascending();
    Block16Ascending();
    AscendingConcat(Block1, Block2);
    AscendingConcat(Block1 + Block2, Block3);
    AscendingConcat(Block1 + Block2 + Block3, Block4);
    AscendingConcat(Block1 + Block2 + Block3 + Block4, Block5);
    AscendingConcat(Block1 + Block2 + Block3 + Block4 + Block5, Block6);
    AscendingConcat(Block1 + Block2 + Block3 + Block4 + Block5 + Block6, Block7);
    AscendingConcat(Block1 + Block2 + Block3 + Block4 + Block5 + Block6 + Block7, Block8);
    AscendingConcat(Block1 + Block2 + Block3 + Block4 + Block5 + Block6 + Block7 + Block8, Block9);
    AscendingConcat(Block1 + Block2 + Block3 + Block4 + Block5 + Block6 + Block7 + Block8 + Block9, Block10);
    AscendingConcat(Block1 + Block2 + Block3 + Block4 + Block5 + Block6 + Block7 + Block8 + Block9 + Block10, Block11);
    AscendingConcat(Block1 + Block2 + Block3 + Block4 + Block5 + Block6 + Block7 + Block8 + Block9 + Block10 + Block11, Block12);
    AscendingConcat(Block1 + Block2 + Block3 + Block4 + Block5 + Block6 + Block7 + Block8 + Block9 + Block10 + Block11 + Block12, Block13);
    AscendingConcat(Block1 + Block2 + Block3 + Block4 + Block5 + Block6 + Block7 + Block8 + Block9 + Block10 + Block11 + Block12 + Block13, Block14);
    AscendingConcat(Block1 + Block2 + Block3 + Block4 + Block5 + Block6 + Block7 + Block8 + Block9 + Block10 + Block11 + Block12 + Block13 + Block14, Block15);
    AscendingConcat(Block1 + Block2 + Block3 + Block4 + Block5 + Block6 + Block7 + Block8 + Block9 + Block10 + Block11 + Block12 + Block13 + Block14 + Block15, Block16);
  }

  /** Every key is a type code and every value one of the seven capacities. */
  lemma EntriesWellFormed()
    ensures WellFormedEntries(Entries)
  {
    Block1WellFormed();
    Block2WellFormed();
    Block3WellFormed();
    Block4WellFormed();
    Block5WellFormed();
    Block6WellFormed();
    Block7WellFormed();
    Block8WellFormed();
    Block9WellFormed();
    Block10WellFormed();
    Block11WellFormed();
    Block12WellFormed();
    Block13WellFormed();
    Block14WellFormed();
    Block15WellFormed();
    Block16WellFormed();
  }

  lemma {:induction false} AscendingStrict(s: seq<(string, u32)>, i: nat, j: nat)
    requires AscendingKeys(s)
    requires i < j < |s|
    ensures StrLess(s[i].0, s[j].0)
    decreases j - i
  {
    if i + 1 < j {
      AscendingStrict(s, i + 1, j);
      StrLessTransitive(s[i].0, s[i + 1].0, s[j].0);
    }
  }

  /** Keys inserted in strictly ascending order are pairwise distinct. */
  lemma AscendingDistinct(s: seq<(string, u32)>)
    requires AscendingKeys(s)
    ensures forall i, j :: 0 <= i < j < |s| ==> s[i].0 != s[j].0
  {
    forall i, j | 0 <= i < j < |s| ensures s[i].0 != s[j].0 {
      AscendingStrict(s, i, j);
      StrLessIrreflexive(s[i].0);
    }
  }

  /** The keys of the table are exactly the inserted keys. */
  lemma {:induction false} InsertAllKeys(s: seq<(string, u32)>, k: string)
    ensures k in InsertAll(s) <==> exists i :: 0 <= i < |s| && s[i].0 == k
  {
    if s != [] {
      var n := |s| - 1;
      InsertAllKeys(s[..n], k);
      if k in InsertAll(s[..n]) {
        var i :| 0 <= i < n && s[..n][i].0 == k;
        assert s[i].0 == k;
      }
      if exists i :: 0 <= i < |s| && s[i].0 == k {
        var i :| 0 <= i < |s| && s[i].0 == k;
        if i < n {
          assert s[..n][i].0 == k;
        }
      }
    }
  }

  /** Each key of the table holds the value of the last insert of that key. */
  lemma {:induction false} InsertAllLast(s: seq<(string, u32)>, k: string)
    requires k in InsertAll(s)
    ensures exists i :: 0 <= i < |s| && s[i].0 == k && InsertAll(s)[k] == s[i].1 && forall j :: i < j < |s| ==> s[j].0 != k
  {
    var n := |s| - 1;
    if s[n].0 != k {
      InsertAllLast(s[..n], k);
      var i :| 0 <= i < n && s[..n][i].0 == k && InsertAll(s[..n])[k] == s[..n][i].1 && forall j :: i < j < n ==> s[..n][j].0 != k;
      assert s[i] == s[..n][i];
      assert forall j :: i < j < n ==> s[j] == s[..n][j];
    }
  }

  /** With distinct keys no insert overrides another: each key maps to its own value and the map has one entry per insert. */
  lemma {:induction false} InsertAllDistinct(s: seq<(string, u32)>)
    requires forall i, j :: 0 <= i < j < |s| ==> s[i].0 != s[j].0
    ensures |InsertAll(s)| == |s|
    ensures forall i :: 0 <= i < |s| ==> s[i].0 in InsertAll(s) && InsertAll(s)[s[i].0] == s[i].1
  {
    if s != [] {
      var n := |s| - 1;
      var p := s[..n];
      assert forall i, j :: 0 <= i < j < |p| ==> p[i].0 != p[j].0 by {
        assert forall i :: 0 <= i < |p| ==> p[i] == s[i];
      }
      InsertAllDistinct(p);
      InsertAllKeys(p, s[n].0);
      assert s[n].0 !in InsertAll(p) by {
        assert forall i :: 0 <= i < |p| ==> p[i] == s[i];
      }
      var m := InsertAll(p);
      assert InsertAll(s) == m[s[n].0 := s[n].1];
      forall i | 0 <= i < |s| ensures s[i].0 in InsertAll(s) && InsertAll(s)[s[i].0] == s[i].1 {
        if i < n {
          assert p[i] == s[i];
        }
      }
    }
  }

  /** The table has 96 entries and maps each inserted code to the value inserted for it. */
  lemma TableContents()
    ensures |WormholeAttr| == 96
    ensures forall i :: 0 <= i < |Entries| ==> Entries[i].0 in WormholeAttr && WormholeAttr[Entries[i].0] == Entries[i].1
  {
    EntriesAscending();
    AscendingDistinct(Entries);
    InsertAllDistinct(Entries);
  }

  /** Every key of the table is a type code, and every capacity one of the seven values. */
  lemma TableWellFormed()
    ensures forall k :: k in WormholeAttr ==> IsTypeCode(k) && WormholeAttr[k] in Capacities
  {
    TableContents();
    EntriesWellFormed();
    forall k | k in WormholeAttr ensures IsTypeCode(k) && WormholeAttr[k] in Capacities {
      InsertAllKeys(Entries, k);
      var i :| 0 <= i < |Entries| && Entries[i].0 == k;
    }
  }

  /** Three sample entries, and a code that is not a type code is not in the table. */
  lemma TableSamples()
    ensures "A009" in WormholeAttr && WormholeAttr["A009"] == 5
    ensures "J377" in WormholeAttr && WormholeAttr["J377"] == 62000
    ensures "R081" in WormholeAttr && WormholeAttr["R081"] == 450
    ensures "GATE" !in WormholeAttr
  {
    TableContents();
    TableWellFormed();
    InsertAllKeys(Entries, "A009");
    InsertAllKeys(Entries, "J377");
    InsertAllKeys(Entries, "R081");
    assert Entries[0] == ("A009", 5);
    assert Entries[36] == ("J377", 62000);
    assert Entries[64] == ("R081", 450);
    assert !IsTypeCode("GATE");
  }
}
