/** Ordering of the unique records: wealth and pain leads first, everything else after,
    with discovery order kept inside each tier (Python's `sorted` is stable). */
module Ranking {
  import opened PdcTypes

  /** The sort key: 0 for wealth and pain, 1 for every other type. */
  function Rank(o: Opp): nat {
    if o.kind == Wealth || o.kind == Pain then 0 else 1
  }

  /** Insert `o` after every element whose key is not greater than its own. */
  function Insert(sorted: seq<Opp>, o: Opp): (r: seq<Opp>)
    ensures |r| == |sorted| + 1
  {
    if sorted == [] then [o]
    else if Rank(o) < Rank(sorted[0]) then [o] + sorted
    else [sorted[0]] + Insert(sorted[1..], o)
  }

  /** A stable sort by Rank, taking the elements in order. */
  function SortByRank(s: seq<Opp>): (r: seq<Opp>)
    ensures |r| == |s|
  {
    if s == [] then [] else Insert(SortByRank(s[..|s| - 1]), s[|s| - 1])
  }

  ghost predicate RankSorted(s: seq<Opp>) {
    forall i, j :: 0 <= i < j < |s| ==> Rank(s[i]) <= Rank(s[j])
  }

  /** The elements of one tier, in their order in `s`. */
  function Tier(s: seq<Opp>, t: nat): seq<Opp> {
    if s == [] then [] else (if Rank(s[0]) == t then [s[0]] else []) + Tier(s[1..], t)
  }

  lemma {:induction false} TierAppend(a: seq<Opp>, b: seq<Opp>, t: nat)
    ensures Tier(a + b, t) == Tier(a, t) + Tier(b, t)
  {
    if a == [] {
      assert a + b == b;
    } else {
      var head := if Rank(a[0]) == t then [a[0]] else [];
      calc {
        Tier(a + b, t);
        head + Tier((a + b)[1..], t);
        { assert (a + b)[1..] == a[1..] + b; }
        head + Tier(a[1..] + b, t);
        { TierAppend(a[1..], b, t); }
        head + (Tier(a[1..], t) + Tier(b, t));
        Tier(a, t) + Tier(b, t);
      }
    }
  }

  lemma {:induction false} TierOfHigherRanks(s: seq<Opp>, t: nat)
    requires forall i :: 0 <= i < |s| ==> Rank(s[i]) > t
    ensures Tier(s, t) == []
  {
    if s != [] {
      TierOfHigherRanks(s[1..], t);
    }
  }

  /** Inserting adds exactly `o`. */
  lemma {:induction false} InsertPermutes(sorted: seq<Opp>, o: Opp)
    ensures multiset(Insert(sorted, o)) == multiset(sorted) + multiset{o}
  {
    if sorted != [] && Rank(o) >= Rank(sorted[0]) {
      InsertPermutes(sorted[1..], o);
      assert sorted == [sorted[0]] + sorted[1..];
    }
  }

  /** Inserting into a sorted list keeps it sorted. */
  lemma {:induction false} InsertSorted(sorted: seq<Opp>, o: Opp)
    requires RankSorted(sorted)
    ensures RankSorted(Insert(sorted, o))
  {
    if sorted != [] && Rank(o) >= Rank(sorted[0]) {
      var rest := sorted[1..];
      var r := Insert(sorted, o);
      InsertSorted(rest, o);
      InsertPermutes(rest, o);
      assert r[1..] == Insert(rest, o);
      forall j | 1 <= j < |r| ensures Rank(r[0]) <= Rank(r[j]) {
        assert r[j] in multiset(Insert(rest, o));
        if r[j] != o {
          assert r[j] in multiset(rest);
          var k :| 0 <= k < |rest| && rest[k] == r[j];
          assert sorted[k + 1] == r[j];
        }
      }
    }
  }

  /** Inserting into a sorted list puts `o` last among the elements of its tier. */
  lemma {:induction false} InsertTier(sorted: seq<Opp>, o: Opp, t: nat)
    requires RankSorted(sorted)
    ensures Tier(Insert(sorted, o), t) == Tier(sorted, t) + (if Rank(o) == t then [o] else [])
  {
    var r := Insert(sorted, o);
    if sorted == [] {
      assert r[1..] == [];
    } else if Rank(o) < Rank(sorted[0]) {
      assert r[1..] == sorted;
      if Rank(o) == t {
        TierOfHigherRanks(sorted, t);
      }
    } else {
      InsertTier(sorted[1..], o, t);
      assert r[1..] == Insert(sorted[1..], o);
    }
  }

  lemma {:induction false} SortByRankSorted(s: seq<Opp>)
    ensures RankSorted(SortByRank(s))
  {
    if s != [] {
      SortByRankSorted(s[..|s| - 1]);
      InsertSorted(SortByRank(s[..|s| - 1]), s[|s| - 1]);
    }
  }

  lemma {:induction false} SortByRankPermutes(s: seq<Opp>)
    ensures multiset(SortByRank(s)) == multiset(s)
  {
    if s != [] {
      var front, last := s[..|s| - 1], s[|s| - 1];
      SortByRankPermutes(front);
      InsertPermutes(SortByRank(front), last);
      assert s == front + [last];
    }
  }

  lemma {:induction false} SortByRankStable(s: seq<Opp>, t: nat)
    ensures Tier(SortByRank(s), t) == Tier(s, t)
  {
    if s != [] {
      var front, last := s[..|s| - 1], s[|s| - 1];
      SortByRankStable(front, t);
      SortByRankSorted(front);
      InsertTier(SortByRank(front), last, t);
      assert s == front + [last];
      TierAppend(front, [last], t);
      assert Tier([last], t) == if Rank(last) == t then [last] else [] by {
        assert [last][1..] == [];
      }
    }
  }

  /** The ranked list is sorted by the key, is a permutation of its input, and keeps each
      tier in input order (stability). */
  lemma SortByRankSpec(s: seq<Opp>)
    ensures RankSorted(SortByRank(s))
    ensures multiset(SortByRank(s)) == multiset(s)
    ensures forall t :: Tier(SortByRank(s), t) == Tier(s, t)
  {
    SortByRankSorted(s);
    SortByRankPermutes(s);
    forall t ensures Tier(SortByRank(s), t) == Tier(s, t) {
      SortByRankStable(s, t);
    }
  }

  /** Every wealth or pain record is ranked before every other record. */
  lemma PriorityFirst(s: seq<Opp>)
    ensures forall i, j ::
              0 <= i < |SortByRank(s)| && 0 <= j < |SortByRank(s)| &&
              Rank(SortByRank(s)[i]) == 0 && Rank(SortByRank(s)[j]) == 1
              ==> i < j
  {
    SortByRankSpec(s);
  }

  /** Inserting into a list of key-1 records: a key-0 record goes in front, a key-1 record last. */
  lemma {:induction false} InsertIntoOnes(b: seq<Opp>, o: Opp)
    requires forall i :: 0 <= i < |b| ==> Rank(b[i]) == 1
    ensures Insert(b, o) == if Rank(o) == 0 then [o] + b else b + [o]
  {
    if b != [] && Rank(o) != 0 {
      InsertIntoOnes(b[1..], o);
      assert b == [b[0]] + b[1..];
    }
  }

  /** Inserting into "all key-0 records, then all key-1 records" puts the new record at the
      end of its own group. */
  lemma {:induction false} InsertIntoTiers(a: seq<Opp>, b: seq<Opp>, o: Opp)
    requires forall i :: 0 <= i < |a| ==> Rank(a[i]) == 0
    requires forall i :: 0 <= i < |b| ==> Rank(b[i]) == 1
    ensures Insert(a + b, o) == if Rank(o) == 0 then a + [o] + b else a + b + [o]
  {
    if a == [] {
      assert a + b == b;
      InsertIntoOnes(b, o);
    } else {
      assert (a + b)[0] == a[0] && (a + b)[1..] == a[1..] + b;
      InsertIntoTiers(a[1..], b, o);
      assert a == [a[0]] + a[1..];
    }
  }

  lemma {:induction false} TierRanks(s: seq<Opp>, t: nat)
    ensures forall i :: 0 <= i < |Tier(s, t)| ==> Rank(Tier(s, t)[i]) == t
  {
    if s != [] {
      TierRanks(s[1..], t);
    }
  }

  /** The ranked list is exactly the wealth and pain records in discovery order followed by
      all the others in discovery order. */
  lemma {:induction false} SortByRankIsTwoTiers(s: seq<Opp>)
    ensures SortByRank(s) == Tier(s, 0) + Tier(s, 1)
  {
    if s != [] {
      var front, last := s[..|s| - 1], s[|s| - 1];
      var a, b := Tier(front, 0), Tier(front, 1);
      SortByRankIsTwoTiers(front);
      TierRanks(front, 0);
      TierRanks(front, 1);
      InsertIntoTiers(a, b, last);
      assert SortByRank(s) == Insert(a + b, last);
      assert s == front + [last];
      TierAppend(front, [last], 0);
      TierAppend(front, [last], 1);
      assert Tier([last], 0) == if Rank(last) == 0 then [last] else [] by {
        assert [last][1..] == [];
      }
      assert Tier([last], 1) == if Rank(last) == 1 then [last] else [] by {
        assert [last][1..] == [];
      }
      if Rank(last) == 0 {
        assert Tier(s, 0) + Tier(s, 1) == a + [last] + b;
      } else {
        assert Tier(s, 0) + Tier(s, 1) == a + b + [last];
      }
    }
  }
}
