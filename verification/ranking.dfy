/** The ranking step shared by the cross-venue and peer-to-peer strategies:
    `sorted(opportunities, key=profit_percent, reverse=True)`. Python's sort is
    stable even with `reverse=True`, so opportunities with equal percentages
    keep the order in which they were found. */
module Ranking {
  import opened Market

  /** Non-increasing by profit percentage. */
  predicate SortedDesc(s: seq<Opportunity>) {
    forall i, j :: 0 <= i < j < |s| ==> s[i].profitPercent >= s[j].profitPercent
  }

  /** The opportunities of `s` whose percentage is exactly `k`, in their order in `s`. */
  function Ties(s: seq<Opportunity>, k: real): seq<Opportunity> {
    if s == [] then []
    else (if s[0].profitPercent == k then [s[0]] else []) + Ties(s[1..], k)
  }

  lemma {:induction false} TiesAppend(a: seq<Opportunity>, b: seq<Opportunity>, k: real)
    ensures Ties(a + b, k) == Ties(a, k) + Ties(b, k)
  {
    if a == [] {
      assert a + b == b;
    } else {
      assert (a + b)[1..] == a[1..] + b;
      TiesAppend(a[1..], b, k);
    }
  }

  lemma {:induction false} TiesBelow(s: seq<Opportunity>, k: real)
    requires forall i :: 0 <= i < |s| ==> s[i].profitPercent < k
    ensures Ties(s, k) == []
  {
    if s != [] {
      TiesBelow(s[1..], k);
    }
  }

  /** Putting in front an element at least as large as everything keeps the order. */
  lemma SortedCons(x: Opportunity, rest: seq<Opportunity>)
    requires SortedDesc(rest)
    requires forall i :: 0 <= i < |rest| ==> x.profitPercent >= rest[i].profitPercent
    ensures SortedDesc([x] + rest)
  {
    var s := [x] + rest;
    forall i, j | 0 <= i < j < |s|
      ensures s[i].profitPercent >= s[j].profitPercent
    {
      assert s[j] == rest[j - 1];
      if i > 0 {
        assert s[i] == rest[i - 1];
      }
    }
  }

  /** The head of a sorted list bounds any rearrangement of its tail with `o`
      added, when it also bounds `o`. */
  lemma HeadBounds(r: seq<Opportunity>, o: Opportunity, rest: seq<Opportunity>)
    requires SortedDesc(r) && r != [] && r[0].profitPercent >= o.profitPercent
    requires multiset(rest) == multiset(r[1..]) + multiset{o}
    ensures forall i :: 0 <= i < |rest| ==> r[0].profitPercent >= rest[i].profitPercent
  {
    forall i | 0 <= i < |rest|
      ensures r[0].profitPercent >= rest[i].profitPercent
    {
      assert rest[i] in multiset(rest);
      if rest[i] != o {
        assert rest[i] in multiset(r[1..]);
        var j :| 0 <= j < |r[1..]| && r[1..][j] == rest[i];
        assert r[j + 1] == rest[i];
      }
    }
  }

  /** Places `o` after every element whose percentage is at least its own. */
  function Insert(o: Opportunity, r: seq<Opportunity>): (res: seq<Opportunity>)
    requires SortedDesc(r)
    ensures SortedDesc(res)
    ensures multiset(res) == multiset(r) + multiset{o}
  {
    if r == [] then [o]
    else if r[0].profitPercent >= o.profitPercent then
      SortedTail(r);
      var rest := Insert(o, r[1..]);
      HeadBounds(r, o, rest);
      SortedCons(r[0], rest);
      assert r == [r[0]] + r[1..];
      [r[0]] + rest
    else
      SortedCons(o, r);
      [o] + r
  }

  lemma SortedTail(r: seq<Opportunity>)
    requires SortedDesc(r) && r != []
    ensures SortedDesc(r[1..])
  {
    forall i, j | 0 <= i < j < |r| - 1
      ensures r[1..][i].profitPercent >= r[1..][j].profitPercent
    {
      assert r[1..][i] == r[i + 1] && r[1..][j] == r[j + 1];
    }
  }

  lemma TiesCons(x: Opportunity, s: seq<Opportunity>, k: real)
    ensures Ties([x] + s, k) == (if x.profitPercent == k then [x] else []) + Ties(s, k)
  {
    assert ([x] + s)[1..] == s;
  }

  /** An element placed in front of a list of smaller ones ends its tie group. */
  lemma InsertTiesFront(o: Opportunity, r: seq<Opportunity>, k: real)
    requires SortedDesc(r)
    requires r == [] || r[0].profitPercent < o.profitPercent
    ensures Ties(Insert(o, r), k) == Ties(r, k) + (if o.profitPercent == k then [o] else [])
  {
    assert Insert(o, r) == [o] + r;
    TiesCons(o, r, k);
    if o.profitPercent == k {
      forall i | 0 <= i < |r|
        ensures r[i].profitPercent < k
      {
        assert r[0].profitPercent >= r[i].profitPercent;
      }
      TiesBelow(r, k);
    }
  }

  lemma InsertPast(o: Opportunity, r: seq<Opportunity>)
    requires SortedDesc(r) && r != [] && r[0].profitPercent >= o.profitPercent
    ensures SortedDesc(r[1..])
    ensures Insert(o, r) == [r[0]] + Insert(o, r[1..])
  {
    SortedTail(r);
  }

  /** Passing over the head of the list keeps the head ahead in its tie group. */
  lemma InsertTiesPast(o: Opportunity, r: seq<Opportunity>, k: real)
    requires SortedDesc(r) && r != [] && r[0].profitPercent >= o.profitPercent
    requires SortedDesc(r[1..])
    requires Ties(Insert(o, r[1..]), k) == Ties(r[1..], k) + (if o.profitPercent == k then [o] else [])
    ensures Ties(Insert(o, r), k) == Ties(r, k) + (if o.profitPercent == k then [o] else [])
  {
    var tail := if o.profitPercent == k then [o] else [];
    var rest := Insert(o, r[1..]);
    var head := if r[0].profitPercent == k then [r[0]] else [];
    InsertPast(o, r);
    TiesCons(r[0], rest, k);
    assert Ties(r, k) == head + Ties(r[1..], k);
    ConcatAssoc(head, Ties(r[1..], k), tail);
  }

  /** Inserting keeps, for every percentage, the earlier elements ahead of `o`. */
  lemma {:induction false} InsertTies(o: Opportunity, r: seq<Opportunity>, k: real)
    requires SortedDesc(r)
    ensures Ties(Insert(o, r), k) == Ties(r, k) + (if o.profitPercent == k then [o] else [])
  {
    if r != [] && r[0].profitPercent >= o.profitPercent {
      SortedTail(r);
      InsertTies(o, r[1..], k);
      InsertTiesPast(o, r, k);
    } else {
      InsertTiesFront(o, r, k);
    }
  }

  /** The stable descending sort. */
  function Rank(s: seq<Opportunity>): (r: seq<Opportunity>)
    ensures SortedDesc(r)
    ensures multiset(r) == multiset(s)
  {
    if s == [] then []
    else
      assert s == s[..|s| - 1] + [s[|s| - 1]];
      Insert(s[|s| - 1], Rank(s[..|s| - 1]))
  }

  lemma TiesSnoc(init: seq<Opportunity>, last: Opportunity, k: real)
    ensures Ties(init + [last], k) == Ties(init, k) + (if last.profitPercent == k then [last] else [])
  {
    assert [last][1..] == [];
    assert Ties([last], k) == (if last.profitPercent == k then [last] else []) + Ties([], k);
    TiesAppend(init, [last], k);
  }

  /** Stability: for every percentage, the tied opportunities come out in input order. */
  lemma {:induction false} RankStable(s: seq<Opportunity>, k: real)
    ensures Ties(Rank(s), k) == Ties(s, k)
  {
    if s != [] {
      var init, last := s[..|s| - 1], s[|s| - 1];
      assert s == init + [last];
      RankStable(init, k);
      InsertTies(last, Rank(init), k);
      TiesSnoc(init, last, k);
    }
  }

  lemma {:induction false} InsertAtEnd(o: Opportunity, r: seq<Opportunity>)
    requires SortedDesc(r)
    requires forall i :: 0 <= i < |r| ==> r[i].profitPercent >= o.profitPercent
    ensures Insert(o, r) == r + [o]
  {
    if r != [] {
      InsertAtEnd(o, r[1..]);
      assert [r[0]] + (r[1..] + [o]) == r + [o];
    }
  }

  /** A list that is already in order is left exactly as it is; in particular
      ranking twice is ranking once. */
  lemma {:induction false} RankSortedIdentity(s: seq<Opportunity>)
    requires SortedDesc(s)
    ensures Rank(s) == s
  {
    if s != [] {
      var init, last := s[..|s| - 1], s[|s| - 1];
      assert SortedDesc(init);
      RankSortedIdentity(init);
      InsertAtEnd(last, init);
      assert init + [last] == s;
    }
  }

  lemma RankIdempotent(s: seq<Opportunity>)
    ensures Rank(Rank(s)) == Rank(s)
  {
    RankSortedIdentity(Rank(s));
  }
}
