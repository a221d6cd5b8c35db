/** The high-score ranking (jogo.py, save_score and load_ranking): a list of
    (name, score) entries kept in a file.  Saving appends the new entry, sorts
    the list by score, highest first, with a stable sort, and keeps the first
    ten.  The file is modelled as a value that is present or absent. */
module Ranking {

  const RANKING_SIZE: int := 10

  datatype Entry = Entry(name: string, score: int)

  /** The ranking file: absent until the first game ends. */
  datatype RankingFile = NoFile | Saved(entries: seq<Entry>)

  /** Loading an absent file gives the empty ranking; otherwise the file's
      entries, as they were written. */
  function Load(f: RankingFile): seq<Entry> {
    match f
    case NoFile => []
    case Saved(entries) => entries
  }

  predicate SortedDesc(s: seq<Entry>) {
    forall i, j :: 0 <= i < j < |s| ==> s[i].score >= s[j].score
  }

  /** The entries of `s` that have score `k`, in their order in `s`.  A sort
      is stable exactly when it keeps every `Ties(s, k)`. */
  function Ties(s: seq<Entry>, k: int): seq<Entry> {
    if s == [] then [] else (if s[0].score == k then [s[0]] else []) + Ties(s[1..], k)
  }

  /** Insert `e` after every leading entry whose score is at least its own. */
  function Insert(s: seq<Entry>, e: Entry): seq<Entry> {
    if s == [] then [e]
    else if s[0].score >= e.score then [s[0]] + Insert(s[1..], e)
    else [e] + s
  }

  /** Stable sort by score, highest first (insertion sort, left to right). */
  function SortDesc(s: seq<Entry>): seq<Entry> {
    if s == [] then [] else Insert(SortDesc(s[..|s| - 1]), s[|s| - 1])
  }

  /** The ranking after a game that scored `e.score` has ended. */
  function Save(ranking: seq<Entry>, e: Entry): (r: seq<Entry>)
    ensures |r| == if |ranking| < RANKING_SIZE then |ranking| + 1 else RANKING_SIZE
  {
    var sorted := SortDesc(ranking + [e]);
    SortDescPermutes(ranking + [e]);
    if |sorted| <= RANKING_SIZE then sorted else sorted[..RANKING_SIZE]
  }

  /** How many leading entries of `s` score at least `score`. */
  function RankOf(s: seq<Entry>, score: int): nat {
    if s == [] || s[0].score < score then 0 else 1 + RankOf(s[1..], score)
  }

  // ------------------------------------------------------------ Ties lemmas

  lemma {:induction false} TiesAppend(a: seq<Entry>, b: seq<Entry>, k: int)
    ensures Ties(a + b, k) == Ties(a, k) + Ties(b, k)
  {
    if a == [] {
      assert a + b == b;
    } else {
      var head := if a[0].score == k then [a[0]] else [];
      assert (a + b)[0] == a[0];
      assert (a + b)[1..] == a[1..] + b;
      TiesAppend(a[1..], b, k);
      assert Ties(a + b, k) == head + (Ties(a[1..], k) + Ties(b, k));
      assert Ties(a, k) == head + Ties(a[1..], k);
      assert head + (Ties(a[1..], k) + Ties(b, k)) == (head + Ties(a[1..], k)) + Ties(b, k);
    }
  }

  lemma {:induction false} TiesMembers(s: seq<Entry>, k: int)
    ensures forall x :: x in Ties(s, k) ==> x in s && x.score == k
  {
    if s != [] {
      TiesMembers(s[1..], k);
    }
  }

  /** The first entry of a list heads the ties of its own score. */
  lemma TiesHead(s: seq<Entry>)
    requires s != []
    ensures Ties(s, s[0].score) != [] && Ties(s, s[0].score)[0] == s[0]
  {
    assert Ties(s, s[0].score) == [s[0]] + Ties(s[1..], s[0].score);
  }

  /** The ties of a list's tail: those of the whole list, less the head when
      the head has that score. */
  lemma TiesTail(s: seq<Entry>, k: int)
    requires s != []
    ensures Ties(s[1..], k) == if s[0].score == k then Ties(s, k)[1..] else Ties(s, k)
  {
    var rest := Ties(s[1..], k);
    if s[0].score == k {
      assert Ties(s, k) == [s[0]] + rest;
      assert ([s[0]] + rest)[1..] == rest;
    } else {
      assert Ties(s, k) == [] + rest;
      assert [] + rest == rest;
    }
  }

  lemma {:induction false} TiesNone(s: seq<Entry>, k: int)
    requires forall i :: 0 <= i < |s| ==> s[i].score != k
    ensures Ties(s, k) == []
  {
    if s != [] {
      TiesNone(s[1..], k);
    }
  }

  // ----------------------------------------------------------- sort lemmas

  lemma {:induction false} InsertPermutes(s: seq<Entry>, e: Entry)
    ensures |Insert(s, e)| == |s| + 1
    ensures multiset(Insert(s, e)) == multiset(s) + multiset{e}
  {
    if s != [] && s[0].score >= e.score {
      InsertPermutes(s[1..], e);
      assert s == [s[0]] + s[1..];
    }
  }

  lemma {:induction false} SortDescPermutes(s: seq<Entry>)
    ensures |SortDesc(s)| == |s|
    ensures multiset(SortDesc(s)) == multiset(s)
  {
    if s != [] {
      SortDescPermutes(s[..|s| - 1]);
      InsertPermutes(SortDesc(s[..|s| - 1]), s[|s| - 1]);
      assert s == s[..|s| - 1] + [s[|s| - 1]];
    }
  }

  lemma {:induction false} InsertKeepsSorted(s: seq<Entry>, e: Entry)
    requires SortedDesc(s)
    ensures SortedDesc(Insert(s, e))
  {
    if s != [] && s[0].score >= e.score {
      var t := Insert(s[1..], e);
      InsertKeepsSorted(s[1..], e);
      InsertPermutes(s[1..], e);
      forall j | 0 <= j < |t|
        ensures t[j].score <= s[0].score
      {
        assert t[j] in multiset(t);
        if t[j] != e {
          assert t[j] in multiset(s[1..]);
          var m :| 0 <= m < |s[1..]| && s[1..][m] == t[j];
          assert s[m + 1] == t[j];
        }
      }
      ConsSorted(s[0], t);
    }
  }

  lemma ConsSorted(x: Entry, t: seq<Entry>)
    requires SortedDesc(t)
    requires forall j :: 0 <= j < |t| ==> t[j].score <= x.score
    ensures SortedDesc([x] + t)
  {
    forall i, j | 0 <= i < j < |[x] + t|
      ensures ([x] + t)[i].score >= ([x] + t)[j].score
    {
      assert ([x] + t)[j] == t[j - 1];
      if i > 0 {
        assert ([x] + t)[i] == t[i - 1];
      }
    }
  }

  /** Inserting into a sorted list puts `e` after every entry of equal score
      and moves no tied entries past one another. */
  lemma {:induction false} InsertTies(s: seq<Entry>, e: Entry, k: int)
    requires SortedDesc(s)
    ensures Ties(Insert(s, e), k) == Ties(s, k) + (if e.score == k then [e] else [])
  {
    var extra := if e.score == k then [e] else [];
    if s == [] {
      assert [e][1..] == [];
      assert Ties([e], k) == extra + [];
    } else if s[0].score >= e.score {
      InsertTies(s[1..], e, k);
      var t := Insert(s[1..], e);
      var head := if s[0].score == k then [s[0]] else [];
      assert ([s[0]] + t)[0] == s[0] && ([s[0]] + t)[1..] == t;
      assert Ties(Insert(s, e), k) == head + (Ties(s[1..], k) + extra);
      assert Ties(s, k) == head + Ties(s[1..], k);
      assert head + (Ties(s[1..], k) + extra) == (head + Ties(s[1..], k)) + extra;
    } else {
      assert ([e] + s)[0] == e && ([e] + s)[1..] == s;
      assert Ties([e] + s, k) == extra + Ties(s, k);
      if e.score == k {
        TiesNone(s, k);
        assert extra + [] == [] + extra;
      } else {
        assert [] + Ties(s, k) == Ties(s, k) + [];
      }
    }
  }

  lemma {:induction false} SortDescSorted(s: seq<Entry>)
    ensures SortedDesc(SortDesc(s))
  {
    if s != [] {
      SortDescSorted(s[..|s| - 1]);
      InsertKeepsSorted(SortDesc(s[..|s| - 1]), s[|s| - 1]);
    }
  }

  lemma {:induction false} SortDescTies(s: seq<Entry>, k: int)
    ensures Ties(SortDesc(s), k) == Ties(s, k)
  {
    if s != [] {
      var init, last := s[..|s| - 1], s[|s| - 1];
      var extra := if last.score == k then [last] else [];
      SortDescTies(init, k);
      SortDescSorted(init);
      InsertTies(SortDesc(init), last, k);
      TiesAppend(init, [last], k);
      assert [last][1..] == [];
      assert Ties([last], k) == extra + [];
      calc {
        Ties(SortDesc(s), k);
        Ties(Insert(SortDesc(init), last), k);
        Ties(SortDesc(init), k) + extra;
        Ties(init, k) + Ties([last], k);
        Ties(init + [last], k);
        { assert s == init + [last]; }
        Ties(s, k);
      }
    }
  }

  /** The model's sort is a stable descending sort: its result is sorted, a
      permutation of the input, and keeps the entries of each score in their
      input order. */
  lemma SortDescCorrect(s: seq<Entry>)
    ensures SortedDesc(SortDesc(s))
    ensures multiset(SortDesc(s)) == multiset(s)
    ensures forall k :: Ties(SortDesc(s), k) == Ties(s, k)
  {
    SortDescSorted(s);
    SortDescPermutes(s);
    forall k
      ensures Ties(SortDesc(s), k) == Ties(s, k)
    {
      SortDescTies(s, k);
    }
  }

  lemma SortedTail(s: seq<Entry>)
    requires SortedDesc(s) && s != []
    ensures SortedDesc(s[1..])
  {
    forall i, j | 0 <= i < j < |s[1..]|
      ensures s[1..][i].score >= s[1..][j].score
    {
      assert s[1..][i] == s[i + 1] && s[1..][j] == s[j + 1];
    }
  }

  lemma SortedHeadMax(s: seq<Entry>, x: Entry)
    requires SortedDesc(s) && x in s
    ensures x.score <= s[0].score
  {
    var i :| 0 <= i < |s| && s[i] == x;
    if i > 0 {
      assert s[0].score >= s[i].score;
    }
  }

  /** Two sorted lists with the same ties start with the same entry. */
  lemma HeadsAgree(a: seq<Entry>, b: seq<Entry>)
    requires SortedDesc(a) && SortedDesc(b) && a != [] && b != []
    requires Ties(a, a[0].score) == Ties(b, a[0].score)
    requires Ties(a, b[0].score) == Ties(b, b[0].score)
    ensures a[0] == b[0]
  {
    var ka, kb := a[0].score, b[0].score;
    TiesHead(a);
    TiesHead(b);
    TiesMembers(b, ka);
    assert a[0] in Ties(b, ka);
    SortedHeadMax(b, a[0]);
    TiesMembers(a, kb);
    assert b[0] in Ties(a, kb);
    SortedHeadMax(a, b[0]);
  }

  /** There is only one stable descending sort: two sorted lists that agree
      on the entries of every score are equal.  So `SortDesc` is the result
      of any stable sort by score, highest first. */
  lemma {:induction false} SortedUnique(a: seq<Entry>, b: seq<Entry>)
    requires SortedDesc(a) && SortedDesc(b)
    requires forall k :: Ties(a, k) == Ties(b, k)
    ensures a == b
  {
    if a != [] && b != [] {
      HeadsAgree(a, b);
      forall k
        ensures Ties(a[1..], k) == Ties(b[1..], k)
      {
        TiesTail(a, k);
        TiesTail(b, k);
      }
      SortedTail(a);
      SortedTail(b);
      SortedUnique(a[1..], b[1..]);
      assert a == [a[0]] + a[1..] && b == [b[0]] + b[1..];
    } else if a != [] {
      TiesHead(a);
      assert false;
    } else if b != [] {
      TiesHead(b);
      assert false;
    }
  }

  /** Sorting a ranking that is already sorted changes nothing. */
  lemma SortDescOfSorted(s: seq<Entry>)
    requires SortedDesc(s)
    ensures SortDesc(s) == s
  {
    SortDescCorrect(s);
    SortedUnique(SortDesc(s), s);
  }

  // ----------------------------------------------------------- save lemmas

  /** What a save promises: at most ten entries, one more than before until
      the cap is hit, sorted highest first, all taken from the old ranking
      and the new entry, the new entry always kept while fewer than ten were
      ranked, placed after every earlier entry of the same score, and no
      dropped entry beating a kept one. */
  lemma SaveRanking(ranking: seq<Entry>, e: Entry)
    ensures var r := Save(ranking, e);
      && |r| == (if |ranking| < RANKING_SIZE then |ranking| + 1 else RANKING_SIZE)
      && SortedDesc(r)
      && multiset(r) <= multiset(ranking + [e])
      && (|ranking| < RANKING_SIZE ==> e in r)
    ensures var sorted := SortDesc(ranking + [e]);
      && Ties(sorted, e.score) == Ties(ranking, e.score) + [e]
      && (forall i, j :: 0 <= i < |Save(ranking, e)| <= j < |sorted| ==>
            sorted[j].score <= Save(ranking, e)[i].score)
  {
    var all := ranking + [e];
    var sorted := SortDesc(all);
    SortDescCorrect(all);
    SavePrefix(ranking, e);
    SortedPrefix(sorted, |Save(ranking, e)|);
    if |ranking| < RANKING_SIZE {
      assert Save(ranking, e) == sorted;
      assert e in multiset(all);
    }
    NewEntryTies(ranking, e);
  }

  /** A prefix of a sorted list is sorted, is part of the list, and no
      entry after it scores more than an entry in it. */
  lemma SortedPrefix(s: seq<Entry>, n: nat)
    requires SortedDesc(s) && n <= |s|
    ensures SortedDesc(s[..n])
    ensures multiset(s[..n]) <= multiset(s)
    ensures forall i, j :: 0 <= i < n <= j < |s| ==> s[j].score <= s[..n][i].score
  {
    assert s == s[..n] + s[n..];
    assert multiset(s) == multiset(s[..n]) + multiset(s[n..]);
  }

  /** After sorting, the new entry comes after every earlier entry of its
      score. */
  lemma NewEntryTies(ranking: seq<Entry>, e: Entry)
    ensures Ties(SortDesc(ranking + [e]), e.score) == Ties(ranking, e.score) + [e]
  {
    SortDescTies(ranking + [e], e.score);
    TiesAppend(ranking, [e], e.score);
    assert [e][1..] == [];
    assert Ties([e], e.score) == [e] + [];
  }

  /** The ranking after a save is the first ten of the result of ANY stable
      descending sort of the old ranking followed by the new entry. */
  lemma SaveIsPrefixOfStableSort(ranking: seq<Entry>, e: Entry, t: seq<Entry>)
    requires SortedDesc(t)
    requires forall k :: Ties(t, k) == Ties(ranking + [e], k)
    ensures |Save(ranking, e)| <= |t|
    ensures Save(ranking, e) == t[..|Save(ranking, e)|]
  {
    var sorted := SortDesc(ranking + [e]);
    SortDescCorrect(ranking + [e]);
    assert forall k :: Ties(sorted, k) == Ties(t, k);
    SortedUnique(sorted, t);
    SavePrefix(ranking, e);
  }

  /** A save keeps a prefix of the sorted list. */
  lemma SavePrefix(ranking: seq<Entry>, e: Entry)
    ensures |Save(ranking, e)| <= |SortDesc(ranking + [e])|
    ensures Save(ranking, e) == SortDesc(ranking + [e])[..|Save(ranking, e)|]
  {
    SortDescPermutes(ranking + [e]);
  }

  lemma {:induction false} InsertAtRank(s: seq<Entry>, e: Entry)
    ensures RankOf(s, e.score) <= |s|
    ensures Insert(s, e) == s[..RankOf(s, e.score)] + [e] + s[RankOf(s, e.score)..]
  {
    if s != [] && s[0].score >= e.score {
      InsertAtRank(s[1..], e);
      var p := RankOf(s[1..], e.score);
      assert s[..p + 1] == [s[0]] + s[1..][..p];
      assert s[p + 1..] == s[1..][p..];
    }
  }

  lemma {:induction false} RankOfSorted(s: seq<Entry>, score: int)
    requires SortedDesc(s)
    ensures RankOf(s, score) <= |s|
    ensures forall i :: 0 <= i < RankOf(s, score) ==> s[i].score >= score
    ensures forall i :: RankOf(s, score) <= i < |s| ==> s[i].score < score
  {
    if s != [] && s[0].score >= score {
      RankOfSorted(s[1..], score);
      forall i | 1 <= i <= RankOf(s, score) - 1
        ensures s[i].score >= score
      {
        assert s[i] == s[1..][i - 1];
      }
      forall i | RankOf(s, score) <= i < |s|
        ensures s[i].score < score
      {
        assert s[i] == s[1..][i - 1];
      }
    }
  }

  /** Sorting a sorted ranking with a new entry at its end inserts the entry
      at its rank. */
  lemma SortAppendedAtRank(ranking: seq<Entry>, e: Entry)
    requires SortedDesc(ranking)
    ensures RankOf(ranking, e.score) <= |ranking|
    ensures SortDesc(ranking + [e])
         == ranking[..RankOf(ranking, e.score)] + [e] + ranking[RankOf(ranking, e.score)..]
  {
    assert (ranking + [e])[..|ranking + [e]| - 1] == ranking;
    SortDescOfSorted(ranking);
    InsertAtRank(ranking, e);
  }

  /** Saving into a sorted ranking (every ranking a save wrote is sorted)
      inserts the new entry at its rank, the number of entries scoring at
      least as much: the entries before it stay in place, those after it move
      down one, and if the rank is ten or more the ranking is left as its
      first ten entries. */
  lemma SaveIntoSorted(ranking: seq<Entry>, e: Entry)
    requires SortedDesc(ranking)
    ensures var p := RankOf(ranking, e.score);
      && p <= |ranking|
      && (forall i :: 0 <= i < p ==> ranking[i].score >= e.score)
      && (forall i :: p <= i < |ranking| ==> ranking[i].score < e.score)
      && (p < RANKING_SIZE ==> Save(ranking, e)[p] == e)
      && (forall i :: 0 <= i < p && i < RANKING_SIZE ==> Save(ranking, e)[i] == ranking[i])
      && (forall i :: p < i < |Save(ranking, e)| ==> Save(ranking, e)[i] == ranking[i - 1])
      && (p >= RANKING_SIZE ==> Save(ranking, e) == ranking[..RANKING_SIZE])
  {
    var p := RankOf(ranking, e.score);
    SortAppendedAtRank(ranking, e);
    RankOfSorted(ranking, e.score);
    var ins := ranking[..p] + [e] + ranking[p..];
    var r := Save(ranking, e);
    SavePrefix(ranking, e);
    assert r == ins[..|r|];
    forall i | 0 <= i < p && i < RANKING_SIZE
      ensures r[i] == ranking[i]
    {
      assert ins[i] == ranking[i];
    }
    forall i | p < i < |r|
      ensures r[i] == ranking[i - 1]
    {
      assert ins[i] == ranking[i - 1];
    }
    if p >= RANKING_SIZE {
      assert ins[..RANKING_SIZE] == ranking[..RANKING_SIZE];
    }
  }

  /** Reading back the file a save wrote: the ranking found there is sorted
      and one entry longer until it holds ten; when the file held a sorted
      ranking (every file a save wrote does) and the new score ranks among
      the first ten, the new entry is found at its rank; the first save of
      all, onto an absent file, leaves just the new entry. */
  lemma SaveThenLoad(f: RankingFile, e: Entry)
    ensures var loaded := Load(Saved(Save(Load(f), e)));
      && SortedDesc(loaded)
      && |loaded| == (if |Load(f)| < RANKING_SIZE then |Load(f)| + 1 else RANKING_SIZE)
      && (SortedDesc(Load(f)) && RankOf(Load(f), e.score) < RANKING_SIZE ==>
            RankOf(Load(f), e.score) < |loaded| && loaded[RankOf(Load(f), e.score)] == e)
    ensures f == NoFile ==> Load(Saved(Save(Load(f), e))) == [e]
  {
    SaveRanking(Load(f), e);
    if SortedDesc(Load(f)) {
      SaveIntoSorted(Load(f), e);
    }
    if f == NoFile {
      assert [] + [e] == [e];
      assert [e][..0] == [];
      assert SortDesc([e]) == Insert([], e);
    }
  }
}
