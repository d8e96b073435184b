/** The merge loop of the byte-fallback BPE encoder.
    The runtime replaces, in one pass, every left-to-right occurrence of the least-ranked pair.
    The classical algorithm merges one occurrence at a time and looks again.  Both are defined
    here and proved equal for every well-ranked merge table. */
module Bpe {
  import opened Wrappers
  import opened Seqs

  /** A token ID.  The runtime packs two 32-bit IDs into one 64-bit key; the packing is
      injective, so a key is modelled by the pair itself. */
  type Token = nat
  type Pair = (Token, Token)

  datatype Merge = Merge(rank: nat, result: Token)
  type MergeTable = map<Pair, Merge>

  /** The initial value of `best_rank`: a merge of this rank or above is never selected. */
  const NO_RANK: nat := 0xFFFF_FFFF

  /** Some adjacent pair of `s` is `p`. */
  ghost predicate Occurs(s: seq<Token>, p: Pair) {
    exists i :: 0 <= i < |s| - 1 && At(s, i) == p
  }

  function At(s: seq<Token>, i: nat): Pair
    requires i < |s| - 1
  {
    (s[i], s[i + 1])
  }

  predicate Selectable(m: MergeTable, p: Pair) {
    p in m && m[p].rank < NO_RANK
  }

  /** The selection scan over the first `n` adjacent pairs: the first pair of strictly least rank. */
  function Best(s: seq<Token>, m: MergeTable, n: nat): (r: Option<Pair>)
    requires n == 0 || n < |s|
    ensures r.Some? ==> Selectable(m, r.value)
  {
    if n == 0 then None
    else
      var b := Best(s, m, n - 1);
      var p := At(s, n - 1);
      if p in m && m[p].rank < (if b.None? then NO_RANK else m[b.value].rank) then Some(p) else b
  }

  function BestPair(s: seq<Token>, m: MergeTable): Option<Pair> {
    if |s| > 1 then Best(s, m, |s| - 1) else None
  }

  /** What the scan finds: a selectable pair that occurs and ranks no higher than any other,
      or nothing exactly when no selectable pair occurs. */
  lemma {:induction false} BestIsLeast(s: seq<Token>, m: MergeTable, n: nat)
    requires n == 0 || n < |s|
    ensures Best(s, m, n).None? <==> forall i :: 0 <= i < n ==> !Selectable(m, At(s, i))
    ensures Best(s, m, n).Some? ==>
              && (exists i :: 0 <= i < n && At(s, i) == Best(s, m, n).value)
              && forall i :: 0 <= i < n && Selectable(m, At(s, i)) ==>
                   m[Best(s, m, n).value].rank <= m[At(s, i)].rank
  {
    if n > 0 {
      BestIsLeast(s, m, n - 1);
      var b := Best(s, m, n - 1);
      if b.Some? {
        var i :| 0 <= i < n - 1 && At(s, i) == b.value;
      }
      assert At(s, n - 1) == At(s, n - 1);
    }
  }

  /** One pass of the runtime: replace all non-overlapping occurrences of `p`, left to right. */
  function ReplaceAll(s: seq<Token>, p: Pair, c: Token): (r: seq<Token>)
    ensures |r| <= |s|
    ensures s != [] ==> r != []
  {
    if |s| < 2 then s
    else if At(s, 0) == p then [c] + ReplaceAll(s[2..], p, c)
    else [s[0]] + ReplaceAll(s[1..], p, c)
  }

  /** One step of the classical algorithm: replace the leftmost occurrence of `p` only. */
  function ReplaceFirst(s: seq<Token>, p: Pair, c: Token): (r: seq<Token>)
    ensures |r| <= |s|
    ensures s != [] ==> r != []
  {
    if |s| < 2 then s
    else if At(s, 0) == p then [c] + s[2..]
    else [s[0]] + ReplaceFirst(s[1..], p, c)
  }

  lemma OccursTail(s: seq<Token>, p: Pair)
    requires |s| >= 2 && At(s, 0) != p
    ensures Occurs(s, p) <==> Occurs(s[1..], p)
  {
    if Occurs(s, p) {
      var i :| 0 <= i < |s| - 1 && At(s, i) == p;
      assert At(s[1..], i - 1) == p;
    }
    if Occurs(s[1..], p) {
      var i :| 0 <= i < |s[1..]| - 1 && At(s[1..], i) == p;
      assert At(s, i + 1) == p;
    }
  }

  /** Where the pair occurs both steps shorten the list; elsewhere the pass changes nothing. */
  lemma {:induction false} ReplaceShortens(s: seq<Token>, p: Pair, c: Token)
    ensures Occurs(s, p) ==> |ReplaceAll(s, p, c)| < |s| && |ReplaceFirst(s, p, c)| == |s| - 1
    ensures !Occurs(s, p) ==> ReplaceAll(s, p, c) == s
  {
    if |s| >= 2 {
      if At(s, 0) == p {
      } else {
        OccursTail(s, p);
        ReplaceShortens(s[1..], p, c);
      }
    }
  }

  /** The runtime's loop: passes until no selectable pair is adjacent. */
  ghost function Batched(s: seq<Token>, m: MergeTable): seq<Token>
    decreases |s|
  {
    var b := BestPair(s, m);
    if b.None? then s
    else
      (BestOccurs(s, m);
       ReplaceShortens(s, b.value, m[b.value].result);
       Batched(ReplaceAll(s, b.value, m[b.value].result), m))
  }

  /** The classical loop: one merge, then a fresh selection. */
  ghost function Classic(s: seq<Token>, m: MergeTable): seq<Token>
    decreases |s|
  {
    var b := BestPair(s, m);
    if b.None? then s
    else
      (BestOccurs(s, m);
       ReplaceShortens(s, b.value, m[b.value].result);
       Classic(ReplaceFirst(s, b.value, m[b.value].result), m))
  }

  lemma BestOccurs(s: seq<Token>, m: MergeTable)
    ensures var b := BestPair(s, m);
            b.Some? ==>
              && Selectable(m, b.value) && Occurs(s, b.value)
              && forall q :: Occurs(s, q) && Selectable(m, q) ==> m[b.value].rank <= m[q].rank
    ensures BestPair(s, m).None? <==> forall q :: Occurs(s, q) ==> !Selectable(m, q)
  {
    if |s| > 1 {
      BestIsLeast(s, m, |s| - 1);
      var b := BestPair(s, m);
      if b.Some? {
        var i :| 0 <= i < |s| - 1 && At(s, i) == b.value;
      } else {
      }
      forall q | Occurs(s, q) && Selectable(m, q)
        ensures b.Some? && m[b.value].rank <= m[q].rank
      {
        var i :| 0 <= i < |s| - 1 && At(s, i) == q;
      }
    }
  }

  /** Distinct pairs have distinct ranks, and every merge that consumes a token ranks after
      every merge that produces it. */
  ghost predicate WellRanked(m: MergeTable) {
    && (forall p, q :: p in m && q in m && p != q ==> m[p].rank != m[q].rank)
    && (forall p, q :: p in m && q in m && (q.0 == m[p].result || q.1 == m[p].result) ==> m[p].rank < m[q].rank)
  }

  /** A pair of the list after one classical step is an old pair or touches the new token. */
  lemma {:induction false} PairsAfterFirst(s: seq<Token>, p: Pair, c: Token, i: nat)
    requires i < |ReplaceFirst(s, p, c)| - 1
    ensures var q := At(ReplaceFirst(s, p, c), i); q.0 == c || q.1 == c || Occurs(s, q)
  {
    var r := ReplaceFirst(s, p, c);
    if |s| < 2 {
    } else if At(s, 0) == p {
      if i > 0 {
        assert At(s, i + 1) == At(r, i);
      }
    } else {
      var t := ReplaceFirst(s[1..], p, c);
      assert r == [s[0]] + t;
      if i > 0 {
        PairsAfterFirst(s[1..], p, c, i - 1);
        var q := At(t, i - 1);
        assert At(r, i) == q;
        if Occurs(s[1..], q) {
          var j :| 0 <= j < |s[1..]| - 1 && At(s[1..], j) == q;
          assert At(s, j + 1) == q;
        }
      } else if |s| == 2 {
      } else if At(s[1..], 0) == p {
        assert t[0] == c;
      } else {
        assert t[0] == s[1];
        assert At(s, 0) == At(r, 0);
      }
    }
  }

  /** When the new token is not part of the pair, a pass absorbs a preceding classical step. */
  lemma {:induction false} PassAbsorbsStep(s: seq<Token>, p: Pair, c: Token)
    requires c != p.0 && c != p.1
    ensures ReplaceAll(ReplaceFirst(s, p, c), p, c) == ReplaceAll(s, p, c)
  {
    if |s| < 2 {
    } else if At(s, 0) == p {
      var r := [c] + s[2..];
      assert ReplaceFirst(s, p, c) == r;
      assert r[1..] == s[2..];
      if |r| >= 2 {
        assert At(r, 0) != p;
      } else {
        assert s[2..] == [];
      }
    } else {
      var t := ReplaceFirst(s[1..], p, c);
      var r := [s[0]] + t;
      assert ReplaceFirst(s, p, c) == r;
      PassAbsorbsStep(s[1..], p, c);
      assert r[1..] == t;
      assert t[0] == c || t[0] == s[1];
      assert At(r, 0) != p;
    }
  }

  /** As long as the least-ranked pair still occurs after a classical step, it stays selected. */
  lemma SelectionIsStable(s: seq<Token>, m: MergeTable)
    requires WellRanked(m)
    requires BestPair(s, m).Some?
    ensures var p := BestPair(s, m).value;
            var c := m[p].result;
            c != p.0 && c != p.1 &&
            (Occurs(ReplaceFirst(s, p, c), p) ==> BestPair(ReplaceFirst(s, p, c), m) == Some(p))
  {
    BestOccurs(s, m);
    var p := BestPair(s, m).value;
    var c := m[p].result;
    var r := ReplaceFirst(s, p, c);
    if Occurs(r, p) {
      BestOccurs(r, m);
      var q := BestPair(r, m).value;
      var i :| 0 <= i < |r| - 1 && At(r, i) == q;
      PairsAfterFirst(s, p, c, i);
    }
  }

  /** Main result: for every symbol list the batched loop computes exactly the classical merge. */
  lemma {:induction false} BatchedIsClassic(s: seq<Token>, m: MergeTable)
    requires WellRanked(m)
    ensures Batched(s, m) == Classic(s, m)
    decreases |s|
  {
    var b := BestPair(s, m);
    if b.Some? {
      var p, c := b.value, m[b.value].result;
      var r := ReplaceFirst(s, p, c);
      BestOccurs(s, m);
      ReplaceShortens(s, p, c);
      BatchedIsClassic(r, m);
      SelectionIsStable(s, m);
      PassAbsorbsStep(s, p, c);
      ReplaceShortens(r, p, c);
    }
  }

  /** The ranking hypothesis is needed: when the pair (3, 1) outranks the merge that makes 3,
      the two algorithms split "1 2 1 2" differently. */
  lemma BatchedDiffersWhenIllRanked()
    ensures var m := map[(1, 2) := Merge(1, 3), (3, 1) := Merge(0, 4)];
            !WellRanked(m) && Batched([1, 2, 1, 2], m) == [3, 3] && Classic([1, 2, 1, 2], m) == [4, 2]
  {
    var m: MergeTable := map[(1, 2) := Merge(1, 3), (3, 1) := Merge(0, 4)];
    assert m[(1, 2)].result == (3, 1).0;
    var s := [1, 2, 1, 2];
    assert Best(s, m, 1) == Some((1, 2));
    assert Best(s, m, 2) == Some((1, 2));
    assert BestPair(s, m) == Some((1, 2));
    assert s[2..] == [1, 2] && [1, 2][2..] == [];
    assert ReplaceAll([1, 2], (1, 2), 3) == [3];
    assert ReplaceAll(s, (1, 2), 3) == [3, 3];
    assert BestPair([3, 3], m) == None by { assert Best([3, 3], m, 1) == None; }
    var r := [3, 1, 2];
    assert ReplaceFirst(s, (1, 2), 3) == r;
    assert Best(r, m, 1) == Some((3, 1));
    assert Best(r, m, 2) == Some((3, 1));
    assert BestPair(r, m) == Some((3, 1));
    assert r[2..] == [2];
    assert ReplaceFirst(r, (3, 1), 4) == [4, 2];
    assert BestPair([4, 2], m) == None by { assert Best([4, 2], m, 1) == None; }
    assert Classic(r, m) == Classic([4, 2], m);
  }

  /** The loop stops only when nothing can be merged, and never empties a nonempty list. */
  lemma {:induction false} BatchedIsNormal(s: seq<Token>, m: MergeTable)
    ensures forall q :: Occurs(Batched(s, m), q) ==> !Selectable(m, q)
    ensures |Batched(s, m)| <= |s|
    ensures s != [] ==> Batched(s, m) != []
    decreases |s|
  {
    var b := BestPair(s, m);
    BestOccurs(s, m);
    if b.Some? {
      ReplaceShortens(s, b.value, m[b.value].result);
      BatchedIsNormal(ReplaceAll(s, b.value, m[b.value].result), m);
    }
  }

  // ---------------------------------------------------------------- in the terms of the table alone

  /** Every rank of the table fits below the largest 32-bit number. */
  ghost predicate RanksFit(m: MergeTable) {
    forall p :: p in m ==> m[p].rank < 4294967295
  }

  /** The entries of the table that rank below the largest 32-bit number. */
  function Ranked(m: MergeTable): MergeTable {
    map p | p in m && m[p].rank < 4294967295 :: m[p]
  }

  /** The neighbours at `i` have a merge in the table, below the largest 32-bit rank. */
  predicate Merges(s: seq<Token>, m: MergeTable, i: nat) {
    i + 1 < |s| && (s[i], s[i + 1]) in m && m[(s[i], s[i + 1])].rank < 4294967295
  }

  function RankAt(s: seq<Token>, m: MergeTable, i: nat): nat
    requires Merges(s, m, i)
  {
    m[(s[i], s[i + 1])].rank
  }

  /** Place `i` holds the leftmost neighbours of least rank. */
  ghost predicate LeftmostLeast(s: seq<Token>, m: MergeTable, i: nat) {
    && Merges(s, m, i)
    && (forall j: nat :: Merges(s, m, j) ==> RankAt(s, m, i) <= RankAt(s, m, j))
    && (forall j: nat :: j < i && Merges(s, m, j) ==> RankAt(s, m, i) < RankAt(s, m, j))
  }

  lemma {:induction false} BestIsFirst(s: seq<Token>, m: MergeTable, n: nat) returns (i: nat)
    requires (n == 0 || n < |s|) && Best(s, m, n).Some?
    ensures i < n && Merges(s, m, i) && (s[i], s[i + 1]) == Best(s, m, n).value
    ensures forall j: nat :: j < n && Merges(s, m, j) ==> RankAt(s, m, i) <= RankAt(s, m, j)
    ensures forall j: nat :: j < i && Merges(s, m, j) ==> RankAt(s, m, i) < RankAt(s, m, j)
  {
    var b := Best(s, m, n - 1);
    BestIsLeast(s, m, n - 1);
    forall j: nat | j < n - 1 && Merges(s, m, j)
      ensures Selectable(m, At(s, j)) && At(s, j) == (s[j], s[j + 1])
    {
    }
    if Best(s, m, n) == b {
      i := BestIsFirst(s, m, n - 1);
    } else {
      i := n - 1;
    }
  }

  lemma {:induction false} BestFindsAny(s: seq<Token>, m: MergeTable, n: nat, i: nat)
    requires n < |s| && i < n && Merges(s, m, i)
    ensures Best(s, m, n).Some?
  {
    BestIsLeast(s, m, n);
    assert Selectable(m, At(s, i));
  }

  /** The selection, by the table alone: some neighbours with a rank below the largest 32-bit number are
      found if and only if there are any, and then the leftmost ones of least rank. */
  lemma SelectedExactly(s: seq<Token>, m: MergeTable)
    ensures BestPair(s, m).Some? <==> exists i: nat :: Merges(s, m, i)
    ensures BestPair(s, m).Some? ==> exists i: nat :: LeftmostLeast(s, m, i) && (s[i], s[i + 1]) == BestPair(s, m).value
  {
    if i: nat :| Merges(s, m, i) {
      BestFindsAny(s, m, |s| - 1, i);
    }
    if BestPair(s, m).Some? {
      var i := BestIsFirst(s, m, |s| - 1);
      assert LeftmostLeast(s, m, i);
    }
  }

  lemma SkipsToOccurrence(a: seq<Token>, p: Pair, b: seq<Token>)
    requires a != [] && !Occurs(a + [p.0], p)
    ensures var s := a + ([p.0, p.1] + b);
            |s| >= 2 && At(s, 0) != p && s[1..] == a[1..] + ([p.0, p.1] + b) && s[0] == a[0]
    ensures !Occurs(a[1..] + [p.0], p)
  {
    var t, s := a + [p.0], a + ([p.0, p.1] + b);
    assert At(s, 0) == At(t, 0);
    assert t[1..] == a[1..] + [p.0];
    if Occurs(t[1..], p) {
      OccursTail(t, p);
    }
  }

  lemma PassTakes(p: Pair, b: seq<Token>, c: Token)
    ensures ReplaceAll([p.0, p.1] + b, p, c) == [c] + ReplaceAll(b, p, c)
    ensures ReplaceFirst([p.0, p.1] + b, p, c) == [c] + b
  {
    var s := [p.0, p.1] + b;
    assert s[2..] == b && At(s, 0) == p;
  }

  lemma PassSkips(s: seq<Token>, p: Pair, c: Token)
    requires |s| >= 2 && At(s, 0) != p
    ensures ReplaceAll(s, p, c) == [s[0]] + ReplaceAll(s[1..], p, c)
    ensures ReplaceFirst(s, p, c) == [s[0]] + ReplaceFirst(s[1..], p, c)
  {
  }

  /** What one pass and one classical step do, from the left: everything before the first occurrence
      stays, the occurrence becomes the new token, and the pass goes on behind it. */
  lemma {:induction false} PassFromTheLeft(a: seq<Token>, p: Pair, b: seq<Token>, c: Token)
    requires !Occurs(a + [p.0], p)
    ensures ReplaceAll(a + ([p.0, p.1] + b), p, c) == a + ([c] + ReplaceAll(b, p, c))
    ensures ReplaceFirst(a + ([p.0, p.1] + b), p, c) == a + ([c] + b)
  {
    hide ReplaceAll, ReplaceFirst, Occurs, At;
    if a == [] {
      EmptyUnits([p.0, p.1] + b);
      EmptyUnits([c] + ReplaceAll(b, p, c));
      EmptyUnits([c] + b);
      PassTakes(p, b, c);
    } else {
      SkipsToOccurrence(a, p, b);
      PassSkips(a + ([p.0, p.1] + b), p, c);
      PassFromTheLeft(a[1..], p, b, c);
      HeadAndTail(a);
      Assoc([a[0]], a[1..], [c] + ReplaceAll(b, p, c));
      Assoc([a[0]], a[1..], [c] + b);
    }
  }

  lemma {:induction false} BestIgnoresUnranked(s: seq<Token>, m: MergeTable, n: nat)
    requires n == 0 || n < |s|
    ensures Best(s, m, n) == Best(s, Ranked(m), n)
  {
    if n > 0 {
      BestIgnoresUnranked(s, m, n - 1);
    }
  }

  /** Entries of the largest 32-bit rank or above are never merged: the result is the same without them. */
  lemma {:induction false} UnrankedNeverMerge(s: seq<Token>, m: MergeTable)
    ensures Batched(s, m) == Batched(s, Ranked(m))
    decreases |s|
  {
    if |s| > 1 {
      BestIgnoresUnranked(s, m, |s| - 1);
    }
    var b := BestPair(s, m);
    if b.Some? {
      BestOccurs(s, m);
      ReplaceShortens(s, b.value, m[b.value].result);
      UnrankedNeverMerge(ReplaceAll(s, b.value, m[b.value].result), m);
    }
  }

  /** No neighbours are left that have a merge below the largest 32-bit rank. */
  lemma NothingSelectableLeft(s: seq<Token>, m: MergeTable)
    ensures forall i: nat :: !Merges(Batched(s, m), m, i)
  {
    var r := Batched(s, m);
    BatchedIsNormal(s, m);
    forall i: nat
      ensures !Merges(r, m, i)
    {
      if i + 1 < |r| {
        assert At(r, i) == (r[i], r[i + 1]);
        assert Occurs(r, At(r, i));
      }
    }
  }

  /** Main result: when all ranks fit, merging goes on until no neighbours have a merge at all. */
  lemma NothingLeftToMerge(s: seq<Token>, m: MergeTable)
    requires RanksFit(m)
    ensures forall i: nat :: i + 1 < |Batched(s, m)| ==> (Batched(s, m)[i], Batched(s, m)[i + 1]) !in m
  {
    var r := Batched(s, m);
    NothingSelectableLeft(s, m);
    forall i: nat | i + 1 < |r|
      ensures (r[i], r[i + 1]) !in m
    {
      assert !Merges(r, m, i);
    }
  }

  // ---------------------------------------------------------------- the loops

  /** The selection scan of one round. */
  method SelectPair(symbols: seq<Token>, m: MergeTable) returns (found: bool, best: Pair)
    requires |symbols| > 1
    ensures BestPair(symbols, m) == if found then Some(best) else None
    ensures found <==> exists i: nat :: Merges(symbols, m, i)
    ensures found ==> exists i: nat :: LeftmostLeast(symbols, m, i) && best == (symbols[i], symbols[i + 1])
  {
    var bestRank := NO_RANK;
    best, found := (0, 0), false;
    for index := 0 to |symbols| - 1
      invariant Best(symbols, m, index) == if found then Some(best) else None
      invariant bestRank == if found then m[best].rank else NO_RANK
    {
      var key := (symbols[index], symbols[index + 1]);
      if key in m && m[key].rank < bestRank {
        bestRank, best, found := m[key].rank, key, true;
      }
    }
    SelectedExactly(symbols, m);
  }

  lemma PassUnfolds(s: seq<Token>, index: nat, p: Pair, c: Token)
    requires index < |s|
    ensures ReplaceAll(s[index..], p, c)
         == if index + 1 < |s| && (s[index], s[index + 1]) == p then [c] + ReplaceAll(s[index + 2..], p, c)
            else [s[index]] + ReplaceAll(s[index + 1..], p, c)
  {
    var rest := s[index..];
    assert rest[1..] == s[index + 1..];
    if index + 1 < |s| {
      assert rest[2..] == s[index + 2..];
    } else {
      assert rest == [s[index]] && s[index + 1..] == [];
    }
  }

  /** The rebuilding pass of one round. */
  method ReplacePass(symbols: seq<Token>, best: Pair, result: Token) returns (next: seq<Token>)
    ensures next == ReplaceAll(symbols, best, result)
  {
    hide ReplaceAll;
    next := [];
    var index := 0;
    assert symbols[0..] == symbols;
    while index < |symbols|
      invariant 0 <= index <= |symbols|
      invariant next + ReplaceAll(symbols[index..], best, result) == ReplaceAll(symbols, best, result)
    {
      PassUnfolds(symbols, index, best, result);
      if index + 1 < |symbols| && (symbols[index], symbols[index + 1]) == best {
        Assoc(next, [result], ReplaceAll(symbols[index + 2..], best, result));
        next := next + [result];
        index := index + 2;
      } else {
        Assoc(next, [symbols[index]], ReplaceAll(symbols[index + 1..], best, result));
        next := next + [symbols[index]];
        index := index + 1;
      }
    }
    assert symbols[index..] == [];
    NothingReplaced(best, result);
    EmptyUnits(next);
  }

  lemma NothingReplaced(p: Pair, c: Token)
    ensures ReplaceAll([], p, c) == []
  {
  }

  /** The merge loop of `EncodeOrdinary`. */
  method MergeSymbols(input: seq<Token>, m: MergeTable) returns (symbols: seq<Token>)
    ensures symbols == Batched(input, m)
    ensures forall i: nat :: !Merges(symbols, m, i)
  {
    symbols := input;
    while |symbols| > 1
      invariant Batched(symbols, m) == Batched(input, m)
      decreases |symbols|
    {
      var found, best := SelectPair(symbols, m);
      if !found {
        break;
      }
      BestOccurs(symbols, m);
      ReplaceShortens(symbols, best, m[best].result);
      symbols := ReplacePass(symbols, best, m[best].result);
    }
    NothingSelectableLeft(input, m);
  }
}
