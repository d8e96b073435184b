/** Building the tokenizer's tables from the parsed tokenizer file. */
module TokenizerLoad {
  import opened Wrappers
  import opened Seqs
  import opened Text
  import opened Utf8
  import opened Bpe
  import opened Tokenizer
  import opened TokenizerDecode

  datatype Vocabulary = Vocabulary(ids: map<Text, Token>, tokens: seq<Text>)

  /** The parser yields an object's members under distinct keys. */
  ghost predicate DistinctKeys(items: seq<(Text, Token)>) {
    forall i, j :: 0 <= i < j < |items| ==> items[i].0 != items[j].0
  }

  ghost predicate Holds(v: Vocabulary, item: (Text, Token)) {
    && item.0 in v.ids && v.ids[item.0] == item.1
    && item.1 < |v.tokens| && (item.0 != [] ==> v.tokens[item.1] == item.0)
  }

  /** The tables after the first `k` members. */
  ghost predicate FilledUpTo(v: Vocabulary, items: seq<(Text, Token)>, k: nat)
    requires k <= |items|
  {
    && (forall i :: 0 <= i < k ==> Holds(v, items[i]))
    && (forall t :: t in v.ids ==> exists i :: 0 <= i < k && items[i] == (t, v.ids[t]))
    && (forall id :: 0 <= id < |v.tokens| && v.tokens[id] != [] ==> exists i :: 0 <= i < k && items[i] == (v.tokens[id], id))
  }

  function Insert(v: Vocabulary, item: (Text, Token)): Vocabulary
    requires item.1 < |v.tokens|
  {
    Vocabulary(v.ids[item.0 := item.1], v.tokens[item.1 := item.0])
  }

  lemma InsertFills(v: Vocabulary, items: seq<(Text, Token)>, k: nat)
    requires k < |items| && DistinctKeys(items) && FilledUpTo(v, items, k)
    requires items[k].1 < |v.tokens| && v.tokens[items[k].1] == []
    ensures FilledUpTo(Insert(v, items[k]), items, k + 1)
  {
    var w := Insert(v, items[k]);
    forall i | 0 <= i < k + 1
      ensures Holds(w, items[i])
    {
      if i < k {
        assert Holds(v, items[i]) && items[i].0 != items[k].0;
      }
    }
    forall t | t in w.ids
      ensures exists i :: 0 <= i < k + 1 && items[i] == (t, w.ids[t])
    {
      if t == items[k].0 {
        assert items[k] == (t, w.ids[t]);
      } else {
        var i :| 0 <= i < k && items[i] == (t, v.ids[t]);
      }
    }
    forall id | 0 <= id < |w.tokens| && w.tokens[id] != []
      ensures exists i :: 0 <= i < k + 1 && items[i] == (w.tokens[id], id)
    {
      if id == items[k].1 {
        assert items[k] == (w.tokens[id], id);
      } else {
        var i :| 0 <= i < k && items[i] == (v.tokens[id], id);
      }
    }
  }

  /** Among the first `k` members one takes the ID of an earlier member with a nonempty text. */
  ghost predicate Clash(items: seq<(Text, Token)>, k: nat)
    requires k <= |items|
  {
    exists i, j :: 0 <= i < j < k && items[i].1 == items[j].1 && items[i].0 != []
  }

  lemma TakenIsClash(v: Vocabulary, items: seq<(Text, Token)>, k: nat)
    requires k < |items| && FilledUpTo(v, items, k) && items[k].1 < |v.tokens| && v.tokens[items[k].1] != []
    ensures Clash(items, |items|)
  {
    var i :| 0 <= i < k && items[i] == (v.tokens[items[k].1], items[k].1);
    assert items[i].1 == items[k].1 && items[i].0 != [];
  }

  lemma FreeIsNoClash(v: Vocabulary, items: seq<(Text, Token)>, k: nat)
    requires k < |items| && FilledUpTo(v, items, k) && !Clash(items, k)
    requires items[k].1 < |v.tokens| && v.tokens[items[k].1] == []
    ensures !Clash(items, k + 1)
  {
    forall i, j | 0 <= i < j < k + 1 && items[i].1 == items[j].1
      ensures items[i].0 == []
    {
      assert j == k ==> Holds(v, items[i]);
    }
  }

  lemma NothingFilled(tokens: seq<Text>, items: seq<(Text, Token)>)
    requires forall id :: 0 <= id < |tokens| ==> tokens[id] == []
    ensures FilledUpTo(Vocabulary(map[], tokens), items, 0) && !Clash(items, 0)
  {
  }

  /** The two vocabulary loops of `Load`.  An ID counts as taken only while its token text is
      nonempty, so a clash with an empty text goes unnoticed. */
  method LoadVocabulary(items: seq<(Text, Token)>) returns (r: Result<Vocabulary>)
    requires DistinctKeys(items)
    ensures r.Err? <==> Clash(items, |items|)
    ensures r.Err? ==> r.code == DataLoss
    ensures r.Ok? ==> FilledUpTo(r.value, items, |items|)
  {
    hide Clash, FilledUpTo;
    var maximum := 0;
    for k := 0 to |items|
      invariant forall i :: 0 <= i < k ==> items[i].1 <= maximum
    {
      if maximum < items[k].1 {
        maximum := items[k].1;
      }
    }
    var tokens: seq<Text> := seq(maximum + 1, _ => []);
    var ids: map<Text, Token> := map[];
    NothingFilled(tokens, items);
    for k := 0 to |items|
      invariant |tokens| == maximum + 1
      invariant FilledUpTo(Vocabulary(ids, tokens), items, k) && !Clash(items, k)
    {
      var (token, id) := items[k];
      if tokens[id] != [] {
        TakenIsClash(Vocabulary(ids, tokens), items, k);
        return Err(DataLoss);
      }
      FreeIsNoClash(Vocabulary(ids, tokens), items, k);
      InsertFills(Vocabulary(ids, tokens), items, k);
      tokens := tokens[id := token];
      ids := ids[token := id];
    }
    return Ok(Vocabulary(ids, tokens));
  }

  /** Accepted vocabularies give no two members one ID, unless one of the two texts is empty. */
  lemma AcceptedIdsAreDistinct(v: Vocabulary, items: seq<(Text, Token)>, i: nat, j: nat)
    requires FilledUpTo(v, items, |items|) && DistinctKeys(items)
    requires i < j < |items| && items[i].0 != [] && items[j].0 != []
    ensures items[i].1 != items[j].1
  {
    assert Holds(v, items[i]) && Holds(v, items[j]);
  }

  function Key(vocabulary: map<Text, Token>, entry: (Text, Text)): Pair
    requires entry.0 in vocabulary && entry.1 in vocabulary
  {
    (vocabulary[entry.0], vocabulary[entry.1])
  }

  predicate Resolves(vocabulary: map<Text, Token>, entry: (Text, Text)) {
    entry.0 in vocabulary && entry.1 in vocabulary && entry.0 + entry.1 in vocabulary
  }

  /** `m[p]` comes from the first entry with that key: its index is the rank, its joined text
      the result. */
  ghost predicate FromFirstEntry(m: MergeTable, p: Pair, vocabulary: map<Text, Token>, entries: seq<(Text, Text)>)
    requires p in m
  {
    var k := m[p].rank;
    && k < |entries| && Resolves(vocabulary, entries[k]) && Key(vocabulary, entries[k]) == p
    && m[p].result == vocabulary[entries[k].0 + entries[k].1]
    && forall j :: 0 <= j < k && Resolves(vocabulary, entries[j]) ==> Key(vocabulary, entries[j]) != p
  }

  /** The merge loop of `Load`: `emplace` keeps the first entry of a key, but every entry uses
      up a rank. */
  method LoadMerges(vocabulary: map<Text, Token>, entries: seq<(Text, Text)>) returns (r: Result<MergeTable>)
    ensures r.Ok? <==> forall k :: 0 <= k < |entries| ==> Resolves(vocabulary, entries[k])
    ensures r.Err? ==> r.code == DataLoss
    ensures r.Ok? ==>
      && (forall p :: p in r.value ==> FromFirstEntry(r.value, p, vocabulary, entries))
      && (forall k :: 0 <= k < |entries| ==> Key(vocabulary, entries[k]) in r.value)
  {
    var rank := 0;
    var merges: MergeTable := map[];
    for k := 0 to |entries|
      invariant rank == k
      invariant forall i :: 0 <= i < k ==> Resolves(vocabulary, entries[i])
      invariant forall p :: p in merges ==> FromFirstEntry(merges, p, vocabulary, entries) && merges[p].rank < k
      invariant forall i :: 0 <= i < k ==> Key(vocabulary, entries[i]) in merges
    {
      var (left, right) := entries[k];
      if left !in vocabulary || right !in vocabulary || left + right !in vocabulary {
        return Err(DataLoss);
      }
      var key := (vocabulary[left], vocabulary[right]);
      var merge := Merge(rank, vocabulary[left + right]);
      rank := rank + 1;
      if key !in merges {
        ghost var before := merges;
        merges := merges[key := merge];
        forall p | p in merges
          ensures FromFirstEntry(merges, p, vocabulary, entries)
        {
          if p != key {
            assert FromFirstEntry(before, p, vocabulary, entries);
          }
        }
      }
    }
    return Ok(merges);
  }

  ghost predicate Loaded(tk: Tables, items: seq<(Text, Token)>, entries: seq<(Text, Text)>) {
    && DistinctKeys(items) && FilledUpTo(Vocabulary(tk.vocabulary, tk.tokens), items, |items|)
    && (forall p :: p in tk.merges ==> FromFirstEntry(tk.merges, p, tk.vocabulary, entries))
  }

  /** Main result: on tables loaded from fewer than 4,294,967,295 merge entries, merging leaves no
      neighbours that the table merges. */
  lemma LoadedLeaveNothing(tk: Tables, items: seq<(Text, Token)>, entries: seq<(Text, Text)>, s: seq<Token>)
    requires Loaded(tk, items, entries) && |entries| <= 4294967295
    ensures RanksFit(tk.merges)
    ensures var r := Batched(s, tk.merges); forall i: nat :: i + 1 < |r| ==> (r[i], r[i + 1]) !in tk.merges
  {
    forall p | p in tk.merges
      ensures tk.merges[p].rank < 4294967295
    {
      assert FromFirstEntry(tk.merges, p, tk.vocabulary, entries);
    }
    NothingLeftToMerge(s, tk.merges);
  }

  /** The empty text is in the vocabulary under the ID of another text. */
  predicate EmptyShared(vocabulary: map<Text, Token>) {
    [] in vocabulary && exists t :: t in vocabulary && t != [] && vocabulary[t] == vocabulary[[]]
  }

  /** Some merge that was kept comes from an entry with an empty side. */
  ghost predicate KeepsEmptySide(tk: Tables, entries: seq<(Text, Text)>) {
    exists p :: p in tk.merges && tk.merges[p].rank < |entries| && HasEmptySide(entries[tk.merges[p].rank])
  }

  predicate HasEmptySide(entry: (Text, Text)) {
    entry.0 == [] || entry.1 == []
  }

  /** Loaded tables satisfy what the round trip and the merge theorem ask of the file's shape:
      nonempty texts are found under their IDs, and ranks are distinct. */
  lemma LoadedTablesAgree(tk: Tables, items: seq<(Text, Token)>, entries: seq<(Text, Text)>)
    requires Loaded(tk, items, entries)
    ensures VocabularyAgrees(tk)
    ensures forall p, q :: p in tk.merges && q in tk.merges && p != q ==> tk.merges[p].rank != tk.merges[q].rank
  {
    forall t | t in tk.vocabulary && t != []
      ensures tk.vocabulary[t] < |tk.tokens| && tk.tokens[tk.vocabulary[t]] == t
    {
      TextOfId(tk, items, entries, t);
    }
  }

  /** An ID's token text: the text itself, or for the empty text whatever shares its ID. */
  lemma TextOfId(tk: Tables, items: seq<(Text, Token)>, entries: seq<(Text, Text)>, t: Text)
    requires Loaded(tk, items, entries) && t in tk.vocabulary
    ensures tk.vocabulary[t] < |tk.tokens|
    ensures t != [] ==> tk.tokens[tk.vocabulary[t]] == t
    ensures t == [] ==> (tk.tokens[tk.vocabulary[t]] == [] <==> !EmptyShared(tk.vocabulary))
  {
    var v := Vocabulary(tk.vocabulary, tk.tokens);
    var k :| 0 <= k < |items| && items[k] == (t, tk.vocabulary[t]);
    assert Holds(v, items[k]);
    if t == [] {
      var id := tk.vocabulary[t];
      if tk.tokens[id] != [] {
        var i :| 0 <= i < |items| && items[i] == (tk.tokens[id], id);
        assert Holds(v, items[i]);
        assert tk.vocabulary[items[i].0] == id;
      } else {
        forall u | u in tk.vocabulary && tk.vocabulary[u] == id
          ensures u == []
        {
          var i :| 0 <= i < |items| && items[i] == (u, tk.vocabulary[u]);
          assert Holds(v, items[i]);
        }
      }
    }
  }

  /** One kept merge joins its texts, unless it has an empty side whose ID is shared. */
  lemma JoinsExactly(tk: Tables, items: seq<(Text, Token)>, entries: seq<(Text, Text)>, p: Pair)
    requires Loaded(tk, items, entries) && p in tk.merges
    ensures Joins(tk, p) <==> !(EmptyShared(tk.vocabulary) && HasEmptySide(entries[tk.merges[p].rank]))
  {
    hide EmptyShared, FilledUpTo;
    var entry := entries[tk.merges[p].rank];
    assert FromFirstEntry(tk.merges, p, tk.vocabulary, entries);
    TextOfId(tk, items, entries, entry.0);
    TextOfId(tk, items, entries, entry.1);
    TextOfId(tk, items, entries, entry.0 + entry.1);
    if HasEmptySide(entry) {
      EmptyUnits(if entry.0 == [] then entry.1 else entry.0);
    }
  }

  /** Main result: on loaded tables every merge results in the concatenation of its two texts, if
      and only if no kept merge entry has an empty side while the empty text shares its ID. */
  lemma MergesJoinExactly(tk: Tables, items: seq<(Text, Token)>, entries: seq<(Text, Text)>)
    requires Loaded(tk, items, entries)
    ensures (forall p :: p in tk.merges ==> Joins(tk, p)) <==> !(EmptyShared(tk.vocabulary) && KeepsEmptySide(tk, entries))
  {
    hide EmptyShared, FilledUpTo, Joins, HasEmptySide;
    forall p | p in tk.merges
      ensures Joins(tk, p) <==> !(EmptyShared(tk.vocabulary) && HasEmptySide(entries[tk.merges[p].rank]))
    {
      JoinsExactly(tk, items, entries, p);
    }
  }

  /** The tables `Load` builds for a vocabulary that gives "" and "a" the same ID, and one merge. */
  function SharedIdTables(): Tables {
    Tables(map[[] := 0, [0x61] := 0, MARKER := 1], [[0x61], MARKER], map[(0, 0) := Merge(0, 0)], [], {})
  }

  const A: Text := [0x61]
  const AA: Text := [0x61, 0x61]

  lemma SharedIdTablesLoad()
    ensures Loaded(SharedIdTables(), [([], 0), (A, 0), (MARKER, 1)], [([], A)])
  {
    var tk := SharedIdTables();
    var items: seq<(Text, Token)> := [([], 0), (A, 0), (MARKER, 1)];
    assert items[0] == ([], 0) && items[1] == (A, 0) && items[2] == (MARKER, 1);
    assert [] + A == A;
    assert FromFirstEntry(tk.merges, (0, 0), tk.vocabulary, [([], A)]);
  }

  lemma SplitAA()
    ensures Split(AA) == Ok([A, A])
  {
    assert [A, A][1..] == [A] && [A][1..] == [] && IsCharacter(A);
    assert Flatten([A]) == A + Flatten([]) == A;
    assert Flatten([A, A]) == A + Flatten([A]) == AA;
    SplitFlatten([A, A]);
  }

  lemma OrdinaryAA()
    ensures OrdinarySpec(SharedIdTables(), AA) == Ok([0])
  {
    var tk := SharedIdTables();
    NormalizeMarkerFree(AA);
    SplitAA();
    assert [A, A][1..] == [A] && [A][1..] == [] && [0] + [0] == [0, 0];
    assert InitialSymbols(tk, [A]) == Prepend([0], Ok([])) == Ok([0]);
    assert InitialSymbols(tk, [A, A]) == Prepend([0], Ok([0])) == Ok([0, 0]);
    assert Best([0, 0], tk.merges, 1) == Some((0, 0));
    assert ReplaceAll([0, 0], (0, 0), 0) == [0] by { assert [0, 0][2..] == []; }
    assert Batched([0, 0], tk.merges) == Batched([0], tk.merges) == [0];
  }

  /** The exception happens, and costs the round trip: these tables load, and the text "aa" encodes
      to one token that decodes to "a". */
  lemma SharedEmptySideBreaksRoundTrip()
    ensures var tk := SharedIdTables();
            && EmptyShared(tk.vocabulary)
            && Loaded(tk, [([], 0), (A, 0), (MARKER, 1)], [([], A)])
            && EncodeSpec(tk, AA) == Ok([0])
            && DecodeSpec(tk, [0], false) == Ok(A)
  {
    hide OrdinarySpec, Loaded;
    var tk := SharedIdTables();
    SharedIdTablesLoad();
    assert A in tk.vocabulary && A != [] && tk.vocabulary[A] == tk.vocabulary[[]];
    OrdinaryAA();
    assert AA[1..] == A && A[1..] == [] && [] + [AA[0]] == A && A + [A[0]] == AA;
    assert EncodeFrom(tk, [], AA) == EncodeFrom(tk, A, A) == EncodeFrom(tk, AA, []);
    assert Unmark(A) == A;
    assert DecodeSpec(tk, [0], false) == Prepend(A, DecodeSpec(tk, [], false));
  }
}
