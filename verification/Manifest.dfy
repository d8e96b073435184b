/** The byte accounting of a checkpoint manifest. */
module Manifest {
  import opened Seqs
  import opened Words

  /** One classified tensor of the checkpoint. */
  datatype Tensor = Tensor(name: string, bytes: Word, quantizationClass: string, expectedRole: string, textOnly: bool)

  datatype ClassTotal = ClassTotal(tensors: nat, bytes: Word)

  datatype Manifest = Manifest(
    tensors: seq<Tensor>, totals: map<string, ClassTotal>, total: Word, textOnly: Word, skipped: Word)

  /** `+=` on 64-bit words. */
  function WrapAdd(a: Word, b: Word): Word {
    (a + b) % LIMIT
  }

  // ---------------------------------------------------------------- sums

  function Sum(tensors: seq<Tensor>): nat {
    if tensors == [] then 0 else Sum(tensors[..|tensors| - 1]) + tensors[|tensors| - 1].bytes
  }

  function Only(tensors: seq<Tensor>, keep: Tensor -> bool): (r: seq<Tensor>) {
    if tensors == [] then []
    else
      var last := tensors[|tensors| - 1];
      Only(tensors[..|tensors| - 1], keep) + (if keep(last) then [last] else [])
  }

  function OfClass(name: string): Tensor -> bool {
    (t: Tensor) => t.quantizationClass == name
  }

  function TextOnly(): Tensor -> bool {
    (t: Tensor) => t.textOnly
  }

  function Skipped(): Tensor -> bool {
    (t: Tensor) => !t.textOnly
  }

  lemma SumSnoc(tensors: seq<Tensor>, t: Tensor)
    ensures Sum(tensors + [t]) == Sum(tensors) + t.bytes
  {
    assert (tensors + [t])[..|tensors|] == tensors;
  }

  lemma OnlySnoc(tensors: seq<Tensor>, t: Tensor, keep: Tensor -> bool)
    ensures Only(tensors + [t], keep) == Only(tensors, keep) + (if keep(t) then [t] else [])
  {
    assert (tensors + [t])[..|tensors|] == tensors;
  }

  /** What keeping `t` or not does to a partial sum. */
  lemma OnlySum(tensors: seq<Tensor>, t: Tensor, keep: Tensor -> bool)
    ensures Sum(Only(tensors + [t], keep)) == Sum(Only(tensors, keep)) + (if keep(t) then t.bytes else 0)
  {
    hide Sum, Only;
    OnlySnoc(tensors, t, keep);
    SumSnoc(Only(tensors, keep), t);
    EmptyUnits(Only(tensors, keep));
  }

  /** A predicate and its opposite split the bytes. */
  lemma {:induction false} SplitSum(tensors: seq<Tensor>, keep: Tensor -> bool, other: Tensor -> bool)
    requires forall t :: keep(t) <==> !other(t)
    ensures Sum(Only(tensors, keep)) + Sum(Only(tensors, other)) == Sum(tensors)
  {
    if tensors != [] {
      var front, last := tensors[..|tensors| - 1], tensors[|tensors| - 1];
      assert tensors == front + [last];
      SplitSum(front, keep, other);
      OnlySum(front, last, keep);
      OnlySum(front, last, other);
    }
  }

  lemma WrapStep(word: Word, sum: nat, bytes: Word)
    requires word == sum % LIMIT
    ensures WrapAdd(word, bytes) == (sum + bytes) % LIMIT
  {
  }

  // ---------------------------------------------------------------- the accounting loop

  /** What the manifest records about `tensors`. */
  ghost predicate Accounts(m: Manifest) {
    && m.total == Sum(m.tensors) % LIMIT
    && m.textOnly == Sum(Only(m.tensors, TextOnly())) % LIMIT
    && m.skipped == Sum(Only(m.tensors, Skipped())) % LIMIT
    && (forall c :: c in m.totals <==> exists k :: 0 <= k < |m.tensors| && m.tensors[k].quantizationClass == c)
    && (forall c :: c in m.totals ==>
          m.totals[c] == ClassTotal(|Only(m.tensors, OfClass(c))|, Sum(Only(m.tensors, OfClass(c))) % LIMIT))
  }

  /** One round of the loop. */
  function Record(m: Manifest, t: Tensor): Manifest {
    var c := t.quantizationClass;
    var before := if c in m.totals then m.totals[c] else ClassTotal(0, 0);
    Manifest(
      m.tensors + [t],
      m.totals[c := ClassTotal(before.tensors + 1, WrapAdd(before.bytes, t.bytes))],
      WrapAdd(m.total, t.bytes),
      if t.textOnly then WrapAdd(m.textOnly, t.bytes) else m.textOnly,
      if t.textOnly then m.skipped else WrapAdd(m.skipped, t.bytes))
  }

  lemma {:induction false} NoneOfClass(tensors: seq<Tensor>, c: string)
    requires forall k :: 0 <= k < |tensors| ==> tensors[k].quantizationClass != c
    ensures Only(tensors, OfClass(c)) == []
  {
    if tensors != [] {
      NoneOfClass(tensors[..|tensors| - 1], c);
    }
  }

  lemma RecordAccounts(m: Manifest, t: Tensor)
    requires Accounts(m)
    ensures Accounts(Record(m, t))
  {
    hide Sum, Only;
    var r := Record(m, t);
    SumSnoc(m.tensors, t);
    OnlySum(m.tensors, t, TextOnly());
    OnlySum(m.tensors, t, Skipped());
    WrapStep(m.total, Sum(m.tensors), t.bytes);
    WrapStep(m.textOnly, Sum(Only(m.tensors, TextOnly())), t.bytes);
    WrapStep(m.skipped, Sum(Only(m.tensors, Skipped())), t.bytes);
    forall c
      ensures c in r.totals <==> exists k :: 0 <= k < |r.tensors| && r.tensors[k].quantizationClass == c
    {
      RecordKeys(m, t, c);
    }
    forall c | c in r.totals
      ensures r.totals[c] == ClassTotal(|Only(r.tensors, OfClass(c))|, Sum(Only(r.tensors, OfClass(c))) % LIMIT)
    {
      RecordClass(m, t, c);
    }
  }

  /** The entry of class `c` before and after one round. */
  lemma RecordClass(m: Manifest, t: Tensor, c: string)
    requires Accounts(m) && (c in m.totals || c == t.quantizationClass)
    ensures Record(m, t).totals[c]
         == ClassTotal(|Only(m.tensors + [t], OfClass(c))|, Sum(Only(m.tensors + [t], OfClass(c))) % LIMIT)
  {
    hide Sum, Only;
    OnlySnoc(m.tensors, t, OfClass(c));
    OnlySum(m.tensors, t, OfClass(c));
    EmptyUnits(Only(m.tensors, OfClass(c)));
    if c !in m.totals {
      NoneOfClass(m.tensors, c);
      NoBytes();
    }
    WrapStep(if c in m.totals then m.totals[c].bytes else 0, Sum(Only(m.tensors, OfClass(c))), t.bytes);
  }

  lemma RecordKeys(m: Manifest, t: Tensor, c: string)
    requires c in m.totals <==> exists k :: 0 <= k < |m.tensors| && m.tensors[k].quantizationClass == c
    ensures c in Record(m, t).totals <==> exists k :: 0 <= k < |m.tensors + [t]| && (m.tensors + [t])[k].quantizationClass == c
  {
    if k :| 0 <= k < |m.tensors| && m.tensors[k].quantizationClass == c {
      assert (m.tensors + [t])[k].quantizationClass == c;
    }
    assert (m.tensors + [t])[|m.tensors|] == t;
  }

  lemma NoBytes()
    ensures Sum([]) == 0
  {
  }

  lemma NothingAccounts()
    ensures Accounts(Manifest([], map[], 0, 0, 0))
  {
  }

  /** The accounting of `BuildManifest`: every tensor is counted once, in wrapping 64-bit sums. */
  method BuildManifest(stored: seq<Tensor>) returns (m: Manifest)
    ensures m.tensors == stored && Accounts(m)
  {
    hide Accounts, Sum, Only;
    NothingAccounts();
    var totals: map<string, ClassTotal> := map[];
    var total: Word, textOnly: Word, skipped: Word := 0, 0, 0;
    var tensors: seq<Tensor> := [];
    for k := 0 to |stored|
      invariant tensors == stored[..k]
      invariant Accounts(Manifest(tensors, totals, total, textOnly, skipped))
    {
      var tensor := stored[k];
      RecordAccounts(Manifest(tensors, totals, total, textOnly, skipped), tensor);
      var c := tensor.quantizationClass;
      var entry := if c in totals then totals[c] else ClassTotal(0, 0);
      totals := totals[c := ClassTotal(entry.tensors + 1, WrapAdd(entry.bytes, tensor.bytes))];
      total := WrapAdd(total, tensor.bytes);
      if tensor.textOnly {
        textOnly := WrapAdd(textOnly, tensor.bytes);
      } else {
        skipped := WrapAdd(skipped, tensor.bytes);
      }
      tensors := tensors + [tensor];
    }
    m := Manifest(tensors, totals, total, textOnly, skipped);
  }

  // ---------------------------------------------------------------- conservation

  lemma ModOfSum(a: nat, b: nat)
    ensures (a % LIMIT + b % LIMIT) % LIMIT == (a + b) % LIMIT
  {
  }

  /** Text-only and skipped bytes add up to the total, modulo the word size. */
  lemma TextAndSkippedAreAll(m: Manifest)
    requires Accounts(m)
    ensures WrapAdd(m.textOnly, m.skipped) == m.total
  {
    hide Sum, Only;
    SplitSum(m.tensors, TextOnly(), Skipped());
    ModOfSum(Sum(Only(m.tensors, TextOnly())), Sum(Only(m.tensors, Skipped())));
  }

  predicate Distinct(classes: seq<string>) {
    forall i, j :: 0 <= i < j < |classes| ==> classes[i] != classes[j]
  }

  /** The bytes of the tensors in the listed classes. */
  function BytesIn(tensors: seq<Tensor>, classes: seq<string>): nat {
    if classes == [] then 0 else Sum(Only(tensors, OfClass(classes[0]))) + BytesIn(tensors, classes[1..])
  }

  /** The recorded totals of the listed classes, added as words. */
  function TotalsOf(m: Manifest, classes: seq<string>): Word
    requires forall c :: c in classes ==> c in m.totals
  {
    if classes == [] then 0 else WrapAdd(m.totals[classes[0]].bytes, TotalsOf(m, classes[1..]))
  }

  lemma {:induction false} BytesInSnoc(tensors: seq<Tensor>, t: Tensor, classes: seq<string>)
    requires Distinct(classes)
    ensures BytesIn(tensors + [t], classes) == BytesIn(tensors, classes) + (if t.quantizationClass in classes then t.bytes else 0)
  {
    hide Sum, Only;
    if classes != [] {
      OnlySum(tensors, t, OfClass(classes[0]));
      BytesInSnoc(tensors, t, classes[1..]);
      assert classes == [classes[0]] + classes[1..];
    }
  }

  lemma {:induction false} NoTensors(classes: seq<string>)
    ensures BytesIn([], classes) == 0
  {
    if classes != [] {
      NoTensors(classes[1..]);
    }
  }

  lemma {:induction false} ClassesCover(tensors: seq<Tensor>, classes: seq<string>)
    requires Distinct(classes) && forall k :: 0 <= k < |tensors| ==> tensors[k].quantizationClass in classes
    ensures BytesIn(tensors, classes) == Sum(tensors)
  {
    if tensors == [] {
      NoTensors(classes);
    } else {
      var front, last := tensors[..|tensors| - 1], tensors[|tensors| - 1];
      assert tensors == front + [last];
      ClassesCover(front, classes);
      BytesInSnoc(front, last, classes);
    }
  }

  lemma {:induction false} TotalsAreBytes(m: Manifest, classes: seq<string>)
    requires Accounts(m) && forall c :: c in classes ==> c in m.totals
    ensures TotalsOf(m, classes) == BytesIn(m.tensors, classes) % LIMIT
  {
    hide Sum, Only;
    if classes != [] {
      TotalsAreBytes(m, classes[1..]);
      ModOfSum(Sum(Only(m.tensors, OfClass(classes[0]))), BytesIn(m.tensors, classes[1..]));
    }
  }

  /** Main result: however the class totals are listed, they add up to the manifest total. */
  lemma ClassTotalsAreAll(m: Manifest, classes: seq<string>)
    requires Accounts(m) && Distinct(classes) && forall c :: c in classes <==> c in m.totals
    ensures TotalsOf(m, classes) == m.total
  {
    hide Sum, Only, BytesIn, TotalsOf;
    TotalsAreBytes(m, classes);
    forall k | 0 <= k < |m.tensors|
      ensures m.tensors[k].quantizationClass in classes
    {
      assert m.tensors[k].quantizationClass in m.totals;
    }
    ClassesCover(m.tensors, classes);
  }
}
