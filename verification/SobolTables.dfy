/** Splitting the Sobol initializer tables into data files (scripts/gen_sobol_tables.py), and reading an
    entry back through the offsets as the generated Rust tables are read (sobol/mod.rs). */
module SobolTables {
  import opened DecimalText

  type Entry = seq<int>

  const MAX_DATA_FILE_BYTES := 900_000

  function Concat<T>(items: seq<seq<T>>): seq<T> {
    if items == [] then [] else items[0] + Concat(items[1..])
  }

  function PartEstimate(part: seq<Entry>): nat {
    if part == [] then 0 else Estimate(part[0]) + PartEstimate(part[1..])
  }

  // ----- greedy packing

  /** A part respects the byte budget, or it holds one entry that no part could hold within the budget. */
  predicate Fits(part: seq<Entry>) {
    part != [] && (PartEstimate(part) <= MAX_DATA_FILE_BYTES || |part| == 1)
  }

  /** Every part fits, and the first entry of each later part did not fit in the part before it. */
  predicate Greedy(parts: seq<seq<Entry>>) {
    && (forall i :: 0 <= i < |parts| ==> Fits(parts[i]))
    && (forall i :: 0 <= i < |parts| - 1 ==> Overflows(parts[i], parts[i + 1]))
  }

  predicate Overflows(part: seq<Entry>, next: seq<Entry>) {
    next != [] && PartEstimate(part) + Estimate(next[0]) > MAX_DATA_FILE_BYTES
  }

  method EntryBytes(entry: Entry) returns (bytes: nat)
    ensures bytes == Estimate(entry)
  {
    bytes := 0;
    for i := 0 to |entry|
      invariant bytes == Estimate(entry[..i])
    {
      assert entry[..i + 1] == entry[..i] + [entry[i]];
      EstimateAppend(entry[..i], [entry[i]]);
      assert Estimate([entry[i]]) == |Str(entry[i])| + 2;
      bytes := bytes + |Str(entry[i])| + 2;
    }
    assert entry[..|entry|] == entry;
  }

  /** What the packing loop has done: the closed parts and the open part pack the entries so far. */
  ghost predicate Packing(parts: seq<seq<Entry>>, current: seq<Entry>, done: seq<Entry>) {
    && Concat(parts) + current == done
    && (if current == [] then parts == [] else Greedy(parts + [current]))
  }

  lemma PackingCloses(parts: seq<seq<Entry>>, current: seq<Entry>, done: seq<Entry>, entry: Entry)
    requires Packing(parts, current, done) && current != [] && Overflows(current, [entry])
    ensures Packing(parts + [current], [entry], done + [entry])
  {
    ConcatAppend(parts, current);
    var before, after := parts + [current], parts + [current] + [[entry]];
    assert Fits([entry]);
    forall i | 0 <= i < |after| - 1
      ensures Fits(after[i]) && Overflows(after[i], after[i + 1])
    {
      assert Fits(before[i]) && (i < |before| - 1 ==> Overflows(before[i], before[i + 1]));
    }
  }

  lemma PackingGrows(parts: seq<seq<Entry>>, current: seq<Entry>, done: seq<Entry>, entry: Entry)
    requires Packing(parts, current, done)
    requires current == [] || PartEstimate(current) + Estimate(entry) <= MAX_DATA_FILE_BYTES
    ensures Packing(parts, current + [entry], done + [entry])
  {
    PartEstimateAppend(current, entry);
    var before, after := parts + [current], parts + [current + [entry]];
    assert Fits(current + [entry]);
    forall i | 0 <= i < |after| - 1
      ensures Fits(after[i]) && Overflows(after[i], after[i + 1])
    {
      assert Fits(before[i]) && Overflows(before[i], before[i + 1]);
    }
    assert Concat(parts) + (current + [entry]) == done + [entry];
  }

  method SplitEntries(entries: seq<Entry>) returns (parts: seq<seq<Entry>>)
    ensures entries == [] ==> parts == [[]]
    ensures entries != [] ==> Greedy(parts)
    ensures Concat(parts) == entries
  {
    parts := [];
    var current: seq<Entry>, currentBytes := [], 0;
    for i := 0 to |entries|
      invariant currentBytes == PartEstimate(current)
      invariant Packing(parts, current, entries[..i])
      invariant current == [] <==> i == 0
    {
      var entry := entries[i];
      assert entries[..i + 1] == entries[..i] + [entry];
      var entryBytes := EntryBytes(entry);
      PartEstimateAppend(current, entry);
      PartEstimateAppend([], entry);
      assert [] + [entry] == [entry];
      if current != [] && currentBytes + entryBytes > MAX_DATA_FILE_BYTES {
        PackingCloses(parts, current, entries[..i], entry);
        parts := parts + [current];
        current, currentBytes := [], 0;
      } else {
        PackingGrows(parts, current, entries[..i], entry);
      }
      current := current + [entry];
      currentBytes := currentBytes + entryBytes;
    }
    assert entries[..|entries|] == entries;
    ConcatAppend(parts, current);
    parts := parts + [current];
  }

  lemma {:induction false} ConcatAppend<T>(items: seq<seq<T>>, last: seq<T>)
    ensures Concat(items + [last]) == Concat(items) + last
  {
    if items == [] {
      assert Concat([last]) == last + Concat([]);
    } else {
      assert (items + [last])[1..] == items[1..] + [last];
      ConcatAppend(items[1..], last);
    }
  }

  lemma {:induction false} PartEstimateAppend(part: seq<Entry>, last: Entry)
    ensures PartEstimate(part + [last]) == PartEstimate(part) + Estimate(last)
  {
    if part == [] {
      assert PartEstimate([last]) == Estimate(last) + PartEstimate([]);
    } else {
      assert (part + [last])[1..] == part[1..] + [last];
      PartEstimateAppend(part[1..], last);
    }
  }

  lemma {:induction false} PartEstimateMonotone(prefix: seq<Entry>, rest: seq<Entry>)
    ensures PartEstimate(prefix + rest) == PartEstimate(prefix) + PartEstimate(rest)
  {
    if prefix == [] {
      assert prefix + rest == rest;
    } else {
      assert (prefix + rest)[1..] == prefix[1..] + rest;
      PartEstimateMonotone(prefix[1..], rest);
    }
  }

  /** A part that runs past the end of a greedy part does not fit. */
  lemma PastGreedyPart(skipped: seq<Entry>, part: seq<Entry>, next: seq<Entry>, other: seq<Entry>)
    requires part != [] && Overflows(part, next)
    requires skipped + part + [next[0]] <= other
    ensures !Fits(other)
  {
    var rest := other[|skipped| + |part| + 1..];
    assert other == skipped + (part + ([next[0]] + rest));
    PartEstimateMonotone(skipped, part + ([next[0]] + rest));
    PartEstimateMonotone(part, [next[0]] + rest);
    PartEstimateMonotone([next[0]], rest);
    assert PartEstimate([next[0]]) == Estimate(next[0]);
  }

  lemma StartOfNext(greedy: seq<seq<Entry>>)
    requires |greedy| > 1 && greedy[1] != []
    ensures greedy[0] + [greedy[1][0]] <= Concat(greedy)
  {
    assert Concat(greedy) == greedy[0] + (greedy[1] + Concat(greedy[1..][1..]));
    assert greedy[1] == [greedy[1][0]] + greedy[1][1..];
  }

  lemma CutWithin<T>(skipped: seq<T>, start: seq<T>, all: seq<T>, chunk: seq<T>)
    requires start <= all && chunk <= skipped + all && |skipped| + |start| <= |chunk|
    ensures skipped + start <= chunk
  {
    assert (skipped + all)[..|skipped| + |start|] == skipped + start;
  }

  /** A part that fits and starts no later than the first greedy part ends no later than it. */
  lemma NoFurther(greedy: seq<seq<Entry>>, skipped: seq<Entry>, chunk: seq<Entry>)
    requires Greedy(greedy) && greedy != [] && Fits(chunk)
    requires chunk <= skipped + Concat(greedy)
    ensures |chunk| <= |skipped| + |greedy[0]|
  {
    hide Fits, Overflows, Concat;
    if |chunk| > |skipped| + |greedy[0]| {
      if |greedy| == 1 {
        assert greedy == [greedy[0]];
        ConcatOne(greedy[0]);
      } else {
        assert Fits(greedy[0]) && Overflows(greedy[0], greedy[1]);
        PartsHaveEntries(greedy[0], greedy[1]);
        StartOfNext(greedy);
        CutWithin(skipped, greedy[0] + [greedy[1][0]], Concat(greedy), chunk);
        assert skipped + (greedy[0] + [greedy[1][0]]) == skipped + greedy[0] + [greedy[1][0]];
        PastGreedyPart(skipped, greedy[0], greedy[1], chunk);
      }
    }
  }

  lemma ConcatOne<T>(item: seq<T>)
    ensures Concat([item]) == item
  {
  }

  lemma PartsHaveEntries(part: seq<Entry>, next: seq<Entry>)
    requires Fits(part) && Overflows(part, next)
    ensures part != [] && next != []
  {
  }

  lemma GreedyTail(parts: seq<seq<Entry>>)
    requires Greedy(parts) && parts != []
    ensures Greedy(parts[1..])
  {
    var tail := parts[1..];
    forall i | 0 <= i < |tail|
      ensures Fits(tail[i]) && (i < |tail| - 1 ==> Overflows(tail[i], tail[i + 1]))
    {
      var next := i + 1;
      assert tail[i] == parts[next] && Fits(parts[next]);
      assert i < |tail| - 1 ==> Overflows(parts[next], parts[next + 1]);
    }
  }

  /** What is left of a text after one cut, when the two sides are cut at different places. */
  lemma CutShort<T>(chunk: seq<T>, rest: seq<T>, first: seq<T>, second: seq<T>)
    requires chunk + rest == first + second && |chunk| <= |first|
    ensures rest == first[|chunk|..] + second
  {
    assert rest == (chunk + rest)[|chunk|..];
  }

  /** The greedy packing stays ahead: a packing of the same entries, and possibly some more before them, has
      at least as many parts. */
  lemma {:induction false} GreedyStaysAhead(greedy: seq<seq<Entry>>, skipped: seq<Entry>, other: seq<seq<Entry>>)
    requires Greedy(greedy)
    requires forall i :: 0 <= i < |other| ==> Fits(other[i])
    requires Concat(other) == skipped + Concat(greedy)
    ensures |greedy| <= |other|
    decreases |greedy|
  {
    if greedy != [] {
      assert Fits(greedy[0]);
      assert |Concat(greedy)| > 0;
      assert other != [] && Fits(other[0]);
      NoFurther(greedy, skipped, other[0]);
      GreedyTail(greedy);
      var first := skipped + greedy[0];
      assert first + Concat(greedy[1..]) == skipped + Concat(greedy);
      CutShort(other[0], Concat(other[1..]), first, Concat(greedy[1..]));
      GreedyStaysAhead(greedy[1..], first[|other[0]|..], other[1..]);
    }
  }

  /** No packing of the same entries into contiguous parts that fit has fewer parts. */
  lemma GreedyIsOptimal(greedy: seq<seq<Entry>>, other: seq<seq<Entry>>)
    requires Greedy(greedy) && Concat(other) == Concat(greedy)
    requires forall i :: 0 <= i < |other| ==> Fits(other[i])
    ensures |greedy| <= |other|
  {
    assert Concat(other) == [] + Concat(greedy);
    GreedyStaysAhead(greedy, [], other);
  }

  /** The greedy packing is the only one: its contract decides every part. */
  lemma {:induction false} GreedyIsUnique(a: seq<seq<Entry>>, b: seq<seq<Entry>>)
    requires Greedy(a) && Greedy(b) && Concat(a) == Concat(b)
    ensures a == b
    decreases |a|
  {
    assert a != [] ==> Fits(a[0]);
    assert b != [] ==> Fits(b[0]);
    assert a != [] ==> |Concat(a)| > 0;
    assert b != [] ==> |Concat(b)| > 0;
    if a != [] {
      assert [] + Concat(b) == Concat(a) == Concat(b) == [] + Concat(a);
      NoFurther(a, [], b[0]);
      NoFurther(b, [], a[0]);
      CutShort(b[0], Concat(b[1..]), a[0], Concat(a[1..]));
      assert a[0] == Concat(a)[..|a[0]|] == Concat(b)[..|b[0]|] == b[0];
      GreedyTail(a);
      GreedyTail(b);
      GreedyIsUnique(a[1..], b[1..]);
      assert a == [a[0]] + a[1..] && b == [b[0]] + b[1..];
    }
  }
}
