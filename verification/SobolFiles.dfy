/** Writing the parts and the offsets of a Sobol table (scripts/gen_sobol_tables.py), and finding an entry
    again in what was written (crates/libitofin/src/math/randomnumbers/sobol/mod.rs). */
module SobolFiles {
  import opened DecimalText
  import opened SobolTables

  const HEADER := "// @generated by scripts/gen_sobol_tables.py - do not edit by hand.\n"
  const MAX_FILE_BYTES := 1024 * 1000

  function FileText(body: string): string {
    HEADER + "\n" + body
  }

  const OPENING := "#[rustfmt::skip]\npub(super) static DATA: &[u32] = &[\n"
  const OFFSETS_OPENING := "#[rustfmt::skip]\npub(super) static OFFSETS: &[u32] = &[\n"
  const CLOSING := "\n];\n"

  function DataBody(values: seq<int>): string {
    OPENING + Formatted(values, "") + CLOSING
  }

  function OffsetsBody(offsets: seq<int>): string {
    OFFSETS_OPENING + Formatted(offsets, "") + CLOSING
  }

  /** The values of each part, one after the other. */
  function Data(parts: seq<seq<Entry>>): (data: seq<seq<int>>)
    ensures |data| == |parts|
    ensures forall i :: 0 <= i < |parts| ==> data[i] == Concat(parts[i])
  {
    seq(|parts|, i requires 0 <= i < |parts| => Concat(parts[i]))
  }

  /** Where the values of each entry start, and where the last entry ends. */
  function Offsets(entries: seq<Entry>): (offsets: seq<int>)
    ensures |offsets| == |entries| + 1
    ensures forall i :: 0 <= i <= |entries| ==> offsets[i] == |Concat(entries[..i])|
  {
    seq(|entries| + 1, i requires 0 <= i <= |entries| => |Concat(entries[..i])|)
  }

  /** The files of a table, in the order they are written. */
  function Files(entries: seq<Entry>, parts: seq<seq<Entry>>): (files: seq<string>)
    ensures |files| == |parts| + 1
    ensures forall i :: 0 <= i < |parts| ==> files[i] == FileText(DataBody(Concat(parts[i])))
    ensures files[|parts|] == FileText(OffsetsBody(Offsets(entries)))
  {
    seq(|parts|, i requires 0 <= i < |parts| => FileText(DataBody(Concat(parts[i]))))
    + [FileText(OffsetsBody(Offsets(entries)))]
  }

  /** The files up to and including the first one over the limit, which stops the script. */
  function UpToFirstTooBig(files: seq<string>): seq<string> {
    if files == [] then []
    else if |files[0]| > MAX_FILE_BYTES then [files[0]]
    else [files[0]] + UpToFirstTooBig(files[1..])
  }

  predicate AllSmall(files: seq<string>) {
    forall i :: 0 <= i < |files| ==> |files[i]| <= MAX_FILE_BYTES
  }

  lemma {:induction false} SmallFilesAreWritten(files: seq<string>)
    requires AllSmall(files)
    ensures UpToFirstTooBig(files) == files
  {
    if files != [] {
      SmallFilesAreWritten(files[1..]);
      assert files == [files[0]] + files[1..];
    }
  }

  lemma {:induction false} TooBigStops(files: seq<string>, k: nat)
    requires k < |files| && AllSmall(files[..k]) && |files[k]| > MAX_FILE_BYTES
    ensures UpToFirstTooBig(files) == files[..k + 1] && !AllSmall(files)
  {
    if k > 0 {
      assert files[..k][0] == files[0];
      assert files[1..][..k - 1] == files[..k][1..];
      TooBigStops(files[1..], k - 1);
      assert files[..k + 1] == [files[0]] + files[1..][..k];
    }
  }

  /** How a run over all the files ends: after every file, or at file `k` when that one is too big. */
  lemma WrittenSoFar(files: seq<string>, k: nat)
    requires k < |files| && AllSmall(files[..k])
    ensures files[..k + 1] == files[..k] + [files[k]]
    ensures |files[k]| <= MAX_FILE_BYTES ==> AllSmall(files[..k + 1])
    ensures |files[k]| > MAX_FILE_BYTES ==> UpToFirstTooBig(files) == files[..k + 1] && !AllSmall(files)
    ensures k + 1 == |files| ==> UpToFirstTooBig(files) == files[..k + 1] && AllSmall(files) == (|files[k]| <= MAX_FILE_BYTES)
  {
    if |files[k]| > MAX_FILE_BYTES {
      TooBigStops(files, k);
    } else if k + 1 == |files| {
      assert files[..k + 1] == files;
      SmallFilesAreWritten(files);
    }
  }

  /** The output directory. */
  class Output {
    var written: seq<string>

    constructor ()
      ensures written == []
    {
      written := [];
    }

    /** Writes a file, and reports whether its size is within the limit. */
    method WriteFile(body: string) returns (ok: bool)
      modifies this
      ensures written == old(written) + [FileText(body)]
      ensures ok == (|FileText(body)| <= MAX_FILE_BYTES)
    {
      written := written + [FileText(body)];
      ok := |FileText(body)| <= MAX_FILE_BYTES;
    }

    /** Writes the data files and then the offsets file; the first file over the limit stops the run. */
    method EmitInitializerTable(entries: seq<Entry>) returns (ok: bool, parts: seq<seq<Entry>>)
      modifies this
      ensures if entries == [] then parts == [[]] else Greedy(parts)
      ensures Concat(parts) == entries
      ensures written == old(written) + UpToFirstTooBig(Files(entries, parts))
      ensures ok == AllSmall(Files(entries, parts))
      ensures ok <==> (forall e :: e in entries ==> SmallEntry(e)) && SmallOffsets(entries)
    {
      hide UpToFirstTooBig, Files, DataBody, OffsetsBody, FileText, Concat, Greedy, SmallEntry, SmallOffsets;
      var offsets := MakeOffsets(entries);
      parts := SplitEntries(entries);
      AllFilesAreSmall(entries, parts);
      ghost var files, before := Files(entries, parts), written;
      assert before + files[..0] == before;
      for i := 0 to |parts|
        invariant AllSmall(files[..i])
        invariant written == before + files[..i]
      {
        var body := MakeDataBody(Concat(parts[i]));
        ok := WriteFile(body);
        WrittenSoFar(files, i);
        assert before + files[..i] + [files[i]] == before + files[..i + 1];
        if !ok {
          return;
        }
      }
      var body := MakeOffsetsBody(offsets);
      ok := WriteFile(body);
      WrittenSoFar(files, |parts|);
      assert before + files[..|parts|] + [files[|parts|]] == before + files[..|parts| + 1];
    }
  }

  method MakeOffsets(entries: seq<Entry>) returns (offsets: seq<int>)
    ensures offsets == Offsets(entries)
  {
    var total := 0;
    offsets := [0];
    for i := 0 to |entries|
      invariant |offsets| == i + 1 && total == |Concat(entries[..i])|
      invariant forall j :: 0 <= j <= i ==> offsets[j] == |Concat(entries[..j])|
    {
      assert entries[..i + 1] == entries[..i] + [entries[i]];
      ConcatAppend(entries[..i], entries[i]);
      total := total + |entries[i]|;
      offsets := offsets + [total];
    }
  }

  method MakeDataBody(values: seq<int>) returns (body: string)
    ensures body == DataBody(values)
  {
    var text := FormatValues(values, "");
    body := OPENING + text + CLOSING;
  }

  method MakeOffsetsBody(offsets: seq<int>) returns (body: string)
    ensures body == OffsetsBody(offsets)
  {
    var text := FormatValues(offsets, "");
    body := OFFSETS_OPENING + text + CLOSING;
  }

  // ----- the size limit

  lemma {:induction false} PartEstimateIsEstimate(part: seq<Entry>)
    ensures PartEstimate(part) == Estimate(Concat(part))
  {
    if part != [] {
      PartEstimateIsEstimate(part[1..]);
      EstimateAppend(part[0], Concat(part[1..]));
    }
  }

  /** The text of a file around its values. */
  function Around(opening: string, text: string): string {
    HEADER + "\n" + opening + text + CLOSING
  }

  lemma HeaderSize()
    ensures |HEADER| == 68
  {
  }

  lemma OpeningSize()
    ensures |OPENING| == 53 && |OFFSETS_OPENING| == 56 && |CLOSING| == 4
  {
  }

  lemma AroundSize(opening: string, text: string)
    ensures |Around(opening, text)| == |opening| + |text| + 73
  {
    HeaderSize();
    OpeningSize();
    hide HEADER, OPENING, OFFSETS_OPENING, CLOSING;
  }

  lemma FileTexts(values: seq<int>)
    ensures FileText(DataBody(values)) == Around(OPENING, Formatted(values, ""))
    ensures FileText(OffsetsBody(values)) == Around(OFFSETS_OPENING, Formatted(values, ""))
  {
    hide HEADER, OPENING, OFFSETS_OPENING, CLOSING, Formatted;
    AroundText(OPENING, Formatted(values, ""));
    AroundText(OFFSETS_OPENING, Formatted(values, ""));
  }

  lemma AroundText(opening: string, text: string)
    ensures FileText(opening + text + CLOSING) == Around(opening, text)
  {
    hide HEADER, CLOSING;
    assert HEADER + "\n" + (opening + text + CLOSING) == HEADER + "\n" + opening + text + CLOSING;
  }

  /** The exact size of a data file: 125 bytes around the estimate and the line breaks. */
  lemma DataFileSize(values: seq<int>)
    requires values != []
    ensures |FileText(DataBody(values))| == Estimate(values) + 4 * LineCount(|values|) + 125
  {
    OpeningSize();
    hide FileText, DataBody, OffsetsBody, Around, Formatted, Estimate, LineCount, OPENING, OFFSETS_OPENING, CLOSING;
    FileTexts(values);
    AroundSize(OPENING, Formatted(values, ""));
    FormattedSize(values, "");
  }

  /** The exact size of an offsets file. */
  lemma OffsetsFileSize(offsets: seq<int>)
    requires offsets != []
    ensures |FileText(OffsetsBody(offsets))| == Estimate(offsets) + 4 * LineCount(|offsets|) + 128
  {
    OpeningSize();
    hide FileText, DataBody, OffsetsBody, Around, Formatted, Estimate, LineCount, OPENING, OFFSETS_OPENING, CLOSING;
    FileTexts(offsets);
    AroundSize(OFFSETS_OPENING, Formatted(offsets, ""));
    FormattedSize(offsets, "");
  }

  lemma EmptyFileSize()
    ensures |FileText(DataBody([]))| == 126
  {
    OpeningSize();
    hide FileText, DataBody, OffsetsBody, Around, OPENING, OFFSETS_OPENING, CLOSING;
    FileTexts([]);
    AroundSize(OPENING, Formatted([], ""));
    assert Lines([], "") == [];
  }

  /** The values of the entry alone make a data file within the limit. */
  predicate SmallEntry(entry: Entry) {
    entry != [] ==> Estimate(entry) + 4 * LineCount(|entry|) + 125 <= MAX_FILE_BYTES
  }

  lemma WithinBudget(values: seq<int>)
    requires Estimate(values) <= MAX_DATA_FILE_BYTES
    ensures SmallEntry(values)
  {
    hide Estimate;
    EstimatePerValue(values);
  }

  lemma FileIsSmall(values: seq<int>)
    ensures |FileText(DataBody(values))| <= MAX_FILE_BYTES <==> SmallEntry(values)
  {
    hide FileText, DataBody, Estimate, LineCount;
    if values != [] {
      DataFileSize(values);
    } else {
      EmptyFileSize();
    }
  }

  /** Within the byte budget a part is written without hitting the size limit. */
  lemma BudgetIsSound(part: seq<Entry>)
    requires PartEstimate(part) <= MAX_DATA_FILE_BYTES
    ensures |FileText(DataBody(Concat(part)))| <= MAX_FILE_BYTES
  {
    hide FileText, DataBody, Estimate, PartEstimate, SmallEntry;
    PartEstimateIsEstimate(part);
    WithinBudget(Concat(part));
    FileIsSmall(Concat(part));
  }

  lemma {:induction false} EntryInPart(parts: seq<seq<Entry>>, i: nat, j: nat)
    requires i < |parts| && j < |parts[i]|
    ensures parts[i][j] in Concat(parts)
  {
    if i > 0 {
      EntryInPart(parts[1..], i - 1, j);
    }
  }

  lemma {:induction false} PartOfEntry(parts: seq<seq<Entry>>, entry: Entry) returns (i: nat)
    requires entry in Concat(parts)
    ensures i < |parts| && entry in parts[i]
  {
    if entry in parts[0] {
      i := 0;
    } else {
      var k := PartOfEntry(parts[1..], entry);
      i := k + 1;
    }
  }

  lemma {:induction false} EntryCosts(part: seq<Entry>, entry: Entry)
    requires entry in part
    ensures Estimate(entry) <= PartEstimate(part)
  {
    hide Estimate;
    if entry != part[0] {
      EntryCosts(part[1..], entry);
    }
  }

  lemma ConcatOne(entry: Entry)
    ensures Concat([entry]) == entry && PartEstimate([entry]) == Estimate(entry)
  {
    hide Estimate;
  }

  /** A part that fits is written without hitting the limit exactly when each of its entries could be. */
  lemma PartIsSmall(part: seq<Entry>)
    requires Fits(part) || part == []
    ensures |FileText(DataBody(Concat(part)))| <= MAX_FILE_BYTES <==> forall e :: e in part ==> SmallEntry(e)
  {
    hide FileText, DataBody, Estimate, PartEstimate, SmallEntry, Concat;
    if PartEstimate(part) <= MAX_DATA_FILE_BYTES || part == [] {
      assert part == [] ==> PartEstimate(part) == 0 by {
        NothingCosts();
      }
      BudgetIsSound(part);
      forall e | e in part
        ensures SmallEntry(e)
      {
        EntryCosts(part, e);
        WithinBudget(e);
      }
    } else {
      assert part == [part[0]];
      ConcatOne(part[0]);
      FileIsSmall(part[0]);
    }
  }

  lemma NothingCosts()
    ensures PartEstimate([]) == 0
  {
  }

  /** The data files of a table are all within the size limit exactly when each entry alone would be; an entry
      within the byte budget is. */
  lemma DataFilesAreSmall(entries: seq<Entry>, parts: seq<seq<Entry>>)
    requires Concat(parts) == entries
    requires if entries == [] then parts == [[]] else Greedy(parts)
    ensures (forall i :: 0 <= i < |parts| ==> |FileText(DataBody(Concat(parts[i])))| <= MAX_FILE_BYTES)
       <==> forall e :: e in entries ==> SmallEntry(e)
    ensures forall e :: e in entries && Estimate(e) <= MAX_DATA_FILE_BYTES ==> SmallEntry(e)
  {
    hide FileText, DataBody, Estimate, SmallEntry, Concat;
    forall e | e in entries && Estimate(e) <= MAX_DATA_FILE_BYTES
      ensures SmallEntry(e)
    {
      WithinBudget(e);
    }
    forall i | 0 <= i < |parts|
      ensures |FileText(DataBody(Concat(parts[i])))| <= MAX_FILE_BYTES <==> forall e :: e in parts[i] ==> SmallEntry(e)
    {
      PartIsSmall(parts[i]);
    }
    forall e | e in entries
      ensures exists i :: 0 <= i < |parts| && e in parts[i]
    {
      var i := PartOfEntry(parts, e);
    }
    forall i, j | 0 <= i < |parts| && 0 <= j < |parts[i]|
      ensures parts[i][j] in entries
    {
      EntryInPart(parts, i, j);
    }
  }

  /** The offsets of the entries make an offsets file within the limit. */
  predicate SmallOffsets(entries: seq<Entry>) {
    Estimate(Offsets(entries)) + 4 * LineCount(|entries| + 1) + 128 <= MAX_FILE_BYTES
  }

  /** All files of a table are within the size limit, so that all are written, exactly when each nonempty entry alone
      would be and the offsets are. */
  lemma AllFilesAreSmall(entries: seq<Entry>, parts: seq<seq<Entry>>)
    requires Concat(parts) == entries
    requires if entries == [] then parts == [[]] else Greedy(parts)
    ensures AllSmall(Files(entries, parts)) <==> (forall e :: e in entries ==> SmallEntry(e)) && SmallOffsets(entries)
  {
    hide FileText, DataBody, OffsetsBody, Estimate, LineCount, SmallEntry, Concat, Greedy;
    var files := Files(entries, parts);
    DataFilesAreSmall(entries, parts);
    OffsetsFileSize(Offsets(entries));
    assert |files[|parts|]| <= MAX_FILE_BYTES <==> SmallOffsets(entries);
    assert AllSmall(files) <==> AllSmall(files[..|parts|]) && |files[|parts|]| <= MAX_FILE_BYTES;
    assert forall i :: 0 <= i < |parts| ==> files[..|parts|][i] == FileText(DataBody(Concat(parts[i])));
  }

  function Repeated(v: int, n: nat): (entry: Entry)
    ensures |entry| == n
  {
    seq(n, _ => v)
  }

  lemma {:induction false} EstimateOfRepeated(v: int, n: nat)
    ensures Estimate(Repeated(v, n)) == n * (|Str(v)| + 2)
  {
    hide Str;
    if n > 0 {
      assert Repeated(v, n)[1..] == Repeated(v, n - 1);
      EstimateOfRepeated(v, n - 1);
      OneMore(n, |Str(v)| + 2);
    }
  }

  /** Over the byte budget, 180,002 values of three digits still make a data file within the limit, and 200,000 do
      not. */
  lemma LargeEntries()
    ensures Estimate(Repeated(100, 180_002)) > MAX_DATA_FILE_BYTES && SmallEntry(Repeated(100, 180_002))
    ensures !SmallEntry(Repeated(100, 200_000))
  {
    assert |Str(100)| == 3 by {
      assert Digits(1) == "1" && |Digits(10)| == 2;
    }
    hide Str, Repeated;
    EstimateOfRepeated(100, 180_002);
    EstimateOfRepeated(100, 200_000);
  }

  // ----- finding an entry again

  /** What reading an entry gives: its values, a slice out of bounds, or the unreachable! after the loop. */
  datatype Reading = Found(values: seq<int>) | OutOfBounds | Unreachable

  function Slice(part: seq<int>, start: nat, length: nat): Reading {
    if start + length <= |part| then Found(part[start..start + length]) else OutOfBounds
  }

  function Lookup(data: seq<seq<int>>, start: nat, length: nat): Reading {
    if data == [] then Unreachable
    else if start < |data[0]| then Slice(data[0], start, length)
    else Lookup(data[1..], start - |data[0]|, length)
  }

  datatype InitializerTable = InitializerTable(offsets: seq<int>, parts: seq<seq<int>>) {
    method Entry(k: nat) returns (r: Reading)
      requires k + 1 < |offsets| && 0 <= offsets[k] <= offsets[k + 1]
      ensures r == Lookup(parts, offsets[k], offsets[k + 1] - offsets[k])
    {
      var start, length := offsets[k], offsets[k + 1] - offsets[k];
      for i := 0 to |parts|
        invariant 0 <= start
        invariant Lookup(parts, offsets[k], length) == Lookup(parts[i..], start, length)
      {
        if start < |parts[i]| {
          return Slice(parts[i], start, length);
        }
        assert parts[i..][1..] == parts[i + 1..];
        start := start - |parts[i]|;
      }
      return Unreachable;
    }
  }

  lemma {:induction false} ConcatSplit<T>(items: seq<seq<T>>, k: nat)
    requires k <= |items|
    ensures Concat(items) == Concat(items[..k]) + Concat(items[k..])
  {
    if k > 0 {
      assert items[..k][1..] == items[1..][..k - 1];
      assert items[1..][k - 1..] == items[k..];
      ConcatSplit(items[1..], k - 1);
    }
  }

  /** Reading nothing at the very start finds the first part that holds any value. */
  lemma {:induction false} LookupNothing(data: seq<seq<int>>)
    ensures Lookup(data, 0, 0) == if Concat(data) == [] then Unreachable else Found([])
  {
    if data != [] && data[0] == [] {
      LookupNothing(data[1..]);
    }
  }

  lemma {:induction false} ConcatOfConcats(parts: seq<seq<Entry>>)
    ensures Concat(Data(parts)) == Concat(Concat(parts))
  {
    if parts != [] {
      assert Data(parts)[1..] == Data(parts[1..]);
      ConcatOfConcats(parts[1..]);
      ConcatSplit(Concat(parts), |parts[0]|);
      assert Concat(parts)[..|parts[0]|] == parts[0];
      assert Concat(parts)[|parts[0]|..] == Concat(parts[1..]);
    }
  }

  /** A slice of the values before, in and after one entry. */
  lemma SliceOfEntry(before: seq<int>, entry: seq<int>, after: seq<int>)
    ensures Slice(before + entry + after, |before|, |entry|) == Found(entry)
  {
  }

  lemma EntryWithin(part: seq<Entry>, k: nat)
    requires k < |part|
    ensures Concat(part) == Concat(part[..k]) + part[k] + Concat(part[k + 1..])
    ensures Concat(part[k..]) == part[k] + Concat(part[k + 1..])
  {
    ConcatSplit(part, k);
    var tail := part[k..];
    assert tail[0] == part[k] && tail[1..] == part[k + 1..];
    assert Concat(tail) == part[k] + Concat(part[k + 1..]);
    var before, after := Concat(part[..k]), Concat(part[k + 1..]);
    assert before + (part[k] + after) == before + part[k] + after;
  }

  /** Entry `k` of a table that starts in the first part, or right after it with nothing in between. */
  lemma LookupInFirst(part: seq<Entry>, rest: seq<seq<int>>, k: nat)
    requires k < |part|
    ensures Lookup([Concat(part)] + rest, |Concat(part[..k])|, |part[k]|)
         == if Concat(part[k..]) != [] || Concat(rest) != [] then Found(part[k]) else Unreachable
  {
    EntryWithin(part, k);
    var data := [Concat(part)] + rest;
    if Concat(part[k..]) != [] {
      SliceOfEntry(Concat(part[..k]), part[k], Concat(part[k + 1..]));
    } else {
      assert data[1..] == rest;
      LookupNothing(rest);
    }
  }

  /** Entry `k` is read back from the parts, whatever the parts are, unless neither it nor any later entry
      holds a value: then the read runs off the end. */
  lemma {:induction false} LookupFindsEntry(parts: seq<seq<Entry>>, k: nat)
    requires k < |Concat(parts)|
    ensures var entries := Concat(parts);
            Lookup(Data(parts), |Concat(entries[..k])|, |entries[k]|)
            == if Concat(entries[k..]) != [] then Found(entries[k]) else Unreachable
    decreases |parts|
  {
    var part, tail := parts[0], parts[1..];
    assert Data(parts) == [Concat(part)] + Data(tail);
    if k < |part| {
      EntryInFirst(part, tail, k);
    } else {
      LookupFindsEntry(tail, k - |part|);
      EntryBeyondFirst(part, tail, k - |part|);
    }
  }

  lemma EntryInFirst(part: seq<Entry>, tail: seq<seq<Entry>>, k: nat)
    requires k < |part|
    ensures var entries := part + Concat(tail);
            Lookup([Concat(part)] + Data(tail), |Concat(entries[..k])|, |entries[k]|)
            == if Concat(entries[k..]) != [] then Found(entries[k]) else Unreachable
  {
    hide Concat, Lookup, Data;
    var entries := part + Concat(tail);
    LookupInFirst(part, Data(tail), k);
    ConcatOfConcats(tail);
    assert entries[..k] == part[..k];
    ConcatSplit(entries[k..], |part| - k);
    assert entries[k..][..|part| - k] == part[k..] && entries[k..][|part| - k..] == Concat(tail);
  }

  lemma EntryBeyondFirst(part: seq<Entry>, tail: seq<seq<Entry>>, later: nat)
    requires later < |Concat(tail)|
    ensures var rest := Concat(tail);
            var entries, k := part + rest, |part| + later;
            Lookup([Concat(part)] + Data(tail), |Concat(entries[..k])|, |entries[k]|)
            == Lookup(Data(tail), |Concat(rest[..later])|, |rest[later]|) &&
            entries[k] == rest[later] && entries[k..] == rest[later..]
  {
    hide Concat, Data;
    var entries, k := part + Concat(tail), |part| + later;
    ConcatSplit(entries[..k], |part|);
    assert entries[..k][..|part|] == part && entries[..k][|part|..] == Concat(tail)[..later];
    assert ([Concat(part)] + Data(tail))[1..] == Data(tail);
  }

  /** No entry straddles two parts: the values before each part boundary are those of whole entries. */
  lemma {:induction false} BoundaryIsOffset(parts: seq<seq<Entry>>, i: nat)
    requires i <= |parts|
    ensures |Concat(parts[..i])| <= |Concat(parts)|
    ensures |Concat(Data(parts)[..i])| == Offsets(Concat(parts))[|Concat(parts[..i])|]
  {
    ConcatSplit(parts, i);
    ConcatOfConcats(parts[..i]);
    assert Data(parts[..i]) == Data(parts)[..i];
    assert Concat(parts)[..|Concat(parts[..i])|] == Concat(parts[..i]);
  }

  /** The whole way round: the values of every part and the offsets, printed and read back as text, give back
      entry `k`, exactly when it or a later entry holds a value. */
  lemma TableSurvives(entries: seq<Entry>, parts: seq<seq<Entry>>, table: InitializerTable, k: nat)
    requires Concat(parts) == entries && k < |entries|
    requires table.offsets == FindInts(Formatted(Offsets(entries), ""))
    requires |table.parts| == |parts|
    requires forall i :: 0 <= i < |parts| ==> table.parts[i] == FindInts(Formatted(Concat(parts[i]), ""))
    ensures table.offsets == Offsets(entries)
    ensures table.offsets[k] >= 0 && table.offsets[k + 1] == table.offsets[k] + |entries[k]|
    ensures Lookup(table.parts, table.offsets[k], table.offsets[k + 1] - table.offsets[k])
         == if exists j :: k <= j < |entries| && entries[j] != [] then Found(entries[k]) else Unreachable
  {
    hide FindInts, Formatted, Lookup;
    PrintThenFind(Offsets(entries));
    forall i | 0 <= i < |parts|
      ensures table.parts[i] == Concat(parts[i])
    {
      PrintThenFind(Concat(parts[i]));
    }
    assert table.parts == Data(parts);
    LookupFindsEntry(parts, k);
    assert entries[..k + 1] == entries[..k] + [entries[k]];
    ConcatAppend(entries[..k], entries[k]);
    NothingLeft(entries, k);
  }

  lemma {:induction false} NothingLeft(entries: seq<Entry>, k: nat)
    requires k <= |entries|
    ensures Concat(entries[k..]) != [] <==> exists j :: k <= j < |entries| && entries[j] != []
    decreases |entries| - k
  {
    if k < |entries| {
      NothingLeft(entries, k + 1);
      assert entries[k..][1..] == entries[k + 1..];
    }
  }
}
