/** Printing entries as a canonical port spec, and the round trip through the parser.
    internal/store/portspec.go:106-132 */
module Rendering {
  import opened Basics
  import opened Protocols
  import opened Decimal
  import opened Grammar
  import opened Seqs
  import opened Sorting
  import opened Entries
  import opened PortSpec

  /** Entries that a port spec can stand for. */
  predicate ValidEntries(es: seq<PortEntry>) {
    && 1 <= |es| <= MAX_GROUP_PORTS
    && NoOverlap(es)
    && AllValid(es)
  }

  predicate AllValid(es: seq<PortEntry>) {
    forall i :: 0 <= i < |es| ==> ValidEntry(es[i])
  }

  predicate ValidEntry(e: PortEntry) {
    e.proto != Unknown && InRange(e.port) && InRange(e.target)
  }

  /** Does the entry behind position j prolong the run that began at i? */
  predicate Continues(es: seq<PortEntry>, i: nat, j: nat)
    requires i <= j < |es|
  {
    && j + 1 < |es|
    && es[j + 1].port == es[j].port + 1
    && es[j + 1].proto == es[i].proto
    && es[j + 1].target - es[j + 1].port == es[i].target - es[i].port
  }

  /** The last position of the run that began at i and has reached j. */
  function RunEnd(es: seq<PortEntry>, i: nat, j: nat): (k: nat)
    requires i <= j < |es|
    ensures j <= k < |es|
    decreases |es| - j
  {
    if Continues(es, i, j) then RunEnd(es, i, j + 1) else j
  }

  /** The first and last entries of the greedy runs from position i on. */
  function Runs(es: seq<PortEntry>, i: nat): seq<(PortEntry, PortEntry)>
    requires i <= |es|
    decreases |es| - i
  {
    if i == |es| then []
    else
      var j := RunEnd(es, i, i);
      [(es[i], es[j])] + Runs(es, j + 1)
  }

  function RunText(run: (PortEntry, PortEntry)): string {
    var (first, last) := run;
    Itoa(first.port)
    + (if last.port > first.port then "-" + Itoa(last.port) else "")
    + "/" + ProtoText(first.proto)
    + (if first.target != first.port then ">" + Itoa(first.target) else "")
  }

  function Render(entries: seq<PortEntry>): string {
    var es := SortEntries(entries);
    SortRearranges(entries, EntryKey);
    Join(Mapped(Runs(es, 0), RunText))
  }

  /** The printer as the source runs it: sort a copy, walk the runs, join the parts. */
  method RenderPortSpec(entries: seq<PortEntry>) returns (text: string)
    ensures text == Render(entries)
  {
    var copy := new PortEntry[|entries|](k requires 0 <= k < |entries| => entries[k]);
    assert copy[..] == entries;
    SortInPlace(copy);
    text := JoinRuns(copy[..]);
  }

  /** The loop over the sorted copy. */
  method JoinRuns(es: seq<PortEntry>) returns (text: string)
    ensures text == Join(Mapped(Runs(es, 0), RunText))
  {
    var parts: seq<string> := [];
    ghost var runs: seq<(PortEntry, PortEntry)> := [];
    var i := 0;
    while i < |es|
      invariant i <= |es|
      invariant Runs(es, 0) == runs + Runs(es, i)
      invariant parts == Mapped(runs, RunText)
    {
      var j := i;
      while Continues(es, i, j)
        invariant i <= j < |es|
        invariant RunEnd(es, i, i) == RunEnd(es, i, j)
        decreases |es| - j
      {
        j := j + 1;
      }
      parts := parts + [RunText((es[i], es[j]))];
      runs := runs + [(es[i], es[j])];
      i := j + 1;
    }
    assert runs + [] == runs;
    text := Join(parts);
  }

  // ----- a run and its text ---------------------------------------------------

  /** es[i..j+1] is one run: consecutive ports, one protocol, one offset. */
  predicate IsRun(es: seq<PortEntry>, i: nat, j: nat)
    requires i <= j < |es|
  {
    forall k :: i <= k <= j ==> es[k] == PortEntry(es[i].port + (k - i), es[i].proto, es[i].target + (k - i))
  }

  lemma {:induction false} RunEndIsRun(es: seq<PortEntry>, i: nat, j: nat)
    requires i <= j < |es| && IsRun(es, i, j)
    ensures IsRun(es, i, RunEnd(es, i, j))
    decreases |es| - j
  {
    if Continues(es, i, j) {
      assert es[j + 1] == PortEntry(es[i].port + (j + 1 - i), es[i].proto, es[i].target + (j + 1 - i));
      RunEndIsRun(es, i, j + 1);
    }
  }

  function RunEntry(first: PortEntry, last: PortEntry): EntryText {
    EntryText(Itoa(first.port),
              if last.port > first.port then Some(Itoa(last.port)) else None,
              Some(first.proto),
              if first.target != first.port then Some(Itoa(first.target)) else None)
  }

  lemma Reassociate(a: string, b: string, p: string, d: string)
    ensures a + b + "/" + p + d == a + (b + (("/" + p) + d))
  {
  }

  lemma RunEntryIsWellFormed(first: PortEntry, last: PortEntry)
    requires ValidEntry(first) && ValidEntry(last)
    ensures WellFormed(RunEntry(first, last))
  {
    PortLength(first.port);
    PortLength(last.port);
    PortLength(first.target);
  }

  lemma RunTextIsEntryText(first: PortEntry, last: PortEntry)
    requires ValidEntry(first) && ValidEntry(last)
    ensures WellFormed(RunEntry(first, last)) && Text(RunEntry(first, last)) == RunText((first, last))
  {
    RunEntryIsWellFormed(first, last);
    var e := RunEntry(first, last);
    Reassociate(e.start, EndText(e.end), ProtoText(first.proto), TargetText(e.target));
  }

  lemma ReadEntryText(e: EntryText, def: KnownProto)
    requires WellFormed(e)
    ensures IsWord(Text(e)) && ReadToken(Text(e), def) == Interpret(e, def)
  {
    TextIsPlain(e);
    ScanComplete(e);
  }

  /** The first and last entry of a run. */
  predicate RunPair(first: PortEntry, last: PortEntry) {
    && ValidEntry(first) && ValidEntry(last) && first.port <= last.port
    && last.target - last.port == first.target - first.port
  }

  function RunSpan(first: PortEntry, last: PortEntry): Span
    requires RunPair(first, last)
  {
    Span(first.port, last.port, first.proto, first.target)
  }

  lemma InterpretRun(first: PortEntry, last: PortEntry, def: KnownProto)
    requires RunPair(first, last)
    ensures WellFormed(RunEntry(first, last))
    ensures Interpret(RunEntry(first, last), def) == Ok(RunSpan(first, last))
  {
    RunEntryIsWellFormed(first, last);
    AtoiItoa(first.port);
    AtoiItoa(last.port);
    AtoiItoa(first.target);
  }

  /** Reading back the text of a run yields the run, whatever the default protocol. */
  lemma ReadRun(first: PortEntry, last: PortEntry, def: KnownProto)
    requires RunPair(first, last)
    ensures IsWord(RunText((first, last)))
    ensures ReadToken(RunText((first, last)), def) == Ok(RunSpan(first, last))
  {
    var e := RunEntry(first, last);
    RunTextIsEntryText(first, last);
    assert Text(e) == RunText((first, last));
    ReadEntryText(e, def);
    InterpretRun(first, last, def);
  }

  lemma ExpandRun(es: seq<PortEntry>, i: nat, j: nat)
    requires i <= j < |es| && AllValid(es) && IsRun(es, i, j)
    ensures RunPair(es[i], es[j]) && Expand(RunSpan(es[i], es[j])) == es[i..j + 1]
  {
    assert es[j] == PortEntry(es[i].port + (j - i), es[i].proto, es[i].target + (j - i));
  }

  // ----- the round trip ---------------------------------------------------------

  function RunReading(run: (PortEntry, PortEntry)): Reading {
    if RunPair(run.0, run.1) then Ok(RunSpan(run.0, run.1)) else Err(BadEntry)
  }

  predicate RunPairs(runs: seq<(PortEntry, PortEntry)>) {
    forall k :: 0 <= k < |runs| ==> RunPair(runs[k].0, runs[k].1)
  }

  lemma PrependRun(run: (PortEntry, PortEntry), runs: seq<(PortEntry, PortEntry)>)
    requires RunPair(run.0, run.1) && RunPairs(runs) && AllReadable(Mapped(runs, RunReading))
    ensures RunPairs([run] + runs) && AllReadable(Mapped([run] + runs, RunReading))
    ensures Flatten(Mapped([run] + runs, RunReading)) ==
            Expand(RunSpan(run.0, run.1)) + Flatten(Mapped(runs, RunReading))
  {
    assert Mapped([run] + runs, RunReading)[1..] == Mapped(runs, RunReading);
  }

  lemma FirstRun(es: seq<PortEntry>, i: nat)
    requires i < |es| && AllValid(es)
    ensures
      var j := RunEnd(es, i, i);
      RunPair(es[i], es[j]) && es[i..] == Expand(RunSpan(es[i], es[j])) + es[j + 1..]
  {
    var j := RunEnd(es, i, i);
    RunEndIsRun(es, i, i);
    ExpandRun(es, i, j);
    assert es[i..] == es[i..j + 1] + es[j + 1..];
  }

  /** The runs of a list expand to the list. */
  lemma {:induction false} RunsCover(es: seq<PortEntry>, i: nat)
    requires i <= |es| && AllValid(es)
    ensures RunPairs(Runs(es, i)) && AllReadable(Mapped(Runs(es, i), RunReading))
    ensures Flatten(Mapped(Runs(es, i), RunReading)) == es[i..]
    decreases |es| - i
  {
    if i < |es| {
      var j := RunEnd(es, i, i);
      FirstRun(es, i);
      RunsCover(es, j + 1);
      PrependRun((es[i], es[j]), Runs(es, j + 1));
    }
  }

  lemma {:induction false} RunEndStops(es: seq<PortEntry>, i: nat, j: nat)
    requires i <= j < |es|
    ensures !Continues(es, i, RunEnd(es, i, j))
    decreases |es| - j
  {
    if Continues(es, i, j) {
      RunEndStops(es, i, j + 1);
    }
  }

  /** The second run begins where the first could have gone on. */
  predicate Prolongs(a: (PortEntry, PortEntry), b: (PortEntry, PortEntry)) {
    && b.0.port == a.1.port + 1 && b.0.proto == a.0.proto
    && b.0.target - b.0.port == a.0.target - a.0.port
  }

  /** No run could be joined with the next: the printed form is as short as its runs allow. */
  lemma {:induction false} RunsAreMaximal(es: seq<PortEntry>, i: nat)
    requires i <= |es|
    ensures i < |es| ==> Runs(es, i) != [] && Runs(es, i)[0].0 == es[i]
    ensures forall k :: 0 <= k < |Runs(es, i)| - 1 ==> !Prolongs(Runs(es, i)[k], Runs(es, i)[k + 1])
    decreases |es| - i
  {
    if i < |es| {
      var j := RunEnd(es, i, i);
      var runs, rest := Runs(es, i), Runs(es, j + 1);
      RunEndStops(es, i, i);
      RunsAreMaximal(es, j + 1);
      assert runs == [(es[i], es[j])] + rest;
      forall k | 0 <= k < |runs| - 1 ensures !Prolongs(runs[k], runs[k + 1]) {
        if k == 0 {
          assert rest[0].0 == es[j + 1];
        } else {
          assert !Prolongs(rest[k - 1], rest[k]);
        }
      }
    }
  }

  lemma ReadRuns(runs: seq<(PortEntry, PortEntry)>, def: KnownProto)
    requires RunPairs(runs)
    ensures forall k :: 0 <= k < |runs| ==> IsWord(Mapped(runs, RunText)[k])
    ensures ReadAll(Mapped(runs, RunText), def) == Mapped(runs, RunReading)
  {
    forall k | 0 <= k < |runs|
      ensures IsWord(RunText(runs[k])) && ReadToken(RunText(runs[k]), def) == RunReading(runs[k])
    {
      ReadRun(runs[k].0, runs[k].1, def);
    }
  }

  /** ReadSpec(Render(es)) yields es again, in canonical order: digits, ranges,
      protocols and target offsets included, for every default protocol. */
  lemma RoundTrip(es: seq<PortEntry>, defProto: string)
    requires ValidEntries(es) && ProtoOf(defProto) != Unknown
    ensures ReadSpec(Render(es), defProto) == Ok(SortEntries(es))
  {
    var def: KnownProto := ProtoOf(defProto);
    var sorted := SortEntries(es);
    SortedIsValid(es);
    RunsCover(sorted, 0);
    ReadRuns(Runs(sorted, 0), def);
    FieldsOfJoin(Mapped(Runs(sorted, 0), RunText));
    assert sorted[0..] == sorted;
    AcceptanceIsDeclarative(Render(es), defProto);
    SortOrders(es, EntryKey);
    SortOfOrdered(sorted, EntryKey);
  }

  /** The list itself comes back exactly when it was in canonical order. */
  lemma RoundTripIsExact(es: seq<PortEntry>, defProto: string)
    requires ValidEntries(es) && ProtoOf(defProto) != Unknown
    ensures ReadSpec(Render(es), defProto) == Ok(es) <==> Ordered(es, EntryKey)
  {
    RoundTrip(es, defProto);
    SortOrders(es, EntryKey);
    if Ordered(es, EntryKey) {
      SortOfOrdered(es, EntryKey);
    }
  }

  lemma SortedIsValid(es: seq<PortEntry>)
    requires ValidEntries(es)
    ensures ValidEntries(SortEntries(es))
  {
    var sorted := SortEntries(es);
    SortRearranges(es, EntryKey);
    NoOverlapOfPermutation(es, sorted);
    forall i | 0 <= i < |sorted| ensures ValidEntry(sorted[i]) {
      assert sorted[i] in multiset(es);
      assert sorted[i] in es;
    }
  }

  /** Whatever the parser accepts, the printer can print and the parser reads back
      unchanged; so printing normalises a spec. */
  lemma ParsedIsValid(spec: string, defProto: string)
    requires ReadSpec(spec, defProto).Ok?
    ensures ValidEntries(ReadSpec(spec, defProto).value)
    ensures Ordered(ReadSpec(spec, defProto).value, EntryKey) && InOrder(ReadSpec(spec, defProto).value)
  {
    var def := ProtoOf(defProto);
    AcceptanceIsDeclarative(spec, defProto);
    var items := ReadAll(Fields(spec), def);
    FlattenIsValid(items);
    SortedIsValid(Flatten(items));
    SortOrders(Flatten(items), EntryKey);
    OrderedIsInOrder(SortEntries(Flatten(items)));
  }

  lemma {:induction false} FlattenIsValid(items: seq<Reading>)
    requires AllReadable(items)
    ensures |Flatten(items)| >= |items|
    ensures AllValid(Flatten(items))
  {
    if items != [] {
      FlattenIsValid(items[1..]);
    }
  }

  lemma PrintingNormalises(spec: string, defProto: string, otherDefault: string)
    requires ReadSpec(spec, defProto).Ok? && ProtoOf(otherDefault) != Unknown
    ensures ReadSpec(Render(ReadSpec(spec, defProto).value), otherDefault) == ReadSpec(spec, defProto)
  {
    var es := ReadSpec(spec, defProto).value;
    ParsedIsValid(spec, defProto);
    RoundTrip(es, otherDefault);
    SortOfOrdered(es, EntryKey);
  }

  /** Two valid lists print the same exactly when they are permutations of each other. */
  lemma SameTextSameEntries(a: seq<PortEntry>, b: seq<PortEntry>)
    requires ValidEntries(a) && ValidEntries(b)
    ensures Render(a) == Render(b) <==> multiset(a) == multiset(b)
  {
    RoundTrip(a, "tcp");
    RoundTrip(b, "tcp");
    SortRearranges(a, EntryKey);
    SortRearranges(b, EntryKey);
    if multiset(a) == multiset(b) {
      NoOverlapHasDistinctKeys(a);
      SortForgetsOrder(a, b, EntryKey);
    }
  }
}
