/** Expanded port entries: their order, their overlap and the in-place sort.
    internal/store/portspec.go:14-20, 87-104 */
module Entries {
  import opened Protocols
  import opened Sorting

  datatype PortEntry = PortEntry(port: int, proto: Proto, target: int)

  predicate Overlap(a: PortEntry, b: PortEntry) {
    a.port == b.port && ProtoOverlap(a.proto, b.proto)
  }

  predicate NoOverlap(es: seq<PortEntry>) {
    forall i, j :: 0 <= i < j < |es| ==> !Overlap(es[i], es[j])
  }

  predicate LessEntry(a: PortEntry, b: PortEntry) {
    if a.port != b.port then a.port < b.port else Rank(a.proto) < Rank(b.proto)
  }

  /** Port first, protocol second, as one number. */
  function EntryKey(e: PortEntry): int { 4 * e.port + Rank(e.proto) }

  function SortEntries(es: seq<PortEntry>): seq<PortEntry> { SortBy(es, EntryKey) }

  /** The key orders by port and, on one port, by the text of the protocol. */
  lemma KeyIsOrder(a: PortEntry, b: PortEntry)
    ensures LessEntry(a, b) <==> EntryKey(a) < EntryKey(b)
    ensures EntryKey(a) == EntryKey(b) <==> a.port == b.port && a.proto == b.proto
    ensures a.proto != Unknown && b.proto != Unknown ==>
              (EntryKey(a) < EntryKey(b) <==>
                a.port < b.port || (a.port == b.port && LessText(ProtoText(a.proto), ProtoText(b.proto))))
  {
    if a.proto != Unknown && b.proto != Unknown {
      RankMeaning(a.proto, b.proto);
    }
  }

  /** By port and, on one port, by the text of the protocol; nothing is listed twice. */
  ghost predicate InOrder(es: seq<PortEntry>) {
    forall i, j :: 0 <= i < j < |es| ==>
      es[i].port < es[j].port || (es[i].port == es[j].port && LessText(ProtoText(es[i].proto), ProtoText(es[j].proto)))
  }

  lemma OrderedIsInOrder(es: seq<PortEntry>)
    requires Ordered(es, EntryKey) && NoOverlap(es) && forall i :: 0 <= i < |es| ==> es[i].proto != Unknown
    ensures InOrder(es)
  {
    forall i, j | 0 <= i < j < |es|
      ensures es[i].port < es[j].port || (es[i].port == es[j].port && LessText(ProtoText(es[i].proto), ProtoText(es[j].proto)))
    {
      assert !Overlap(es[i], es[j]);
      KeyIsOrder(es[i], es[j]);
    }
  }

  lemma NoOverlapHasDistinctKeys(es: seq<PortEntry>)
    requires NoOverlap(es)
    ensures DistinctKeys(es, EntryKey)
  {
    forall i, j | 0 <= i < j < |es| ensures EntryKey(es[i]) != EntryKey(es[j]) {
      assert !Overlap(es[i], es[j]);
    }
  }

  /** Overlap, like distinctness, does not depend on the order of the list. */
  lemma {:induction false} NoOverlapOfPermutation(a: seq<PortEntry>, b: seq<PortEntry>)
    requires multiset(a) == multiset(b) && NoOverlap(a)
    ensures NoOverlap(b)
  {
    NoOverlapHasDistinctKeys(a);
    DistinctKeysOfPermutation(a, b, EntryKey);
    forall i, j | 0 <= i < j < |b| ensures !Overlap(b[i], b[j]) {
      assert b[i] in multiset(a) && b[j] in multiset(a);
      var m :| 0 <= m < |a| && a[m] == b[i];
      var n :| 0 <= n < |a| && a[n] == b[j];
      assert EntryKey(b[i]) != EntryKey(b[j]);
      assert m != n;
      assert !Overlap(a[if m < n then m else n], a[if m < n then n else m]);
    }
  }

  lemma {:induction false} InsertBelow(s: seq<PortEntry>, n: nat, x: PortEntry)
    requires n <= |s|
    requires forall k :: n <= k < |s| ==> EntryKey(x) < EntryKey(s[k])
    ensures Insert(s, x, EntryKey) == Insert(s[..n], x, EntryKey) + s[n..]
    decreases |s|
  {
    if n < |s| {
      var init := s[..|s| - 1];
      InsertBelow(init, n, x);
      assert init[..n] == s[..n] && init[n..] + [s[|s| - 1]] == s[n..];
    } else {
      assert s[..n] == s;
    }
  }

  /** The inner loop: moves es[i] down to its place in the sorted part before it. */
  method SwapDown(es: array<PortEntry>, i: nat)
    requires i < es.Length
    modifies es
    ensures es[..i + 1] == Insert(old(es[..i]), old(es[i]), EntryKey)
    ensures es[i + 1..] == old(es[i + 1..])
  {
    ghost var sorted, x, rest := es[..i], es[i], es[i + 1..];
    var j := i;
    while j > 0 && LessEntry(es[j], es[j - 1])
      invariant 0 <= j <= i
      invariant es[..j] == sorted[..j] && es[j] == x && es[i + 1..] == rest
      invariant forall k :: j <= k < i ==> es[k + 1] == sorted[k] && EntryKey(x) < EntryKey(sorted[k])
    {
      assert es[j - 1] == es[..j][j - 1];
      es[j], es[j - 1] := es[j - 1], es[j];
      j := j - 1;
      assert es[..j] == sorted[..j];
    }
    assert j > 0 ==> es[j - 1] == es[..j][j - 1];
    InsertBelow(sorted, j, x);
    assert es[..i + 1] == sorted[..j] + [x] + sorted[j..];
  }

  /** Insertion sort by swapping neighbours, in place. */
  method SortInPlace(es: array<PortEntry>)
    modifies es
    ensures es[..] == SortEntries(old(es[..]))
  {
    ghost var was := es[..];
    if es.Length == 0 { return; }
    var i := 1;
    assert es[..1] == was[..1] == [was[0]];
    SortOfOrdered([was[0]], EntryKey);
    while i < es.Length
      invariant 1 <= i <= es.Length
      invariant es[..i] == SortEntries(was[..i]) && es[i..] == was[i..]
    {
      assert es[i] == es[i..][0] == was[i];
      assert was[..i + 1][..i] == was[..i];
      assert es[i + 1..] == es[i..][1..] == was[i + 1..];
      SwapDown(es, i);
      i := i + 1;
    }
    assert es[..] == es[..i] && was[..i] == was;
  }
}
