/** Reading a port spec: internal/store/portspec.go:25-85. */
module PortSpec {
  import opened Basics
  import opened Protocols
  import opened Decimal
  import opened Grammar
  import opened Seqs
  import opened Sorting
  import opened Entries

  const MAX_GROUP_PORTS: nat := 64

  /** The distinct validation messages of the parser. */
  datatype Rejection = BadDefault | NoEntries | BadEntry | BadPort | BadOrder | BadTarget | TooMany | Repeated

  /** A well-formed token: ports start..end, relayed to target, target + 1, ... */
  datatype RawSpan = Span(start: nat, end: nat, proto: Proto, target: nat)

  type KnownProto = p: Proto | p != Unknown witness Tcp

  predicate ValidSpan(s: RawSpan) {
    && s.proto != Unknown && s.start <= s.end
    && InRange(s.start) && InRange(s.end)
    && InRange(s.target) && InRange(s.target + (s.end - s.start))
  }

  type Span = s: RawSpan | ValidSpan(s) witness Span(1, 1, Tcp, 1)

  type Reading = Result<Span, Rejection>

  /** The range checks on the numbers of one entry. */
  function Interpret(e: EntryText, def: KnownProto): Reading
    requires WellFormed(e)
  {
    var start := Atoi(e.start);
    var end := if e.end.Some? then Atoi(e.end.value) else start;
    var proto := if e.proto.Some? then e.proto.value else def;
    var target := if e.target.Some? then Atoi(e.target.value) else start;
    if !InRange(start) || !InRange(end) then Err(BadPort)
    else if start > end then Err(BadOrder)
    else if target < 1 || end + (target - start) > 65535 then Err(BadTarget)
    else Ok(Span(start, end, proto, target))
  }

  function ReadToken(raw: string, def: KnownProto): Reading {
    match ScanEntry(Lower(raw))
    case None => Err(BadEntry)
    case Some(e) => Interpret(e, def)
  }

  function ReadAll(tokens: seq<string>, def: KnownProto): seq<Reading> {
    Mapped(tokens, (t: string) => ReadToken(t, def))
  }

  function Size(s: Span): nat { s.end - s.start + 1 }

  /** Every port of a span, with its target shifted by the same offset. */
  function Expand(s: Span): (es: seq<PortEntry>)
    ensures |es| == Size(s)
  {
    seq(Size(s), i requires 0 <= i => PortEntry(s.start + i, s.proto, s.target + i))
  }

  predicate Disjoint(a: seq<PortEntry>, b: seq<PortEntry>) {
    forall i, j :: 0 <= i < |a| && 0 <= j < |b| ==> !Overlap(a[i], b[j])
  }

  /** Readings from left to right, added to the entries listed so far; the first
      reading that does not fit ends it. */
  function Collect(items: seq<Reading>, out: seq<PortEntry>): Result<seq<PortEntry>, Rejection> {
    if items == [] then Ok(out)
    else
      match items[0]
      case Err(e) => Err(e)
      case Ok(s) =>
        if |out| + Size(s) > MAX_GROUP_PORTS then Err(TooMany)
        else if !Disjoint(out, Expand(s)) then Err(Repeated)
        else Collect(items[1..], out + Expand(s))
  }

  function ReadSpec(spec: string, defProto: string): Result<seq<PortEntry>, Rejection> {
    var def := ProtoOf(defProto);
    if def == Unknown then Err(BadDefault)
    else if Fields(spec) == [] then Err(NoEntries)
    else
      match Collect(ReadAll(Fields(spec), def), [])
      case Err(e) => Err(e)
      case Ok(out) => Ok(SortEntries(out))
  }

  // ----- the loops ------------------------------------------------------------

  /** `seen` lists, per public port, the protocols already in `out`. */
  ghost predicate Indexes(seen: map<int, seq<Proto>>, out: seq<PortEntry>) {
    && (forall p, q :: p in seen && q in seen[p] ==> exists i :: 0 <= i < |out| && out[i].port == p && out[i].proto == q)
    && (forall i :: 0 <= i < |out| ==> out[i].port in seen && out[i].proto in seen[out[i].port])
  }

  predicate Taken(seen: map<int, seq<Proto>>, p: int, proto: Proto) {
    p in seen && exists q :: q in seen[p] && ProtoOverlap(q, proto)
  }

  /** The innermost loop: is some protocol listed on this port in the way? */
  method AlreadyListed(seen: map<int, seq<Proto>>, p: int, proto: Proto) returns (taken: bool)
    ensures taken <==> Taken(seen, p, proto)
  {
    if p !in seen { return false; }
    var listed := seen[p];
    var k := 0;
    while k < |listed|
      invariant k <= |listed|
      invariant forall j :: 0 <= j < k ==> !ProtoOverlap(listed[j], proto)
    {
      if ProtoOverlap(listed[k], proto) { return true; }
      k := k + 1;
    }
    return false;
  }

  lemma TakenIsOverlap(seen: map<int, seq<Proto>>, out: seq<PortEntry>, e: PortEntry)
    requires Indexes(seen, out)
    ensures Taken(seen, e.port, e.proto) <==> exists i :: 0 <= i < |out| && Overlap(out[i], e)
  {
    if Taken(seen, e.port, e.proto) {
      var q :| q in seen[e.port] && ProtoOverlap(q, e.proto);
      var i :| 0 <= i < |out| && out[i].port == e.port && out[i].proto == q;
      assert Overlap(out[i], e);
    }
    if i :| 0 <= i < |out| && Overlap(out[i], e) {
      assert out[i].proto in seen[e.port];
    }
  }

  function Record(seen: map<int, seq<Proto>>, p: int, proto: Proto): map<int, seq<Proto>> {
    seen[p := (if p in seen then seen[p] else []) + [proto]]
  }

  lemma RecordIndexes(seen: map<int, seq<Proto>>, out: seq<PortEntry>, e: PortEntry)
    requires Indexes(seen, out)
    ensures Indexes(Record(seen, e.port, e.proto), out + [e])
  {
    var seen', out' := Record(seen, e.port, e.proto), out + [e];
    forall p, q | p in seen' && q in seen'[p]
      ensures exists i :: 0 <= i < |out'| && out'[i].port == p && out'[i].proto == q
    {
      if p in seen && q in seen[p] {
        var i :| 0 <= i < |out| && out[i].port == p && out[i].proto == q;
        assert out'[i] == out[i];
      } else {
        assert out'[|out|] == e;
      }
    }
  }

  /** What the port loop has done up to port number k of the span. */
  ghost predicate Spanned(s: Span, out0: seq<PortEntry>, out: seq<PortEntry>, seen: map<int, seq<Proto>>, k: nat)
    requires k <= Size(s)
  {
    out == out0 + Expand(s)[..k] && Indexes(seen, out) && Disjoint(out0, Expand(s)[..k])
  }

  /** An overlap with an entry of the same span is impossible, so it is with an earlier one. */
  lemma OverlapIsEarlier(s: Span, out0: seq<PortEntry>, out: seq<PortEntry>, seen: map<int, seq<Proto>>, k: nat)
    requires k < Size(s) && Spanned(s, out0, out, seen, k)
    ensures Taken(seen, s.start + k, s.proto) <==> exists i :: 0 <= i < |out0| && Overlap(out0[i], Expand(s)[k])
  {
    var e := Expand(s)[k];
    TakenIsOverlap(seen, out, e);
    if i :| 0 <= i < |out| && Overlap(out[i], e) {
      assert i < |out0| && out0[i] == out[i];
    }
    if i :| 0 <= i < |out0| && Overlap(out0[i], e) {
      assert out[i] == out0[i];
    }
  }

  lemma SpannedStep(s: Span, out0: seq<PortEntry>, out: seq<PortEntry>, seen: map<int, seq<Proto>>, k: nat)
    requires k < Size(s) && Spanned(s, out0, out, seen, k) && !Taken(seen, s.start + k, s.proto)
    ensures Spanned(s, out0, out + [Expand(s)[k]], Record(seen, s.start + k, s.proto), k + 1)
  {
    OverlapIsEarlier(s, out0, out, seen, k);
    RecordIndexes(seen, out, Expand(s)[k]);
    assert Expand(s)[..k + 1] == Expand(s)[..k] + [Expand(s)[k]];
  }

  /** The port loop of one token. */
  method AddSpan(s: Span, out0: seq<PortEntry>, seen0: map<int, seq<Proto>>)
    returns (ok: bool, out: seq<PortEntry>, seen: map<int, seq<Proto>>)
    requires Indexes(seen0, out0)
    ensures ok <==> Disjoint(out0, Expand(s))
    ensures ok ==> out == out0 + Expand(s) && Indexes(seen, out)
  {
    out, seen := out0, seen0;
    var p := s.start;
    while p <= s.end
      invariant s.start <= p <= s.end + 1
      invariant Spanned(s, out0, out, seen, p - s.start)
    {
      OverlapIsEarlier(s, out0, out, seen, p - s.start);
      var taken := AlreadyListed(seen, p, s.proto);
      if taken { return false, out, seen; }
      SpannedStep(s, out0, out, seen, p - s.start);
      seen := Record(seen, p, s.proto);
      out := out + [PortEntry(p, s.proto, p + (s.target - s.start))];
      p := p + 1;
    }
    assert Expand(s)[..Size(s)] == Expand(s);
    ok := true;
  }

  /** The parser as the source runs it. */
  method ParsePortSpec(spec: string, defProto: string) returns (r: Result<seq<PortEntry>, Rejection>)
    ensures r == ReadSpec(spec, defProto)
  {
    var def := ProtoOf(defProto);
    if def == Unknown { return Err(BadDefault); }
    var tokens := Fields(spec);
    if |tokens| == 0 { return Err(NoEntries); }
    var out: seq<PortEntry>, seen: map<int, seq<Proto>> := [], map[];
    ghost var items := ReadAll(tokens, def);
    var i := 0;
    while i < |tokens|
      invariant i <= |tokens|
      invariant Collect(items, []) == Collect(items[i..], out)
      invariant Indexes(seen, out)
    {
      var t := ReadToken(tokens[i], def);
      if t.Err? { return Err(t.error); }
      if |out| + Size(t.value) > MAX_GROUP_PORTS { return Err(TooMany); }
      var ok;
      assert items[i..][0] == t && items[i..][1..] == items[i + 1..];
      ok, out, seen := AddSpan(t.value, out, seen);
      if !ok { return Err(Repeated); }
      i := i + 1;
    }
    var es := new PortEntry[|out|](k requires 0 <= k < |out| => out[k]);
    assert es[..] == out;
    SortInPlace(es);
    return Ok(es[..]);
  }

  // ----- what is accepted -----------------------------------------------------

  /** The span is what the entry says: a single port when no end is given, the default
      protocol when none is, and the same port numbers when no target is. */
  predicate Describes(e: EntryText, def: KnownProto, s: RawSpan)
    requires WellFormed(e)
  {
    && s.start == Atoi(e.start)
    && s.end == (if e.end.Some? then Atoi(e.end.value) else s.start)
    && s.proto == (if e.proto.Some? then e.proto.value else def)
    && s.target == (if e.target.Some? then Atoi(e.target.value) else s.start)
  }

  /** A token is read as a span exactly when it is, up to letter case, the text of an entry
      that describes it; a span has all its ports and targets within 1..65535. */
  lemma TokenMeaning(raw: string, def: KnownProto, s: Span)
    ensures ReadToken(raw, def) == Ok(s) <==>
            exists e :: WellFormed(e) && Text(e) == Lower(raw) && Describes(e, def, s)
  {
    if ReadToken(raw, def) == Ok(s) {
      ScanSound(Lower(raw));
      var e := ScanEntry(Lower(raw)).value;
      assert Describes(e, def, s);
    }
    if e :| WellFormed(e) && Text(e) == Lower(raw) && Describes(e, def, s) {
      ScanComplete(e);
      DescribedIsRead(e, def, s);
    }
  }

  lemma DescribedIsRead(e: EntryText, def: KnownProto, s: Span)
    requires WellFormed(e)
    ensures Interpret(e, def) == Ok(s) <==> Describes(e, def, s)
  {
  }

  // The same without the scanner: what the texts of a port, of a range, of a protocol and of
  // a target are.

  ghost predicate Parts(start: string, end: string, suffix: string, target: string, def: KnownProto, r: RawSpan) {
    && |start| <= 5 && Spells(start, r.start)
    && (if end == "" then r.end == r.start else end[0] == '-' && |end| <= 6 && Spells(end[1..], r.end))
    && (if suffix == "" then r.proto == def else suffix[0] == '/' && r.proto != Unknown && Named(r.proto, suffix[1..]))
    && (if target == "" then r.target == r.start else target[0] == '>' && |target| <= 6 && Spells(target[1..], r.target))
  }

  /** In small letters the token is START, -END, /PROTO and >TARGET one after the other, of
      which all but the first may be missing. */
  ghost predicate Says(raw: string, def: KnownProto, r: RawSpan) {
    exists start, end, suffix, target ::
      Parts(start, end, suffix, target, def, r) && Lowered(raw, start + (end + (suffix + target)))
  }

  lemma NumberText(s: string, n: nat)
    ensures |s| <= 5 && Spells(s, n) <==> IsNumber(s) && Atoi(s) == n
  {
    NumberMeaning(s, n);
  }

  /** A text behind its mark, as an optional part. */
  function Behind(part: string): Option<string> {
    if part == "" then None else Some(part[1..])
  }

  lemma BehindMark(part: string, mark: char)
    requires part == "" || part[0] == mark
    ensures part == if Behind(part).Some? then [mark] + Behind(part).value else ""
  {
  }

  lemma SuffixPart(suffix: string, proto: Proto)
    requires suffix == "" || (suffix[0] == '/' && proto != Unknown && Named(proto, suffix[1..]))
    ensures SuffixText(if suffix == "" then None else Some(proto)) == suffix
  {
    BehindMark(suffix, '/');
  }

  lemma PartsAreEntry(start: string, end: string, suffix: string, target: string, def: KnownProto, r: RawSpan)
    returns (e: EntryText)
    requires Parts(start, end, suffix, target, def, r)
    ensures WellFormed(e) && Describes(e, def, r)
    ensures Text(e) == start + (end + (suffix + target))
  {
    e := EntryText(start, Behind(end), if suffix == "" then None else Some(r.proto), Behind(target));
    NumberText(start, r.start);
    BehindMark(end, '-');
    BehindMark(target, '>');
    SuffixPart(suffix, r.proto);
    if end != "" { NumberText(end[1..], r.end); }
    if target != "" { NumberText(target[1..], r.target); }
  }

  lemma SaidEntry(raw: string, def: KnownProto, r: RawSpan) returns (e: EntryText)
    requires Says(raw, def, r)
    ensures WellFormed(e) && Describes(e, def, r) && ScanEntry(Lower(raw)) == Some(e)
  {
    var start, end, suffix, target :|
      Parts(start, end, suffix, target, def, r) && Lowered(raw, start + (end + (suffix + target)));
    e := PartsAreEntry(start, end, suffix, target, def, r);
    LowerMeaning(raw, Text(e));
    ScanComplete(e);
  }

  lemma EntryIsParts(e: EntryText, def: KnownProto) returns (r: RawSpan)
    requires WellFormed(e)
    ensures Describes(e, def, r) && Parts(e.start, EndText(e.end), SuffixText(e.proto), TargetText(e.target), def, r)
  {
    var start := Atoi(e.start);
    r := Span(start, if e.end.Some? then Atoi(e.end.value) else start,
              if e.proto.Some? then e.proto.value else def,
              if e.target.Some? then Atoi(e.target.value) else start);
    NumberText(e.start, r.start);
    if e.end.Some? {
      assert EndText(e.end)[1..] == e.end.value;
      NumberText(e.end.value, r.end);
    }
    if e.target.Some? {
      assert TargetText(e.target)[1..] == e.target.value;
      NumberText(e.target.value, r.target);
    }
    if e.proto.Some? {
      assert SuffixText(e.proto)[1..] == ProtoText(e.proto.value);
      ProtoMeaning(e.proto.value, ProtoText(e.proto.value));
    }
  }

  /** What becomes of a token that says r: it is read as r, unless r is out of range; of
      several faults the first of this list is reported. */
  lemma TokenVerdict(raw: string, def: KnownProto, r: RawSpan)
    requires Says(raw, def, r)
    ensures
      var t := ReadToken(raw, def);
      if !(1 <= r.start <= 65535 && 1 <= r.end <= 65535) then t == Err(BadPort)
      else if r.start > r.end then t == Err(BadOrder)
      else if r.target < 1 || r.target + (r.end - r.start) > 65535 then t == Err(BadTarget)
      else t.Ok? && t.value == r
  {
    var e := SaidEntry(raw, def, r);
    assert ReadToken(raw, def) == Interpret(e, def);
  }

  /** Every other token is refused as such. */
  lemma TokenSaysNothing(raw: string, def: KnownProto)
    ensures ReadToken(raw, def) == Err(BadEntry) <==> forall r :: !Says(raw, def, r)
  {
    if ReadToken(raw, def) == Err(BadEntry) {
      forall r ensures !Says(raw, def, r) {
        if Says(raw, def, r) {
          TokenVerdict(raw, def, r);
        }
      }
    } else {
      ScanSound(Lower(raw));
      var e := ScanEntry(Lower(raw)).value;
      var r := EntryIsParts(e, def);
      LowerMeaning(raw, Text(e));
      assert Says(raw, def, r);
    }
  }

  predicate AllReadable(items: seq<Reading>) {
    forall i :: 0 <= i < |items| ==> items[i].Ok?
  }

  /** All expansions one after the other. */
  function Flatten(items: seq<Reading>): seq<PortEntry>
    requires AllReadable(items)
  {
    if items == [] then [] else Expand(items[0].value) + Flatten(items[1..])
  }

  /** A list of tokens can be accepted: each is well formed and in range, together
      they name at most 64 ports, and no two of those overlap. */
  predicate Acceptable(items: seq<Reading>) {
    && AllReadable(items)
    && |Flatten(items)| <= 64
    && NoOverlap(Flatten(items))
  }

  lemma ExpandHasNoOverlap(s: Span)
    ensures NoOverlap(Expand(s))
  {
  }

  lemma NoOverlapOfConcat(a: seq<PortEntry>, b: seq<PortEntry>)
    ensures NoOverlap(a + b) <==> NoOverlap(a) && NoOverlap(b) && Disjoint(a, b)
  {
    var c := a + b;
    assert forall i :: 0 <= i < |a| ==> c[i] == a[i];
    assert forall j :: 0 <= j < |b| ==> c[|a| + j] == b[j];
    if NoOverlap(c) {
      forall i, j | 0 <= i < j < |b| ensures !Overlap(b[i], b[j]) {
        assert !Overlap(c[|a| + i], c[|a| + j]);
      }
      forall i, j | 0 <= i < |a| && 0 <= j < |b| ensures !Overlap(a[i], b[j]) {
        assert !Overlap(c[i], c[|a| + j]);
      }
    }
    if NoOverlap(a) && NoOverlap(b) && Disjoint(a, b) {
      forall i, j | 0 <= i < j < |c| ensures !Overlap(c[i], c[j]) {
        if j < |a| {
        } else if i < |a| {
          assert !Overlap(a[i], b[j - |a|]);
        } else {
          assert !Overlap(b[i - |a|], b[j - |a|]);
        }
      }
    }
  }

  lemma FlattenStep(items: seq<Reading>, out: seq<PortEntry>)
    requires items != [] && AllReadable(items)
    ensures AllReadable(items[1..])
    ensures out + Flatten(items) == (out + Expand(items[0].value)) + Flatten(items[1..])
  {
    assert out + Flatten(items) == (out + Expand(items[0].value)) + Flatten(items[1..]);
  }

  /** The left-to-right reading with its early exits accepts exactly when the whole
      list is fine, and then it has collected every expansion in order. */
  lemma {:induction false} CollectMeaning(items: seq<Reading>, out: seq<PortEntry>)
    requires NoOverlap(out) && |out| <= MAX_GROUP_PORTS
    ensures Collect(items, out).Ok? <==>
            AllReadable(items) && |out + Flatten(items)| <= MAX_GROUP_PORTS && NoOverlap(out + Flatten(items))
    ensures Collect(items, out).Ok? ==> Collect(items, out).value == out + Flatten(items)
  {
    if items == [] {
      assert out + [] == out;
    } else if items[0].Ok? {
      var es := Expand(items[0].value);
      ExpandHasNoOverlap(items[0].value);
      NoOverlapOfConcat(out, es);
      if AllReadable(items) {
        FlattenStep(items, out);
        NoOverlapOfConcat(out + es, Flatten(items[1..]));
      }
      if |out + es| <= MAX_GROUP_PORTS && Disjoint(out, es) {
        CollectMeaning(items[1..], out + es);
        assert AllReadable(items[1..]) ==> AllReadable(items);
      }
    }
  }

  /** A spec is accepted exactly when its tokens are acceptable; the result is their
      expansion in canonical order. */
  lemma AcceptanceIsDeclarative(spec: string, defProto: string)
    ensures
      var def, tokens := ProtoOf(defProto), Fields(spec);
      && (ReadSpec(spec, defProto).Ok? <==>
            (defProto == "tcp" || defProto == "udp" || defProto == "both") && tokens != [] && Acceptable(ReadAll(tokens, def)))
      && (ReadSpec(spec, defProto).Ok? ==>
            ReadSpec(spec, defProto).value == SortEntries(Flatten(ReadAll(tokens, def))))
  {
    var def := ProtoOf(defProto);
    ProtoMeaning(def, defProto);
    if def != Unknown {
      var items := ReadAll(Fields(spec), def);
      CollectMeaning(items, []);
      if AllReadable(items) {
        assert [] + Flatten(items) == Flatten(items);
      }
    }
  }

  // ----- what is reported ------------------------------------------------------

  /** The reading stops at the first item that does not fit. */
  lemma {:induction false} FirstFault(items: seq<Reading>, out: seq<PortEntry>) returns (k: nat)
    requires NoOverlap(out) && |out| <= 64 && Collect(items, out).Err?
    ensures k < |items| && AllReadable(items[..k])
    ensures |out + Flatten(items[..k])| <= 64 && NoOverlap(out + Flatten(items[..k]))
    ensures
      var e := Collect(items, out).error;
      if items[k].Err? then e == items[k].error
      else
        && AllReadable(items[..k + 1])
        && var more := out + Flatten(items[..k + 1]);
           if |more| > 64 then e == TooMany else e == Repeated && !NoOverlap(more)
  {
    if items[0].Err? {
      k := 0;
      assert out + [] == out;
    } else {
      var es := Expand(items[0].value);
      ExpandHasNoOverlap(items[0].value);
      NoOverlapOfConcat(out, es);
      assert out + Flatten(items[..0]) == out;
      if |out + es| > 64 || !Disjoint(out, es) {
        k := 0;
        assert items[..1][1..] == [];
        assert es + [] == es;
      } else {
        k := FirstFault(items[1..], out + es);
        assert items[..k + 1][1..] == items[1..][..k] && items[..k + 2][1..] == items[1..][..k + 1];
        FlattenStep(items[..k + 1], out) by {
          AllReadableMore(items, k);
        }
        if items[k + 1].Ok? {
          AllReadableMore(items, k + 1);
          FlattenStep(items[..k + 2], out);
        }
        k := k + 1;
      }
    }
  }

  lemma AllReadableMore(items: seq<Reading>, k: nat)
    requires k < |items| && items[0].Ok? && AllReadable(items[1..][..k])
    ensures AllReadable(items[..k + 1])
  {
    assert items[..k + 1] == [items[0]] + items[1..][..k];
  }

  /** The items before position k can be accepted, and with that item they cannot, because
      it is not readable, or there are too many ports, or else because ports overlap. */
  ghost predicate FailsAt(items: seq<Reading>, k: nat, error: Rejection)
    requires k < |items|
  {
    && Acceptable(items[..k])
    && if items[k].Err? then error == items[k].error
       else
         && AllReadable(items[..k + 1])
         && var es := Flatten(items[..k + 1]);
            if |es| > 64 then error == TooMany else !NoOverlap(es) && error == Repeated
  }

  /** Why a spec is refused: for its default protocol, for having no token, or for the first
      token that does not fit. */
  lemma WhyRefused(spec: string, defProto: string) returns (k: nat)
    requires ReadSpec(spec, defProto).Err?
    ensures
      var error := ReadSpec(spec, defProto).error;
      if defProto != "tcp" && defProto != "udp" && defProto != "both" then error == BadDefault
      else if Fields(spec) == [] then error == NoEntries
      else k < |Fields(spec)| && FailsAt(ReadAll(Fields(spec), ProtoOf(defProto)), k, error)
  {
    var tokens := Fields(spec);
    ProtoMeaning(ProtoOf(defProto), defProto);
    k := 0;
    if ProtoOf(defProto) != Unknown && tokens != [] {
      var items := ReadAll(tokens, ProtoOf(defProto));
      k := FirstFault(items, []);
      assert [] + Flatten(items[..k]) == Flatten(items[..k]);
      if items[k].Ok? {
        assert [] + Flatten(items[..k + 1]) == Flatten(items[..k + 1]);
      }
    }
  }

  // ----- token order does not matter -------------------------------------------

  function Without<T>(s: seq<T>, i: nat): seq<T>
    requires i < |s|
  {
    s[..i] + s[i + 1..]
  }

  lemma {:induction false} FlattenTakeOut(items: seq<Reading>, i: nat)
    requires AllReadable(items) && i < |items|
    ensures AllReadable(Without(items, i))
    ensures multiset(Flatten(items)) == multiset(Expand(items[i].value)) + multiset(Flatten(Without(items, i)))
    decreases i
  {
    var rest := Without(items, i);
    if i == 0 {
      assert rest == items[1..];
    } else {
      FlattenTakeOut(items[1..], i - 1);
      assert rest[0] == items[0] && rest[1..] == Without(items[1..], i - 1);
      FlattenStep(rest, []);
      assert Flatten(rest) == Expand(items[0].value) + Flatten(rest[1..]);
    }
  }

  lemma WithoutMultiset<T>(s: seq<T>, i: nat)
    requires i < |s|
    ensures multiset(s) == multiset(Without(s, i)) + multiset{s[i]}
    ensures multiset(Without(s, i)) == multiset(s) - multiset{s[i]}
  {
    assert s == s[..i] + [s[i]] + s[i + 1..];
  }

  lemma MappedTakeOut<A, B>(a: seq<A>, f: A -> B, i: nat)
    requires i < |a|
    ensures multiset(Mapped(a, f)) == multiset(Mapped(Without(a, i), f)) + multiset{f(a[i])}
  {
    WithoutMultiset(Mapped(a, f), i);
    assert Mapped(Without(a, i), f) == Without(Mapped(a, f), i);
  }

  lemma {:induction false} MappedOfPermutation<A, B>(a: seq<A>, b: seq<A>, f: A -> B)
    requires multiset(a) == multiset(b)
    ensures multiset(Mapped(a, f)) == multiset(Mapped(b, f))
  {
    if a == [] {
      assert |b| == |multiset(b)| == 0;
    } else {
      assert a[0] in multiset(b);
      var i :| 0 <= i < |b| && b[i] == a[0];
      WithoutMultiset(a, 0);
      WithoutMultiset(b, i);
      MappedOfPermutation(Without(a, 0), Without(b, i), f);
      MappedTakeOut(a, f, 0);
      MappedTakeOut(b, f, i);
    }
  }

  lemma {:induction false} FlattenOfPermutation(a: seq<Reading>, b: seq<Reading>)
    requires AllReadable(a) && multiset(a) == multiset(b)
    ensures AllReadable(b) && multiset(Flatten(a)) == multiset(Flatten(b))
  {
    forall i | 0 <= i < |b| ensures b[i].Ok? {
      assert b[i] in multiset(a);
      assert b[i] in a;
    }
    if a == [] {
      assert |b| == |multiset(b)| == 0;
    } else {
      assert a[0] in multiset(b);
      var i :| 0 <= i < |b| && b[i] == a[0];
      WithoutMultiset(a, 0);
      WithoutMultiset(b, i);
      FlattenTakeOut(a, 0);
      FlattenTakeOut(b, i);
      FlattenOfPermutation(Without(a, 0), Without(b, i));
    }
  }

  lemma AcceptableOfPermutation(a: seq<Reading>, b: seq<Reading>)
    requires multiset(a) == multiset(b) && Acceptable(a)
    ensures Acceptable(b) && SortEntries(Flatten(a)) == SortEntries(Flatten(b))
  {
    FlattenOfPermutation(a, b);
    var x, y := Flatten(a), Flatten(b);
    assert |x| == |multiset(x)| == |multiset(y)| == |y|;
    NoOverlapOfPermutation(x, y);
    NoOverlapHasDistinctKeys(x);
    SortForgetsOrder(x, y, EntryKey);
  }

  /** Two specs with the same tokens in any order are both rejected or both
      accepted with the same entries. */
  lemma TokenOrderIsIrrelevant(spec: string, spec': string, defProto: string)
    requires multiset(Fields(spec)) == multiset(Fields(spec'))
    ensures ReadSpec(spec, defProto).Ok? <==> ReadSpec(spec', defProto).Ok?
    ensures ReadSpec(spec, defProto).Ok? ==> ReadSpec(spec, defProto) == ReadSpec(spec', defProto)
  {
    var def, a, b := ProtoOf(defProto), Fields(spec), Fields(spec');
    AcceptanceIsDeclarative(spec, defProto);
    AcceptanceIsDeclarative(spec', defProto);
    assert |a| == |multiset(a)| == |multiset(b)| == |b|;
    if def != Unknown {
      var x, y := ReadAll(a, def), ReadAll(b, def);
      MappedOfPermutation(a, b, (t: string) => ReadToken(t, def));
      if Acceptable(x) { AcceptableOfPermutation(x, y); }
      if Acceptable(y) { AcceptableOfPermutation(y, x); }
    }
  }
}
