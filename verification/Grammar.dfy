/** The text of a port spec: tokens, the entry pattern and its two readings.
    internal/store/portspec.go:22-57 */
module Grammar {
  import opened Basics
  import opened Protocols
  import opened Decimal

  // ----- tokens ---------------------------------------------------------------

  predicate IsSeparator(c: char) {
    c == ',' || c == ' ' || c == '\t' || c == '\n' || c == '\r'
  }

  predicate IsWord(s: string) {
    s != [] && forall i :: 0 <= i < |s| ==> !IsSeparator(s[i])
  }

  /** The length of the longest prefix without a separator. */
  function WordLength(s: string): (n: nat)
    ensures n <= |s|
    ensures forall i :: 0 <= i < n ==> !IsSeparator(s[i])
    ensures n < |s| ==> IsSeparator(s[n])
  {
    if s == [] || IsSeparator(s[0]) then 0 else 1 + WordLength(s[1..])
  }

  /** strings.FieldsFunc with the separators of a port spec. */
  function Fields(s: string): seq<string>
    decreases |s|
  {
    if s == [] then []
    else if IsSeparator(s[0]) then Fields(s[1..])
    else [s[..WordLength(s)]] + Fields(s[WordLength(s)..])
  }

  /** strings.Join(parts, ", ") */
  function Join(parts: seq<string>): string {
    if parts == [] then ""
    else if |parts| == 1 then parts[0]
    else parts[0] + ", " + Join(parts[1..])
  }

  lemma WordThenSeparator(w: string, rest: string)
    requires IsWord(w) && (rest == [] || IsSeparator(rest[0]))
    ensures Fields(w + rest) == [w] + Fields(rest)
  {
    var s := w + rest;
    var n := WordLength(s);
    assert forall i :: 0 <= i < |w| ==> s[i] == w[i];
    assert rest != [] ==> s[|w|] == rest[0];
    assert s[..n] == w && s[n..] == rest;
    assert s[0] == w[0];
  }

  /** Splitting undoes joining. */
  lemma {:induction false} FieldsOfJoin(parts: seq<string>)
    requires forall i :: 0 <= i < |parts| ==> IsWord(parts[i])
    ensures Fields(Join(parts)) == parts
  {
    if parts == [] {
    } else if |parts| == 1 {
      WordThenSeparator(parts[0], []);
      assert parts[0] + [] == parts[0];
    } else {
      var tail := Join(parts[1..]);
      var rest := ", " + tail;
      WordThenSeparator(parts[0], rest);
      assert parts[0] + ", " + tail == parts[0] + rest;
      assert rest[1..] == " " + tail && (" " + tail)[1..] == tail;
      assert Fields(rest) == Fields(" " + tail) == Fields(tail);
      FieldsOfJoin(parts[1..]);
    }
  }

  /** Splitting at a comma, a space, a tab or a line end. */
  lemma {:induction false} FieldsSplit(a: string, c: char, b: string)
    requires c in ", \t\n\r"
    ensures Fields(a + [c] + b) == Fields(a) + Fields(b)
    decreases |a|
  {
    var s := a + [c] + b;
    if a == [] {
      assert s[1..] == b;
    } else if IsSeparator(a[0]) {
      assert s[1..] == a[1..] + [c] + b;
      FieldsSplit(a[1..], c, b);
    } else {
      var n := WordLength(a);
      var w, rest := a[..n], a[n..];
      assert w[0] == a[0] && a == w + rest;
      assert s == w + (rest + [c] + b);
      assert rest != [] ==> rest[0] == a[n];
      WordThenSeparator(w, rest);
      WordThenSeparator(w, rest + [c] + b);
      FieldsSplit(rest, c, b);
    }
  }

  /** A text without any of the five is one token, unless it is empty. */
  lemma FieldsOfWord(s: string)
    requires forall i :: 0 <= i < |s| ==> s[i] !in ", \t\n\r"
    ensures Fields(s) == if s == "" then [] else [s]
  {
    if s != "" {
      WordThenSeparator(s, []);
      assert s + [] == s;
    }
  }

  // ----- one entry ------------------------------------------------------------

  /** The four groups of the entry pattern. */
  datatype EntryText = EntryText(start: string, end: Option<string>, proto: Option<Proto>, target: Option<string>)

  /** One to five digits. */
  predicate IsNumber(s: string) {
    1 <= |s| <= 5 && AllDigits(s)
  }

  predicate WellFormed(e: EntryText) {
    && IsNumber(e.start)
    && (e.end.Some? ==> IsNumber(e.end.value))
    && (e.proto.Some? ==> e.proto.value != Unknown)
    && (e.target.Some? ==> IsNumber(e.target.value))
  }

  function EndText(end: Option<string>): string {
    if end.Some? then "-" + end.value else ""
  }

  function SuffixText(proto: Option<Proto>): string {
    if proto.Some? then "/" + ProtoText(proto.value) else ""
  }

  function TargetText(target: Option<string>): string {
    if target.Some? then ">" + target.value else ""
  }

  /** What the pattern says: START, -END, /PROTO and >TARGET one after the other. */
  function Text(e: EntryText): string {
    e.start + (EndText(e.end) + (SuffixText(e.proto) + TargetText(e.target)))
  }

  // Scanning from the left, the way the pattern is matched.

  function DigitRun(s: string): (n: nat)
    ensures n <= |s| && AllDigits(s[..n])
    ensures n < |s| ==> !IsDigit(s[n])
  {
    if s == [] || !IsDigit(s[0]) then 0
    else
      var n := 1 + DigitRun(s[1..]);
      assert forall i :: 1 <= i < n ==> s[i] == s[1..][..n - 1][i - 1];
      n
  }

  function ScanTarget(s: string): Option<Option<string>> {
    if s == [] then Some(None)
    else if s[0] == '>' && IsNumber(s[1..]) then Some(Some(s[1..]))
    else None
  }

  function ScanSuffix(start: string, end: Option<string>, s: string): (r: Option<EntryText>)
    requires IsNumber(start) && (end.Some? ==> IsNumber(end.value))
    ensures r.Some? ==> WellFormed(r.value)
  {
    var cut :=
      if "/tcp" <= s then Some((4, Some(Tcp)))
      else if "/udp" <= s then Some((4, Some(Udp)))
      else if "/both" <= s then Some((5, Some(Both)))
      else Some((0, None));
    match ScanTarget(s[cut.value.0..])
    case None => None
    case Some(target) => Some(EntryText(start, end, cut.value.1, target))
  }

  function ScanEntry(s: string): (r: Option<EntryText>)
    ensures r.Some? ==> WellFormed(r.value)
  {
    var a := DigitRun(s);
    if !(1 <= a <= 5) then None
    else if a < |s| && s[a] == '-' then
      var b := DigitRun(s[a + 1..]);
      if !(1 <= b <= 5) then None
      else ScanSuffix(s[..a], Some(s[a + 1..][..b]), s[a + 1..][b..])
    else ScanSuffix(s[..a], None, s[a..])
  }

  lemma DigitRunOf(digits: string, rest: string)
    requires AllDigits(digits) && (rest == [] || !IsDigit(rest[0]))
    ensures DigitRun(digits + rest) == |digits|
    ensures (digits + rest)[..|digits|] == digits && (digits + rest)[|digits|..] == rest
  {
    var s := digits + rest;
    var n := DigitRun(s);
    assert forall i :: 0 <= i < |digits| ==> s[i] == digits[i];
    assert rest != [] ==> s[|digits|] == rest[0];
    assert forall i :: 0 <= i < n ==> s[i] == s[..n][i] && IsDigit(s[i]);
  }

  lemma SuffixSound(start: string, end: Option<string>, s: string)
    requires IsNumber(start) && (end.Some? ==> IsNumber(end.value))
    requires ScanSuffix(start, end, s).Some?
    ensures
      var e := ScanSuffix(start, end, s).value;
      && e.start == start && e.end == end && WellFormed(e)
      && SuffixText(e.proto) + TargetText(e.target) == s
  {
    var e := ScanSuffix(start, end, s).value;
    var n := |SuffixText(e.proto)|;
    assert SuffixText(e.proto) <= s && ScanTarget(s[n..]) == Some(e.target);
    TargetSound(s[n..]);
  }

  lemma TargetSound(s: string)
    requires ScanTarget(s).Some?
    ensures TargetText(ScanTarget(s).value) == s
  {
  }

  lemma TargetComplete(target: Option<string>)
    requires target.Some? ==> IsNumber(target.value)
    ensures ScanTarget(TargetText(target)) == Some(target)
    ensures TargetText(target) == [] || TargetText(target)[0] == '>'
  {
    if target.Some? {
      assert TargetText(target)[1..] == target.value;
    }
  }

  /** The cut of a suffix, followed by something that does not look like one. */
  lemma SuffixCut(proto: Option<Proto>, rest: string)
    requires (proto.Some? ==> proto.value != Unknown) && (rest == [] || rest[0] == '>')
    ensures
      var s := SuffixText(proto) + rest;
      && s[|SuffixText(proto)|..] == rest
      && ("/tcp" <= s <==> proto == Some(Tcp)) && ("/udp" <= s <==> proto == Some(Udp)) && ("/both" <= s <==> proto == Some(Both))
  {
    var s := SuffixText(proto) + rest;
    if proto.Some? {
      assert s[..|SuffixText(proto)|] == SuffixText(proto);
      assert s[1] == SuffixText(proto)[1];
    } else {
      assert s == rest;
    }
  }

  lemma SuffixComplete(e: EntryText)
    requires WellFormed(e)
    ensures ScanSuffix(e.start, e.end, SuffixText(e.proto) + TargetText(e.target)) == Some(e)
  {
    TargetComplete(e.target);
    SuffixCut(e.proto, TargetText(e.target));
    assert |SuffixText(e.proto)| ==
           match e.proto { case None => 0 case Some(p) => if p == Both then 5 else 4 };
  }

  lemma RangePieces(s: string, a: nat, b: nat)
    requires a < |s| && s[a] == '-' && b <= |s[a + 1..]|
    ensures s == s[..a] + (("-" + s[a + 1..][..b]) + s[a + 1..][b..])
  {
    var r := s[a + 1..];
    assert r[..b] + r[b..] == r;
    assert ("-" + r[..b]) + r[b..] == "-" + r == s[a..];
  }

  /** A scanned token is the text of what was found. */
  lemma ScanSound(s: string)
    requires ScanEntry(s).Some?
    ensures WellFormed(ScanEntry(s).value) && Text(ScanEntry(s).value) == s
  {
    var a := DigitRun(s);
    if a < |s| && s[a] == '-' {
      var r := s[a + 1..];
      var b := DigitRun(r);
      assert ScanEntry(s) == ScanSuffix(s[..a], Some(r[..b]), r[b..]);
      PiecesSound(s, s[..a], Some(r[..b]), r[b..]) by {
        RangePieces(s, a, b);
      }
    } else {
      assert ScanEntry(s) == ScanSuffix(s[..a], None, s[a..]);
      PiecesSound(s, s[..a], None, s[a..]) by {
        assert "" + s[a..] == s[a..] && s == s[..a] + s[a..];
      }
    }
  }

  lemma PiecesSound(s: string, start: string, end: Option<string>, rest: string)
    requires s == start + (EndText(end) + rest)
    requires IsNumber(start) && (end.Some? ==> IsNumber(end.value))
    requires ScanSuffix(start, end, rest).Some?
    ensures
      var e := ScanSuffix(start, end, rest).value;
      WellFormed(e) && Text(e) == s
  {
    SuffixSound(start, end, rest);
  }

  lemma RangeText(start: string, end: string, tail: string)
    requires AllDigits(start) && AllDigits(end) && (tail == [] || !IsDigit(tail[0]))
    ensures
      var s := start + (("-" + end) + tail);
      && DigitRun(s) == |start| < |s| && s[|start|] == '-' && s[..|start|] == start
      && DigitRun(s[|start| + 1..]) == |end|
      && s[|start| + 1..][..|end|] == end && s[|start| + 1..][|end|..] == tail
  {
    var rest := ("-" + end) + tail;
    assert rest[0] == '-' && rest[1..] == end + tail;
    DigitRunOf(start, rest);
    DigitRunOf(end, tail);
    assert (start + rest)[|start| + 1..] == rest[1..];
  }

  lemma ScanOfRange(start: string, end: string, tail: string)
    requires IsNumber(start) && IsNumber(end) && (tail == [] || !IsDigit(tail[0]))
    ensures ScanEntry(start + (EndText(Some(end)) + tail)) == ScanSuffix(start, Some(end), tail)
  {
    RangeText(start, end, tail);
  }

  lemma ScanOfSingle(start: string, tail: string)
    requires IsNumber(start) && (tail == [] || (!IsDigit(tail[0]) && tail[0] != '-'))
    ensures ScanEntry(start + (EndText(None) + tail)) == ScanSuffix(start, None, tail)
  {
    assert EndText(None) + tail == tail;
    DigitRunOf(start, tail);
    assert tail != [] ==> (start + tail)[|start|] == tail[0];
  }

  /** Every text of the pattern is scanned, and into the pieces it was made of. */
  lemma ScanComplete(e: EntryText)
    requires WellFormed(e)
    ensures ScanEntry(Text(e)) == Some(e)
  {
    var tail := SuffixText(e.proto) + TargetText(e.target);
    assert tail == [] || tail[0] == '/' || tail[0] == '>';
    SuffixComplete(e);
    if e.end.Some? {
      ScanOfRange(e.start, e.end.value, tail);
    } else {
      ScanOfSingle(e.start, tail);
    }
  }

  /** Scanning decides the pattern: it finds pieces exactly when some exist. */
  lemma ScanDecides(s: string)
    ensures ScanEntry(s).Some? <==> exists e :: WellFormed(e) && Text(e) == s
  {
    if ScanEntry(s).Some? {
      ScanSound(s);
    }
    if e :| WellFormed(e) && Text(e) == s {
      ScanComplete(e);
    }
  }

  // ----- letter case ----------------------------------------------------------

  function LowerChar(c: char): char {
    if 'A' <= c <= 'Z' then c - 'A' + 'a' else c
  }

  /** strings.ToLower; no character outside A-Z lowers to one the pattern mentions. */
  function Lower(s: string): (r: string)
    ensures |r| == |s|
    ensures forall i :: 0 <= i < |s| ==> r[i] == LowerChar(s[i])
  {
    if s == [] then [] else [LowerChar(s[0])] + Lower(s[1..])
  }

  predicate IsPlain(c: char) {
    !('A' <= c <= 'Z') && !IsSeparator(c)
  }

  predicate AllPlain(s: string) {
    forall i :: 0 <= i < |s| ==> IsPlain(s[i])
  }

  lemma PlainConcat(a: string, b: string)
    requires AllPlain(a) && AllPlain(b)
    ensures AllPlain(a + b)
  {
  }

  /** d is the small letter for c, or c itself when that is no capital letter. */
  predicate SmallLetter(c: char, d: char) {
    match c
    case 'A' => d == 'a' case 'B' => d == 'b' case 'C' => d == 'c' case 'D' => d == 'd'
    case 'E' => d == 'e' case 'F' => d == 'f' case 'G' => d == 'g' case 'H' => d == 'h'
    case 'I' => d == 'i' case 'J' => d == 'j' case 'K' => d == 'k' case 'L' => d == 'l'
    case 'M' => d == 'm' case 'N' => d == 'n' case 'O' => d == 'o' case 'P' => d == 'p'
    case 'Q' => d == 'q' case 'R' => d == 'r' case 'S' => d == 's' case 'T' => d == 't'
    case 'U' => d == 'u' case 'V' => d == 'v' case 'W' => d == 'w' case 'X' => d == 'x'
    case 'Y' => d == 'y' case 'Z' => d == 'z'
    case _ => d == c
  }

  /** t is s with each capital letter replaced by its small one. */
  predicate Lowered(s: string, t: string) {
    |s| == |t| && forall i :: 0 <= i < |s| ==> SmallLetter(s[i], t[i])
  }

  lemma LetterMeaning(c: char, d: char)
    ensures SmallLetter(c, d) <==> d == LowerChar(c)
  {
  }

  /** Lowering a text replaces its capital letters, and nothing else. */
  lemma LowerMeaning(s: string, t: string)
    ensures Lowered(s, t) <==> t == Lower(s)
  {
    forall i | 0 <= i < |s| && i < |t| ensures SmallLetter(s[i], t[i]) <==> t[i] == LowerChar(s[i]) {
      LetterMeaning(s[i], t[i]);
    }
  }

  lemma PlainIsLower(s: string)
    requires AllPlain(s)
    ensures Lower(s) == s && (s != [] ==> IsWord(s))
  {
    assert forall i :: 0 <= i < |s| ==> Lower(s)[i] == s[i];
  }

  lemma PlainParts(e: EntryText)
    requires WellFormed(e)
    ensures AllPlain(e.start) && AllPlain(EndText(e.end)) && AllPlain(SuffixText(e.proto)) && AllPlain(TargetText(e.target))
  {
    PlainDigits(e.start);
    if e.end.Some? {
      PlainDigits(e.end.value);
      PlainConcat("-", e.end.value);
    }
    if e.target.Some? {
      PlainDigits(e.target.value);
      PlainConcat(">", e.target.value);
    }
  }

  /** The text of an entry is one token and is already in lower case. */
  lemma TextIsPlain(e: EntryText)
    requires WellFormed(e)
    ensures IsWord(Text(e)) && Lower(Text(e)) == Text(e)
  {
    PlainParts(e);
    PlainConcat(SuffixText(e.proto), TargetText(e.target));
    PlainConcat(EndText(e.end), SuffixText(e.proto) + TargetText(e.target));
    PlainConcat(e.start, EndText(e.end) + (SuffixText(e.proto) + TargetText(e.target)));
    PlainIsLower(Text(e));
  }

  lemma PlainDigits(s: string)
    requires AllDigits(s)
    ensures AllPlain(s)
  {
    forall i | 0 <= i < |s| ensures IsPlain(s[i]) {
      assert IsDigit(s[i]);
    }
  }
}
