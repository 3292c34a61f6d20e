/** Installing a server release: internal/agent/update.go:141-301, 308-351. Files are
    followed step by step; every step may fail. */
module UpdaterObject {
  import opened Basics
  import opened Decimal
  import opened Grammar

  type Bytes = string

  /** BinPath, BinPath.new and BinPath.previous. */
  datatype Path = Bin | New | Previous

  type Files = map<Path, Bytes>

  datatype State = Pending | Done | Failed | RolledBack

  datatype Record = Record(state: State, from: string, to: string, detail: string)

  /** What the outside world answers during one run: the two downloads (the checksum
      file already split into name and hash), which steps fail, what a failing write
      leaves behind, and the answers of the health endpoint until the deadline. */
  datatype World = World(
    sums: Option<map<string, string>>, tarball: Option<Bytes>,
    fails: nat -> bool, leftover: Option<Bytes>, probes: seq<Option<string>>)

  /** `v1.2.3` */
  predicate ValidTag(tag: string) {
    && tag != "" && tag[0] == 'v'
    && var a := DigitRun(tag[1..]);
       var r1 := tag[1..][a..];
       a > 0 && r1 != "" && r1[0] == '.'
       && var b := DigitRun(r1[1..]);
          var r2 := r1[1..][b..];
          b > 0 && r2 != "" && r2[0] == '.' && DigitRun(r2[1..]) > 0 && AllDigits(r2[1..])
  }

  /** The tag is a v and three numbers with dots between them. */
  ghost predicate TagOf(tag: string, a: string, b: string, c: string) {
    && (exists x :: Spells(a, x)) && (exists y :: Spells(b, y)) && (exists z :: Spells(c, z))
    && tag == "v" + (a + ("." + (b + ("." + c))))
  }

  lemma SpellsDigits(a: string)
    ensures (exists x :: Spells(a, x)) <==> a != "" && AllDigits(a)
  {
    if x :| Spells(a, x) { NumberMeaning(a, x); }
    if AllDigits(a) { NumberMeaning(a, Atoi(a)); }
  }

  lemma DotBehind(digits: string, rest: string)
    requires AllDigits(digits)
    ensures
      var s := digits + ("." + rest);
      DigitRun(s) == |digits| && s[..|digits|] == digits && s[|digits|..] == "." + rest && ("." + rest)[1..] == rest
  {
    DigitRunOf(digits, "." + rest);
  }

  lemma TagIsValid(tag: string, a: string, b: string, c: string)
    requires TagOf(tag, a, b, c)
    ensures ValidTag(tag)
  {
    SpellsDigits(a);
    SpellsDigits(b);
    SpellsDigits(c);
    assert tag[1..] == a + ("." + (b + ("." + c)));
    DotBehind(a, b + ("." + c));
    DotBehind(b, c);
    DigitRunOf(c, "");
    assert c + "" == c;
  }

  lemma CutAtDot(s: string) returns (digits: string, rest: string)
    requires var r := s[DigitRun(s)..]; r != "" && r[0] == '.'
    ensures digits == s[..DigitRun(s)] && AllDigits(digits) && rest == s[DigitRun(s)..][1..]
    ensures s == digits + ("." + rest)
  {
    digits, rest := s[..DigitRun(s)], s[DigitRun(s)..][1..];
    assert s[DigitRun(s)..] == "." + rest;
  }

  lemma ValidTagParts(tag: string) returns (a: string, b: string, c: string)
    requires ValidTag(tag)
    ensures TagOf(tag, a, b, c)
  {
    var rest;
    a, rest := CutAtDot(tag[1..]);
    b, c := CutAtDot(rest);
    assert tag == "v" + tag[1..];
    SpellsDigits(a);
    SpellsDigits(b);
    SpellsDigits(c);
  }

  lemma TagMeaning(tag: string)
    ensures ValidTag(tag) <==> exists a, b, c :: TagOf(tag, a, b, c)
  {
    if ValidTag(tag) {
      var a, b, c := ValidTagParts(tag);
    }
    if a, b, c :| TagOf(tag, a, b, c) { TagIsValid(tag, a, b, c); }
  }

  /** The parts of the system that are plain functions of their input: the hash, the
      archive, and what a binary prints when asked for its version. */
  datatype Tools = Tools(sha256: Bytes -> string, extract: Bytes -> Option<Bytes>, reports: Bytes -> Option<string>)

  predicate VerifySum(t: Tools, sums: map<string, string>, name: string, data: Bytes) {
    name in sums && sums[name] == t.sha256(data)
  }

  function Asset(arch: string): string { "spawnrelay_linux_" + arch + ".tar.gz" }

  /** fetchBinary: both downloads, the checksum, the archive. */
  function Fetch(t: Tools, arch: string, w: World): Option<Bytes> {
    if w.sums.None? || w.tarball.None? then None
    else if !VerifySum(t, w.sums.value, Asset(arch), w.tarball.value) then None
    else t.extract(w.tarball.value)
  }

  /** Both files could be downloaded, the checksum file lists the tarball for this platform
      with the hash the tarball has, and b is what the tarball holds. */
  ghost predicate Released(t: Tools, arch: string, w: World, b: Bytes) {
    && w.sums.Some? && w.tarball.Some?
    && "spawnrelay_linux_" + arch + ".tar.gz" in w.sums.value
    && w.sums.value["spawnrelay_linux_" + arch + ".tar.gz"] == t.sha256(w.tarball.value)
    && t.extract(w.tarball.value) == Some(b)
  }

  lemma FetchMeaning(t: Tools, arch: string, w: World)
    ensures forall b :: Fetch(t, arch, w) == Some(b) <==> Released(t, arch, w, b)
  {
  }

  /** b came out of a tarball that matches the release's checksum, and runs as version. */
  ghost predicate Verified(t: Tools, arch: string, w: World, version: string, b: Bytes) {
    Released(t, arch, w, b) && t.reports(b) == Some(version)
  }

  /** The old binary is at hand, and nothing unverified is installed. */
  ghost predicate Safe(t: Tools, arch: string, w: World, version: string, oldBin: Bytes, files: Files) {
    && ((Bin in files && files[Bin] == oldBin) || (Previous in files && files[Previous] == oldBin))
    && (Bin in files ==> files[Bin] == oldBin || Verified(t, arch, w, version, files[Bin]))
  }

  ghost predicate GoesOnSafely(t: Tools, arch: string, w: World, to: string, oldBin: Bytes, before: seq<Files>, after: seq<Files>) {
    && before <= after
    && forall i :: |before| <= i < |after| ==> Safe(t, arch, w, to, oldBin, after[i])
  }

  lemma GoesOn(t: Tools, arch: string, w: World, to: string, oldBin: Bytes, a: seq<Files>, b: seq<Files>, c: seq<Files>)
    requires GoesOnSafely(t, arch, w, to, oldBin, a, b) && GoesOnSafely(t, arch, w, to, oldBin, b, c)
    ensures GoesOnSafely(t, arch, w, to, oldBin, a, c)
  {
  }

  // ----- how a run ends --------------------------------------------------------------------

  /** The verdict, the states written on the way to it, the files, what the server was last
      started from, and whether the agent is to restart. */
  datatype End = End(state: State, notes: seq<State>, files: Files, serving: Option<Bytes>, leaving: bool)

  /** The files after step s was to remove p. */
  ghost function Gone(w: World, s: nat, files: Files, p: Path): Files {
    if w.fails(s) then files else files - {p}
  }

  ghost function Swapped(files: Files, oldBin: Bytes, newBin: Bytes): Files {
    files[Bin := newBin][Previous := oldBin] - {New}
  }

  /** The new binary could be written, and says the right version when it is run. */
  ghost predicate IsReady(t: Tools, w: World, to: string, s: nat, b: Bytes) {
    !w.fails(s) && !w.fails(s + 1) && t.reports(b) == Some(to)
  }

  /** The files when it could not, or does not. */
  ghost function FilesUnready(w: World, s: nat, files: Files, b: Bytes): Files {
    if !w.fails(s) then Gone(w, s + 2, files[New := b], New)
    else if w.leftover.Some? then files[New := w.leftover.value]
    else files
  }

  /** The files when the swap that begins at step s does not work out: the old binary did not
      move, or it is moved back. Whether the earlier previous one could be removed does not
      matter. */
  ghost function FilesUnswapped(w: World, s: nat, files: Files, oldBin: Bytes): Files {
    if w.fails(s + 1) then Gone(w, s + 2, Gone(w, s, files, Previous), New)
    else if w.fails(s + 3) then files[Previous := oldBin] - {Bin}
    else files - {Previous}
  }

  /** From the restart at step s on: a server that comes up healthy is done; otherwise the
      old binary is put back and started. */
  ghost function Activated(w: World, to: string, hasUnit: bool, s: nat, files: Files, oldBin: Bytes,
                           serving: Option<Bytes>, leaving: bool): End
    requires Bin in files
  {
    var started := if w.fails(s) then serving else Some(files[Bin]);
    if !w.fails(s) && Some(to) in w.probes then
      End(Done, [Pending, Done], files, started, leaving || (hasUnit && !w.fails(s + 1)))
    else if w.fails(s + 1) then End(Failed, [Pending, Failed], files, started, leaving)
    else if w.fails(s + 2) then End(Failed, [Pending, Failed], files[Bin := oldBin] - {Previous}, started, leaving)
    else End(RolledBack, [Pending, RolledBack], files[Bin := oldBin] - {Previous}, Some(oldBin), leaving)
  }

  /** From the swap at step s on. */
  ghost function Installed(w: World, to: string, hasUnit: bool, s: nat, files: Files, oldBin: Bytes,
                           serving: Option<Bytes>, leaving: bool): End
    requires New in files
  {
    if w.fails(s + 1) || w.fails(s + 2) then End(Failed, [Failed], FilesUnswapped(w, s, files, oldBin), serving, leaving)
    else Activated(w, to, hasUnit, s + 3, Swapped(files, oldBin, files[New]), oldBin, serving, leaving)
  }

  /** How a run ends that begins at step s and fetches b. */
  ghost function Ending(t: Tools, w: World, to: string, hasUnit: bool, s: nat, files: Files, b: Bytes,
                        serving: Option<Bytes>, leaving: bool): End
    requires Bin in files
  {
    if !IsReady(t, w, to, s, b) then End(Failed, [Pending, Failed], FilesUnready(w, s, files, b), serving, leaving)
    else
      var e := Installed(w, to, hasUnit, s + 2, files[New := b], files[Bin], serving, leaving);
      e.(notes := [Pending] + e.notes)
  }

  /** What a verdict says is so: done means that the new binary is installed, verified and
      serving, and that the server answers with its version; rolled back means that the old
      one is installed and was started; failed means that the old one still is installed,
      or a swap that could not be finished or undone. */
  ghost predicate IsTrue(t: Tools, arch: string, w: World, to: string, oldBin: Bytes, state: State, files: Files, serving: Option<Bytes>) {
    match state
    case Pending => false
    case Done =>
      && Bin in files && Verified(t, arch, w, to, files[Bin])
      && Previous in files && files[Previous] == oldBin
      && serving == Some(files[Bin]) && Some(to) in w.probes
    case RolledBack => Bin in files && files[Bin] == oldBin && serving == Some(oldBin)
    case Failed =>
      || (Bin in files && files[Bin] == oldBin)
      || (Bin in files && Verified(t, arch, w, to, files[Bin]) && Previous in files && files[Previous] == oldBin)
      || (Bin !in files && Previous in files && files[Previous] == oldBin)
  }

  ghost predicate Concludes(t: Tools, arch: string, w: World, to: string, oldBin: Bytes, e: End) {
    && IsTrue(t, arch, w, to, oldBin, e.state, e.files, e.serving)
    && (Bin !in e.files ==> e.state == Failed && Previous in e.files && e.files[Previous] == oldBin)
    && e.notes != [] && e.notes[|e.notes| - 1] == e.state
    && forall i :: 0 <= i < |e.notes| - 1 ==> e.notes[i] == Pending
  }

  lemma ActivatedConcludes(t: Tools, arch: string, w: World, to: string, hasUnit: bool, s: nat, files: Files, oldBin: Bytes,
                           serving: Option<Bytes>, leaving: bool)
    requires Bin in files && Verified(t, arch, w, to, files[Bin]) && Previous in files && files[Previous] == oldBin
    ensures Concludes(t, arch, w, to, oldBin, Activated(w, to, hasUnit, s, files, oldBin, serving, leaving))
  {
  }

  lemma InstalledConcludes(t: Tools, arch: string, w: World, to: string, hasUnit: bool, s: nat, files: Files, oldBin: Bytes,
                           serving: Option<Bytes>, leaving: bool)
    requires Bin in files && files[Bin] == oldBin && New in files && Verified(t, arch, w, to, files[New])
    ensures Concludes(t, arch, w, to, oldBin, Installed(w, to, hasUnit, s, files, oldBin, serving, leaving))
  {
    if !w.fails(s + 1) && !w.fails(s + 2) {
      ActivatedConcludes(t, arch, w, to, hasUnit, s + 3, Swapped(files, oldBin, files[New]), oldBin, serving, leaving);
    }
  }

  /** However a run ends, there is one verdict and it is true. */
  lemma EndingConcludes(t: Tools, arch: string, w: World, to: string, hasUnit: bool, s: nat, files: Files, b: Bytes,
                        serving: Option<Bytes>, leaving: bool)
    requires Bin in files && Released(t, arch, w, b)
    ensures Concludes(t, arch, w, to, files[Bin], Ending(t, w, to, hasUnit, s, files, b, serving, leaving))
  {
    if IsReady(t, w, to, s, b) {
      InstalledConcludes(t, arch, w, to, hasUnit, s + 2, files[New := b], files[Bin], serving, leaving);
    }
  }

  /** When no step fails, the verdict depends on the release and its health alone, and no file
      is left over. */
  lemma SmoothEnding(t: Tools, w: World, to: string, hasUnit: bool, s: nat, files: Files, b: Bytes,
                     serving: Option<Bytes>, leaving: bool)
    requires Bin in files && forall i :: i >= s ==> !w.fails(i)
    ensures
      var e, oldBin := Ending(t, w, to, hasUnit, s, files, b, serving, leaving), files[Bin];
      if t.reports(b) != Some(to) then e.state == Failed && e.files == files - {New} && e.serving == serving
      else if Some(to) in w.probes then e.state == Done && e.files == map[Bin := b, Previous := oldBin] && e.serving == Some(b)
      else e.state == RolledBack && e.files == map[Bin := oldBin] && e.serving == Some(oldBin)
  {
    var e := Ending(t, w, to, hasUnit, s, files, b, serving, leaving);
    if t.reports(b) == Some(to) {
      assert New !in e.files;
      forall p | p in e.files ensures p in {Bin, Previous} {
        match p
        case New => assert false;
        case _ =>
      }
    }
  }

  lemma OneNoteMore(before: seq<State>, notes: seq<State>)
    ensures (before + [Pending]) + notes == before + ([Pending] + notes)
  {
  }

  class Updater {
    const tools: Tools
    const arch: string
    const configured: bool
    /** The agent runs as a unit of its own, to be restarted after an update. */
    const hasUnit: bool
    const version: string
    var busy: bool
    var last: Option<Record>
    var files: Files
    /** The binary the server unit was last started from. */
    var serving: Option<Bytes>
    /** A restart of the agent is scheduled. */
    var leaving: bool
    var steps: nat
    /** The files after every step, and the states written to the record. */
    ghost var history: seq<Files>
    ghost var written: seq<State>

    constructor (tools: Tools, arch: string, configured: bool, hasUnit: bool, version: string, files: Files)
      ensures this.tools == tools && this.arch == arch && this.version == version
      ensures this.configured == configured && this.hasUnit == hasUnit
      ensures !busy && last == None && this.files == files && history == [] && written == [] && serving == None && !leaving
    {
      this.tools, this.arch, this.version := tools, arch, version;
      this.configured, this.hasUnit := configured, hasUnit;
      busy, last, this.files, serving, leaving, steps := false, None, files, None, false, 0;
      history, written := [], [];
    }

    /** Start: refuses a bad tag, a missing configuration and a second update at a time. */
    method Start(to: string) returns (accepted: bool)
      modifies this`busy, this`last, this`written
      ensures accepted <==> ValidTag(to) && configured && !old(busy)
      ensures accepted ==> busy && last == Some(Record(Pending, version, to, "downloading")) && written == old(written) + [Pending]
      ensures !accepted ==> busy == old(busy) && last == old(last) && written == old(written)
    {
      if !ValidTag(to) || !configured || busy { return false; }
      busy := true;
      last := Some(Record(Pending, version, to, "downloading"));
      written := written + [Pending];
      return true;
    }

    method Set(state: State, detail: string)
      requires last.Some?
      modifies this`last, this`written
      ensures last == Some(old(last.value).(state := state, detail := detail)) && written == old(written) + [state]
    {
      last := Some(last.value.(state := state, detail := detail));
      written := written + [state];
    }

    // ----- file and process steps -------------------------------------------------------

    method Step(w: World) returns (ok: bool)
      modifies this`steps
      ensures steps == old(steps) + 1 && ok == !w.fails(old(steps))
    {
      ok := !w.fails(steps);
      steps := steps + 1;
    }

    /** os.WriteFile: a failing write may leave anything behind. */
    method WriteNew(w: World, data: Bytes) returns (ok: bool)
      modifies this`files, this`history, this`steps
      ensures history == old(history) + [files] && steps == old(steps) + 1 && ok == !w.fails(old(steps))
      ensures files == if ok then old(files)[New := data]
                       else if w.leftover.Some? then old(files)[New := w.leftover.value]
                       else old(files)
    {
      ok := Step(w);
      if ok { files := files[New := data]; }
      else if w.leftover.Some? { files := files[New := w.leftover.value]; }
      history := history + [files];
    }

    /** os.Remove; the caller ignores whether it worked. */
    method Delete(w: World, p: Path)
      modifies this`files, this`history, this`steps
      ensures history == old(history) + [files] && steps == old(steps) + 1
      ensures files == if w.fails(old(steps)) then old(files) else old(files) - {p}
    {
      var ok := Step(w);
      if ok { files := files - {p}; }
      history := history + [files];
    }

    /** os.Rename, which replaces its target. */
    method Rename(w: World, from: Path, to: Path) returns (ok: bool)
      requires from != to
      modifies this`files, this`history, this`steps
      ensures history == old(history) + [files] && steps == old(steps) + 1
      ensures ok == (!w.fails(old(steps)) && from in old(files))
      ensures ok ==> files == old(files)[to := old(files)[from]] - {from}
      ensures !ok ==> files == old(files)
    {
      ok := Step(w);
      ok := ok && from in files;
      if ok { files := files[to := files[from]] - {from}; }
      history := history + [files];
    }

    /** verifyBinary: runs the file and compares what it prints. */
    method VerifyNew(w: World, to: string) returns (ok: bool)
      modifies this`steps
      ensures steps == old(steps) + 1
      ensures ok == (!w.fails(old(steps)) && New in files && tools.reports(files[New]) == Some(to))
    {
      ok := Step(w);
      ok := ok && New in files && tools.reports(files[New]) == Some(to);
    }

    /** systemctl restart: succeeds only with a binary in place. */
    method Restart(w: World) returns (ok: bool)
      modifies this`steps, this`serving
      ensures steps == old(steps) + 1 && ok == (!w.fails(old(steps)) && Bin in files)
      ensures ok ==> serving == Some(files[Bin])
      ensures !ok ==> serving == old(serving)
    {
      ok := Step(w);
      ok := ok && Bin in files;
      if ok { serving := Some(files[Bin]); }
    }

    /** waitHealthy: polls until the wanted version answers or the time is up. */
    method WaitHealthy(w: World, to: string) returns (ok: bool)
      ensures ok <==> Some(to) in w.probes
    {
      var i := 0;
      while i < |w.probes|
        invariant i <= |w.probes|
        invariant forall k :: 0 <= k < i ==> w.probes[k] != Some(to)
      {
        if w.probes[i] == Some(to) { return true; }
        i := i + 1;
      }
      return false;
    }

    // ----- the run ---------------------------------------------------------------------------

    /** History has gone on from there, and all new snapshots are safe. */
    ghost predicate SafeSince(w: World, to: string, oldBin: Bytes, before: seq<Files>)
      reads this
    {
      GoesOnSafely(tools, arch, w, to, oldBin, before, history)
    }

    /** One terminal state was written, at the end. */
    ghost predicate OneVerdict(since: nat)
      reads this
    {
      && since < |written| && last.Some? && written[|written| - 1] == last.value.state != Pending
      && forall i :: since <= i < |written| - 1 ==> written[i] == Pending
    }

    /** What the verdict says about the files and the server is so. */
    ghost predicate VerdictIsTrue(w: World, to: string, oldBin: Bytes)
      reads this
    {
      last.Some? && IsTrue(tools, arch, w, to, oldBin, last.value.state, files, serving)
    }

    /** The run has ended as stated, with these states written before. */
    ghost predicate EndedAs(e: End, before: seq<State>)
      reads this
    {
      && written == before + e.notes
      && last.Some? && last.value.state == e.state
      && files == e.files && serving == e.serving && leaving == e.leaving
    }

    /** Download, write next to the installed binary, and verify. */
    method Prepare(w: World, to: string, ghost oldBin: Bytes) returns (ready: bool, ghost fetched: Option<Bytes>)
      requires last.Some? && last.value.to == to && Bin in files && files[Bin] == oldBin
      modifies this`last, this`written, this`files, this`history, this`steps
      ensures last.Some? && last.value.to == to
      ensures SafeSince(w, to, oldBin, old(history))
      ensures Bin in files && files[Bin] == oldBin
      ensures forall b :: fetched == Some(b) <==> Released(tools, arch, w, b)
      ensures ready <==> fetched.Some? && IsReady(tools, w, to, old(steps), fetched.value)
      ensures ready ==> steps == old(steps) + 2 && files == old(files)[New := fetched.value] && Verified(tools, arch, w, to, files[New])
      ensures ready ==> written == old(written) + [Pending]
      ensures !ready ==> last.value.state == Failed && written == old(written) + if fetched.None? then [Failed] else [Pending, Failed]
      ensures !ready ==> files == if fetched.None? then old(files) else FilesUnready(w, old(steps), old(files), fetched.value)
    {
      var binary := Fetch(tools, arch, w);
      fetched := binary;
      FetchMeaning(tools, arch, w);
      if binary.None? {
        Set(Failed, "download");
        return false, fetched;
      }
      Set(Pending, "installing");
      var wrote := WriteNew(w, binary.value);
      if !wrote {
        Set(Failed, "write binary");
        return false, fetched;
      }
      var good := VerifyNew(w, to);
      if !good {
        Delete(w, New);
        Set(Failed, "verify binary");
        return false, fetched;
      }
      return true, fetched;
    }

    /** First half of the swap: the installed binary becomes the previous one. */
    method KeepPrevious(w: World, to: string, ghost oldBin: Bytes) returns (kept: bool)
      requires last.Some? && last.value.to == to && Bin in files && files[Bin] == oldBin
      modifies this`last, this`written, this`files, this`history, this`steps
      ensures last.Some? && last.value.to == to
      ensures SafeSince(w, to, oldBin, old(history))
      ensures kept <==> !w.fails(old(steps) + 1)
      ensures kept ==> steps == old(steps) + 2 && written == old(written) && files == old(files)[Previous := oldBin] - {Bin}
      ensures !kept ==> written == old(written) + [Failed] && last.value.state == Failed
      ensures !kept ==> files == Gone(w, old(steps) + 2, Gone(w, old(steps), old(files), Previous), New)
    {
      Delete(w, Previous);
      kept := Rename(w, Bin, Previous);
      if !kept {
        Delete(w, New);
        Set(Failed, "keep previous binary");
      }
    }

    /** Swap the verified binary in, keeping exactly one previous one. */
    method Swap(w: World, to: string, ghost oldBin: Bytes) returns (installed: bool)
      requires last.Some? && last.value.to == to && Bin in files && files[Bin] == oldBin
      requires New in files && Verified(tools, arch, w, to, files[New])
      modifies this`last, this`written, this`files, this`history, this`steps
      ensures last.Some? && last.value.to == to
      ensures SafeSince(w, to, oldBin, old(history))
      ensures installed <==> !w.fails(old(steps) + 1) && !w.fails(old(steps) + 2)
      ensures installed ==> steps == old(steps) + 3 && written == old(written) && files == Swapped(old(files), oldBin, old(files)[New])
      ensures !installed ==> written == old(written) + [Failed] && last.value.state == Failed
      ensures !installed ==> files == FilesUnswapped(w, old(steps), old(files), oldBin)
    {
      var kept := KeepPrevious(w, to, oldBin);
      if !kept { return false; }
      var swapped := Rename(w, New, Bin);
      if !swapped {
        var _ := Rename(w, Previous, Bin);
        Set(Failed, "install binary");
        return false;
      }
      return true;
    }

    method Rollback(w: World, to: string, why: string, ghost oldBin: Bytes)
      requires last.Some? && last.value.to == to
      requires Bin in files && Verified(tools, arch, w, to, files[Bin]) && Previous in files && files[Previous] == oldBin
      modifies this`last, this`written, this`files, this`history, this`steps, this`serving
      ensures last.Some? && last.value.to == to
      ensures SafeSince(w, to, oldBin, old(history))
      ensures written == old(written) + [last.value.state]
      ensures last.value.state == if w.fails(old(steps)) || w.fails(old(steps) + 1) then Failed else RolledBack
      ensures files == if w.fails(old(steps)) then old(files) else old(files)[Bin := oldBin] - {Previous}
      ensures serving == if last.value.state == RolledBack then Some(oldBin) else old(serving)
    {
      var restored := Rename(w, Previous, Bin);
      if !restored {
        Set(Failed, why);
        return;
      }
      var restarted := Restart(w);
      if !restarted {
        Set(Failed, why);
        return;
      }
      Set(RolledBack, why);
    }

    /** Restart the server, wait for it, and roll back if it does not come up. */
    method Activate(w: World, to: string, ghost oldBin: Bytes)
      requires last.Some? && last.value.to == to
      requires Bin in files && Verified(tools, arch, w, to, files[Bin]) && Previous in files && files[Previous] == oldBin
      modifies this`last, this`written, this`files, this`history, this`steps, this`serving, this`leaving
      ensures last.Some? && last.value.to == to
      ensures SafeSince(w, to, oldBin, old(history))
      ensures EndedAs(Activated(w, to, hasUnit, old(steps), old(files), oldBin, old(serving), old(leaving)), old(written))
    {
      Set(Pending, "restarting");
      var restarted := Restart(w);
      if !restarted {
        Rollback(w, to, "restart failed", oldBin);
        OneNoteMore(old(written), [last.value.state]);
        return;
      }
      var healthy := WaitHealthy(w, to);
      if !healthy {
        Rollback(w, to, "new server did not become healthy", oldBin);
        OneNoteMore(old(written), [last.value.state]);
        return;
      }
      Set(Done, "updated");
      OneNoteMore(old(written), [Done]);
      if hasUnit {
        // only scheduled; a failure is logged
        var scheduled := Step(w);
        leaving := leaving || scheduled;
      }
    }

    /** Swap, and activate what was swapped in. */
    method Install(w: World, to: string, ghost oldBin: Bytes)
      requires last.Some? && last.value.to == to && Bin in files && files[Bin] == oldBin
      requires New in files && Verified(tools, arch, w, to, files[New])
      modifies this`last, this`written, this`files, this`history, this`steps, this`serving, this`leaving
      ensures last.Some? && last.value.to == to
      ensures SafeSince(w, to, oldBin, old(history))
      ensures EndedAs(Installed(w, to, hasUnit, old(steps), old(files), oldBin, old(serving), old(leaving)), old(written))
    {
      var installed := Swap(w, to, oldBin);
      if installed { Activate(w, to, oldBin); }
    }

    /** A run that has ended as stated has one verdict, and it is true. */
    lemma Conclude(w: World, to: string, hasUnit: bool, s: nat, files0: Files, fetched: Option<Bytes>,
                   serving0: Option<Bytes>, leaving0: bool, written0: seq<State>)
      requires Bin in files0 && forall b :: fetched == Some(b) <==> Released(tools, arch, w, b)
      requires EndedAs(RunEnding(w, to, hasUnit, s, files0, fetched, serving0, leaving0), written0)
      ensures OneVerdict(|written0|) && VerdictIsTrue(w, to, files0[Bin])
      ensures Bin !in files ==> last.value.state == Failed && Previous in files && files[Previous] == files0[Bin]
    {
      if fetched.Some? {
        EndingConcludes(tools, arch, w, to, hasUnit, s, files0, fetched.value, serving0, leaving0);
      }
    }

    ghost function RunEnding(w: World, to: string, hasUnit: bool, s: nat, files0: Files, fetched: Option<Bytes>,
                             serving0: Option<Bytes>, leaving0: bool): End
      requires Bin in files0
    {
      match fetched
      case None => End(Failed, [Failed], files0, serving0, leaving0)
      case Some(b) => Ending(tools, w, to, hasUnit, s, files0, b, serving0, leaving0)
    }

    /** The whole run. Whatever fails: after every single step the old binary is at hand
        and nothing unverified is installed; how it ends is decided by the release, by which
        steps fail and by the server's health, in the way that Ending says; exactly one
        verdict is written, and it is true; the updater is free again. */
    method Run(w: World, to: string)
      requires busy && last.Some? && last.value.to == to && Bin in files
      modifies this`busy, this`last, this`written, this`files, this`history, this`steps, this`serving, this`leaving
      ensures !busy && last.Some? && last.value.to == to
      ensures SafeSince(w, to, old(files[Bin]), old(history))
      ensures (forall b :: !Released(tools, arch, w, b)) ==>
                EndedAs(End(Failed, [Failed], old(files), old(serving), old(leaving)), old(written))
      ensures forall b :: Released(tools, arch, w, b) ==>
                EndedAs(Ending(tools, w, to, hasUnit, old(steps), old(files), b, old(serving), old(leaving)), old(written))
      ensures OneVerdict(|old(written)|) && VerdictIsTrue(w, to, old(files[Bin]))
      ensures Bin !in files ==> last.value.state == Failed && Previous in files && files[Previous] == old(files[Bin])
    {
      ghost var s, files0, serving0, leaving0, written0 := steps, files, serving, leaving, written;
      ghost var fetched := Execute(w, to, files[Bin]);
      busy := false;
      Conclude(w, to, hasUnit, s, files0, fetched, serving0, leaving0, written0);
    }

    /** Everything that the run does before it frees the updater. */
    method Execute(w: World, to: string, ghost oldBin: Bytes) returns (ghost fetched: Option<Bytes>)
      requires last.Some? && last.value.to == to && Bin in files && files[Bin] == oldBin
      modifies this`last, this`written, this`files, this`history, this`steps, this`serving, this`leaving
      ensures last.Some? && last.value.to == to
      ensures SafeSince(w, to, oldBin, old(history))
      ensures forall b :: fetched == Some(b) <==> Released(tools, arch, w, b)
      ensures EndedAs(RunEnding(w, to, hasUnit, old(steps), old(files), fetched, old(serving), old(leaving)), old(written))
    {
      var ready;
      ready, fetched := Prepare(w, to, oldBin);
      if ready {
        ghost var e, middle := Installed(w, to, hasUnit, steps, files, oldBin, serving, leaving), history;
        Install(w, to, oldBin);
        GoesOn(tools, arch, w, to, oldBin, old(history), middle, history);
        OneNoteMore(old(written), e.notes);
      }
    }
  }
}
