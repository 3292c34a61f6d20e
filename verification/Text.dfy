/** Names and hosts as the validation sees them: internal/store/store.go:386-421.
    Characters stand for bytes; of the white space only the ASCII part is modelled. */
module Text {

  predicate IsSpace(c: char) {
    c == ' ' || c == '\t' || c == '\n' || c == '\r' || c == '\U{000B}' || c == '\U{000C}'
  }

  function TrimLeft(s: string): string {
    if s != "" && IsSpace(s[0]) then TrimLeft(s[1..]) else s
  }

  function TrimRight(s: string): string {
    if s != "" && IsSpace(s[|s| - 1]) then TrimRight(s[..|s| - 1]) else s
  }

  function Trim(s: string): string { TrimRight(TrimLeft(s)) }

  const MAX_NAME: nat := 64

  predicate ValidName(name: string) {
    Trim(name) != "" && |Trim(name)| <= MAX_NAME
  }

  predicate HostChar(c: char) {
    c != ' ' && c != '/' && c != '\\' && c != '\t' && c != '\n'
  }

  predicate ValidHost(host: string) {
    Trim(host) != "" && forall i :: 0 <= i < |host| ==> HostChar(host[i])
  }

  // ----- the same in plain words ------------------------------------------------------

  const SPACES := " \t\n\r\U{000B}\U{000C}"

  predicate Blank(s: string) {
    forall i :: 0 <= i < |s| ==> s[i] in SPACES
  }

  /** t is s without the white space at its two ends. */
  ghost predicate Trimmed(s: string, t: string) {
    && (exists left, right :: Blank(left) && Blank(right) && s == left + t + right)
    && (t != "" ==> t[0] !in SPACES && t[|t| - 1] !in SPACES)
  }

  /** At most 64 characters between its ends of white space, and at least one. */
  ghost predicate GoodName(name: string) {
    exists t :: Trimmed(name, t) && 1 <= |t| <= 64
  }

  /** Some character is no white space, and none would end a host in an address. */
  predicate GoodHost(host: string) {
    !Blank(host) && forall i :: 0 <= i < |host| ==> host[i] !in " /\\\t\n"
  }

  lemma SpaceIsListed(c: char)
    ensures IsSpace(c) <==> c in SPACES
  {
  }

  lemma {:induction false} TrimLeftDrops(s: string) returns (left: string)
    ensures Blank(left) && s == left + TrimLeft(s)
    ensures TrimLeft(s) != "" ==> TrimLeft(s)[0] !in SPACES
  {
    if s != "" && IsSpace(s[0]) {
      var rest := TrimLeftDrops(s[1..]);
      SpaceIsListed(s[0]);
      left := [s[0]] + rest;
    } else {
      if s != "" { SpaceIsListed(s[0]); }
      left := "";
    }
  }

  lemma {:induction false} TrimRightDrops(s: string) returns (right: string)
    ensures Blank(right) && s == TrimRight(s) + right
    ensures TrimRight(s) != "" ==> TrimRight(s)[|TrimRight(s)| - 1] !in SPACES && TrimRight(s)[0] == s[0]
  {
    if s != "" && IsSpace(s[|s| - 1]) {
      var rest := TrimRightDrops(s[..|s| - 1]);
      SpaceIsListed(s[|s| - 1]);
      right := rest + [s[|s| - 1]];
    } else {
      if s != "" { SpaceIsListed(s[|s| - 1]); }
      right := "";
    }
  }

  lemma {:induction false} TrimLeftOf(left: string, t: string)
    requires Blank(left) && (t != "" ==> t[0] !in SPACES)
    ensures TrimLeft(left + t) == t
  {
    if left == "" {
      assert left + t == t;
      if t != "" { SpaceIsListed(t[0]); }
    } else {
      SpaceIsListed(left[0]);
      assert (left + t)[1..] == left[1..] + t;
      TrimLeftOf(left[1..], t);
    }
  }

  lemma {:induction false} TrimRightOf(t: string, right: string)
    requires Blank(right) && (t != "" ==> t[|t| - 1] !in SPACES)
    ensures TrimRight(t + right) == t
  {
    if right == "" {
      assert t + right == t;
      if t != "" { SpaceIsListed(t[|t| - 1]); }
    } else {
      var s := t + right;
      SpaceIsListed(right[|right| - 1]);
      assert s[..|s| - 1] == t + right[..|right| - 1];
      TrimRightOf(t, right[..|right| - 1]);
    }
  }

  lemma TrimIsTrimmed(s: string)
    ensures Trimmed(s, Trim(s))
  {
    var left := TrimLeftDrops(s);
    var right := TrimRightDrops(TrimLeft(s));
    assert s == left + Trim(s) + right;
  }

  lemma TrimOf(left: string, t: string, right: string)
    requires Blank(left) && Blank(right) && (t != "" ==> t[0] !in SPACES && t[|t| - 1] !in SPACES)
    ensures Trim(left + t + right) == t
  {
    if t == "" {
      assert left + t + right == (left + right) + "";
      TrimLeftOf(left + right, "");
    } else {
      assert left + t + right == left + (t + right);
      TrimLeftOf(left, t + right);
      TrimRightOf(t, right);
    }
  }

  /** Trimming takes off the white space at both ends, and nothing else. */
  lemma TrimMeaning(s: string, t: string)
    ensures Trimmed(s, t) <==> t == Trim(s)
  {
    TrimIsTrimmed(s);
    if Trimmed(s, t) {
      var left, right :| Blank(left) && Blank(right) && s == left + t + right;
      TrimOf(left, t, right);
    }
  }

  lemma NameMeaning(name: string)
    ensures ValidName(name) <==> GoodName(name)
  {
    TrimMeaning(name, Trim(name));
    if t :| Trimmed(name, t) && 1 <= |t| <= 64 {
      TrimMeaning(name, t);
    }
  }

  lemma HostMeaning(host: string)
    ensures ValidHost(host) <==> GoodHost(host)
  {
    if Blank(host) {
      TrimOf(host, "", "");
      assert host == host + "" + "";
    }
    TrimMeaning(host, "");
    if Trim(host) == "" {
      var l, r :| Blank(l) && Blank(r) && host == l + "" + r;
      assert Blank(host);
    }
  }
}
