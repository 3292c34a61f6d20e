/** The agent's screening of a request to synchronise the firewall: internal/agent/agent.go:204-223,
    internal/firewall/firewall.go:47-82. */
module Screening {
  import opened Basics
  import opened Protocols
  import opened Decimal
  import opened Seqs
  import opened Store
  import opened Rules
  import opened FirewallPlan
  import Grammar

  /** A rule as it arrives; it may say anything. */
  datatype RawRule = RawRule(id: string, port: int, proto: string)

  datatype Refusal = BadMode | TooManyRules | InvalidRule | DuplicateRule

  const MAX_RULES: nat := 2000

  const MODES: seq<string> := ["auto", "off", "ufw", "firewalld", "nftables", "iptables"]

  /** Rule.Key */
  function RawKey(r: RawRule): string { Itoa(r.port) + ("/" + r.proto) }

  /** Rule.Validate */
  predicate ValidRaw(r: RawRule) {
    ValidRuleText(r.id) && InRange(r.port) && (r.proto == "tcp" || r.proto == "udp")
  }

  // ----- what is accepted ------------------------------------------------------------------

  ghost predicate Fine(r: RawRule) {
    && 1 <= |r.id| <= 32 && (forall i :: 0 <= i < |r.id| ==> r.id[i] in "abcdefghijklmnopqrstuvwxyz0123456789_-")
    && 1 <= r.port <= 65535
    && (r.proto == "tcp" || r.proto == "udp")
  }

  /** An earlier rule is for the same port and protocol. */
  ghost predicate Repeats(rules: seq<RawRule>, i: nat)
    requires i < |rules|
  {
    exists k :: 0 <= k < i && rules[k].port == rules[i].port && rules[k].proto == rules[i].proto
  }

  ghost predicate Passes(rules: seq<RawRule>, n: nat)
    requires n <= |rules|
  {
    forall i :: 0 <= i < n ==> Fine(rules[i]) && !Repeats(rules, i)
  }

  /** The first rule that is not in order, and why it is not. */
  ghost predicate FaultAt(rules: seq<RawRule>, i: nat, why: Refusal) {
    && i < |rules| && Passes(rules, i)
    && if !Fine(rules[i]) then why == InvalidRule else Repeats(rules, i) && why == DuplicateRule
  }

  lemma IdCharMeaning(c: char)
    ensures IdChar(c) <==> c in "abcdefghijklmnopqrstuvwxyz0123456789_-"
  {
  }

  lemma FineMeaning(r: RawRule)
    ensures ValidRaw(r) <==> Fine(r)
  {
    forall i | 0 <= i < |r.id| ensures IdChar(r.id[i]) <==> r.id[i] in "abcdefghijklmnopqrstuvwxyz0123456789_-" {
      IdCharMeaning(r.id[i]);
    }
  }

  /** The texts of two keys differ when port or protocol do. */
  lemma RawKeyIdentifies(a: RawRule, b: RawRule)
    requires a.port >= 0 && b.port >= 0
    ensures RawKey(a) == RawKey(b) <==> a.port == b.port && a.proto == b.proto
  {
    if RawKey(a) == RawKey(b) {
      AtoiItoa(a.port);
      AtoiItoa(b.port);
      Grammar.DigitRunOf(Itoa(a.port), "/" + a.proto);
      Grammar.DigitRunOf(Itoa(b.port), "/" + b.proto);
      assert ("/" + a.proto)[1..] == a.proto && ("/" + b.proto)[1..] == b.proto;
    }
  }

  function KeysOf(rules: seq<RawRule>): set<string> {
    set r | r in rules :: RawKey(r)
  }

  lemma SeenMeaning(rules: seq<RawRule>, i: nat)
    requires i < |rules| && Passes(rules, i) && Fine(rules[i])
    ensures RawKey(rules[i]) in KeysOf(rules[..i]) <==> Repeats(rules, i)
  {
    forall k | 0 <= k < i
      ensures RawKey(rules[k]) == RawKey(rules[i]) <==> rules[k].port == rules[i].port && rules[k].proto == rules[i].proto
    {
      assert Fine(rules[k]);
      RawKeyIdentifies(rules[k], rules[i]);
    }
    if RawKey(rules[i]) in KeysOf(rules[..i]) {
      var r :| r in rules[..i] && RawKey(r) == RawKey(rules[i]);
      var k :| 0 <= k < i && rules[k] == r;
    }
    if k :| 0 <= k < i && rules[k].port == rules[i].port && rules[k].proto == rules[i].proto {
      assert rules[k] in rules[..i];
    }
  }

  /** The mode first, then the number of rules, then rule by rule. */
  method Screen(mode: string, rules: seq<RawRule>) returns (refusal: Option<Refusal>)
    ensures refusal == Some(BadMode) <==> mode !in ["", "auto", "ufw", "firewalld", "nftables", "iptables"]
    ensures refusal == Some(TooManyRules) <==> mode in ["", "auto", "ufw", "firewalld", "nftables", "iptables"] && |rules| > 2000
    ensures refusal == None <==>
              mode in ["", "auto", "ufw", "firewalld", "nftables", "iptables"] && |rules| <= 2000 && Passes(rules, |rules|)
    ensures refusal in [Some(InvalidRule), Some(DuplicateRule)] ==> exists i :: FaultAt(rules, i, refusal.value)
  {
    var m := if mode == "" then "auto" else mode;
    if m !in MODES || m == "off" { return Some(BadMode); }
    if |rules| > MAX_RULES { return Some(TooManyRules); }
    var seen: set<string> := {};
    var i := 0;
    while i < |rules|
      invariant i <= |rules| && Passes(rules, i)
      invariant seen == KeysOf(rules[..i])
    {
      var r := rules[i];
      FineMeaning(r);
      if !ValidRaw(r) {
        assert FaultAt(rules, i, InvalidRule);
        return Some(InvalidRule);
      }
      SeenMeaning(rules, i);
      if RawKey(r) in seen {
        assert FaultAt(rules, i, DuplicateRule);
        return Some(DuplicateRule);
      }
      assert rules[..i + 1] == rules[..i] + [r];
      seen := seen + {RawKey(r)};
      i := i + 1;
    }
    return None;
  }

  // ----- what the server sends -----------------------------------------------------------------

  function Sent(r: Rule): RawRule {
    RawRule(RuleText(r.id), r.port, match r.transport case TCP => "tcp" case UDP => "udp")
  }

  lemma SentIsFine(r: Rule)
    ensures Fine(Sent(r)) <==> ValidRule(r)
  {
    FineMeaning(Sent(r));
  }

  /** In every sound state the agent accepts the server's list, up to its size limit, exactly
      when the server's own two ports are valid and differ. */
  lemma AgentAcceptsDesired(cfg: Config, st: State)
    requires Inv(cfg, st)
    ensures
      var sent := Mapped(Desired(cfg, st.forwards), Sent);
      Passes(sent, |sent|) <==> InRange(cfg.tunnelPort) && InRange(cfg.adminPort) && cfg.tunnelPort != cfg.adminPort
  {
    var rules := Desired(cfg, st.forwards);
    DesiredIsFine(cfg, st);
    SentPasses(rules);
  }

  lemma SentPasses(rules: seq<Rule>)
    ensures Passes(Mapped(rules, Sent), |rules|) <==> AllValidRules(rules) && DistinctRules(rules)
  {
    var sent := Mapped(rules, Sent);
    forall i | 0 <= i < |rules| ensures Fine(sent[i]) <==> ValidRule(rules[i]) {
      SentIsFine(rules[i]);
    }
    forall i, k | 0 <= k < i < |rules|
      ensures sent[k].port == sent[i].port && sent[k].proto == sent[i].proto <==> rules[k].Key() == rules[i].Key()
    {
    }
    if Passes(sent, |rules|) {
      forall k, i | 0 <= k < i < |rules| ensures rules[k].Key() != rules[i].Key() {
        assert !Repeats(sent, i);
      }
    }
  }
}
