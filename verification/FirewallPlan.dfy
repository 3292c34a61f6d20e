/** The rules the server asks for: internal/server/firewall.go:104-128 */
module FirewallPlan {
  import opened Protocols
  import opened Forwards
  import opened Store
  import opened Rules

  // ----- desired -----------------------------------------------------------------------

  function RulesOf(f: Forward): seq<Rule> {
    if !f.enabled then []
    else
      (if f.HasTCP() then [Rule(OfForward(f.id), f.publicPort, TCP)] else [])
      + (if f.HasUDP() then [Rule(OfForward(f.id), f.publicPort, UDP)] else [])
  }

  function ForwardRules(fs: seq<Forward>): seq<Rule> {
    if fs == [] then [] else ForwardRules(fs[..|fs| - 1]) + RulesOf(fs[|fs| - 1])
  }

  function OwnRules(cfg: Config): seq<Rule> {
    [Rule(Tunnel, cfg.tunnelPort, TCP), Rule(Admin, cfg.adminPort, TCP)]
  }

  function Desired(cfg: Config, fs: seq<Forward>): seq<Rule> {
    OwnRules(cfg) + ForwardRules(fs)
  }

  /** The loop over the stored forwards. */
  method ComputeDesired(cfg: Config, fs: seq<Forward>) returns (rules: seq<Rule>)
    ensures rules == Desired(cfg, fs)
  {
    rules := [Rule(Tunnel, cfg.tunnelPort, TCP), Rule(Admin, cfg.adminPort, TCP)];
    var i := 0;
    while i < |fs|
      invariant i <= |fs| && rules == Desired(cfg, fs[..i])
    {
      ghost var before := rules;
      if fs[i].enabled {
        if fs[i].HasTCP() {
          rules := rules + [Rule(OfForward(fs[i].id), fs[i].publicPort, TCP)];
        }
        if fs[i].HasUDP() {
          rules := rules + [Rule(OfForward(fs[i].id), fs[i].publicPort, UDP)];
        }
      }
      assert rules == before + RulesOf(fs[i]);
      assert fs[..i + 1][..i] == fs[..i];
      i := i + 1;
    }
    assert fs[..i] == fs;
  }

  predicate AllValidRules(rules: seq<Rule>) {
    forall i :: 0 <= i < |rules| ==> ValidRule(rules[i])
  }

  // ----- what the list is -------------------------------------------------------------------

  lemma {:induction false} ForwardRuleFrom(fs: seq<Forward>, r: Rule)
    ensures r in ForwardRules(fs) <==>
            exists f :: f in fs && f.enabled && r.id == OfForward(f.id) && Needs(f, Socket(r.port, r.transport))
  {
    if fs != [] {
      var init, last := fs[..|fs| - 1], fs[|fs| - 1];
      ForwardRuleFrom(init, r);
      assert fs == init + [last];
      assert r in RulesOf(last) <==> last.enabled && r.id == OfForward(last.id) && Needs(last, Socket(r.port, r.transport));
    }
  }

  lemma {:induction false} ForwardRulesAreDistinct(fs: seq<Forward>)
    requires DistinctIds(fs) && NoSharedPorts(fs)
    ensures DistinctRules(ForwardRules(fs))
  {
    if fs != [] {
      var init, last := fs[..|fs| - 1], fs[|fs| - 1];
      assert fs == init + [last];
      ForwardRulesAreDistinct(init);
      var a, b := ForwardRules(init), RulesOf(last);
      forall i, j | 0 <= i < |a| && 0 <= j < |b| ensures a[i].Key() != b[j].Key() {
        ForwardRuleFrom(init, a[i]);
        assert a[i] in a && b[j] in b;
        var f :| f in init && f.enabled && Needs(f, Socket(a[i].port, a[i].transport));
        assert Needs(last, Socket(b[j].port, b[j].transport));
        var k :| 0 <= k < |init| && init[k] == f;
        assert fs[k].id != fs[|fs| - 1].id;
        if a[i].Key() == b[j].Key() {
          ClashIsSharedSocket(f, last);
        }
      }
      ConcatDistinct(a, b);
    }
  }

  lemma ConcatDistinct(a: seq<Rule>, b: seq<Rule>)
    requires DistinctRules(a) && DistinctRules(b)
    requires forall i, j :: 0 <= i < |a| && 0 <= j < |b| ==> a[i].Key() != b[j].Key()
    ensures DistinctRules(a + b)
  {
    var c := a + b;
    forall i, j | 0 <= i < j < |c| ensures c[i].Key() != c[j].Key() {
      if i < |a| && j >= |a| {
        assert a[i].Key() != b[j - |a|].Key();
      } else if i >= |a| {
        assert b[i - |a|].Key() != b[j - |a|].Key();
      }
    }
  }

  /** What the server asks for: its own two ports, and for every enabled forward its
      public port on each transport it uses; nothing else. */
  lemma DesiredIsExact(cfg: Config, fs: seq<Forward>, r: Rule)
    ensures r in Desired(cfg, fs) <==>
            || r == Rule(Tunnel, cfg.tunnelPort, TCP)
            || r == Rule(Admin, cfg.adminPort, TCP)
            || exists f :: f in fs && f.enabled && r.id == OfForward(f.id) && Needs(f, Socket(r.port, r.transport))
  {
    ForwardRuleFrom(fs, r);
  }

  /** The server's own two rules are in order exactly when its ports are. */
  lemma OwnRulesAreFine(cfg: Config)
    ensures AllValidRules(OwnRules(cfg)) && DistinctRules(OwnRules(cfg)) <==>
            InRange(cfg.tunnelPort) && InRange(cfg.adminPort) && cfg.tunnelPort != cfg.adminPort
  {
    var own := OwnRules(cfg);
    assert ValidRule(own[0]) <==> InRange(cfg.tunnelPort);
    assert ValidRule(own[1]) <==> InRange(cfg.adminPort);
    assert own[0].Key() == own[1].Key() <==> cfg.tunnelPort == cfg.adminPort;
  }

  /** The forwards' rules are in order in every sound state, and keep off the own ports. */
  lemma ForwardRulesAreFine(cfg: Config, st: State)
    requires Inv(cfg, st)
    ensures AllValidRules(ForwardRules(st.forwards)) && DistinctRules(ForwardRules(st.forwards))
    ensures forall r :: r in ForwardRules(st.forwards) ==> !Reserved(cfg, r.port)
  {
    ForwardRulesAreDistinct(st.forwards);
    forall r | r in ForwardRules(st.forwards) ensures ValidRule(r) && !Reserved(cfg, r.port) {
      ForwardRuleFrom(st.forwards, r);
    }
  }

  /** In every sound state the rules are valid and distinct exactly when the server's own two
      ports are valid and differ. */
  lemma DesiredIsFine(cfg: Config, st: State)
    requires Inv(cfg, st)
    ensures AllValidRules(Desired(cfg, st.forwards)) && DistinctRules(Desired(cfg, st.forwards)) <==>
            InRange(cfg.tunnelPort) && InRange(cfg.adminPort) && cfg.tunnelPort != cfg.adminPort
  {
    var own, rest, all := OwnRules(cfg), ForwardRules(st.forwards), Desired(cfg, st.forwards);
    OwnRulesAreFine(cfg);
    ForwardRulesAreFine(cfg, st);
    forall i, j | 0 <= i < |own| && 0 <= j < |rest| ensures own[i].Key() != rest[j].Key() {
      assert rest[j] in rest;
    }
    assert all == own + rest;
    ConcatFine(own, rest);
  }

  /** Appending fine rules with other keys. */
  lemma ConcatFine(a: seq<Rule>, b: seq<Rule>)
    requires AllValidRules(b) && DistinctRules(b)
    requires forall i, j :: 0 <= i < |a| && 0 <= j < |b| ==> a[i].Key() != b[j].Key()
    ensures AllValidRules(a + b) && DistinctRules(a + b) <==> AllValidRules(a) && DistinctRules(a)
  {
    if AllValidRules(a) && DistinctRules(a) {
      ConcatDistinct(a, b);
      ConcatValid(a, b);
    }
    PrefixOfFine(a, b);
  }

  lemma ConcatValid(a: seq<Rule>, b: seq<Rule>)
    requires AllValidRules(a) && AllValidRules(b)
    ensures AllValidRules(a + b)
  {
  }

  lemma PrefixOfFine(a: seq<Rule>, b: seq<Rule>)
    ensures AllValidRules(a + b) && DistinctRules(a + b) ==> AllValidRules(a) && DistinctRules(a)
  {
    assert forall i :: 0 <= i < |a| ==> (a + b)[i] == a[i];
  }

  /** The tags written for a list tell its owners apart, as long as forwards have six-byte
      identifiers: comparing tags is comparing owners. */
  lemma DesiredTagsIdentify(cfg: Config, fs: seq<Forward>, a: Rule, b: Rule)
    requires forall f :: f in fs ==> f.id < Power16(12)
    requires a in Desired(cfg, fs) && b in Desired(cfg, fs)
    ensures RuleText(a.id) == RuleText(b.id) <==> a.id == b.id
  {
    DesiredIsExact(cfg, fs, a);
    DesiredIsExact(cfg, fs, b);
    if RuleText(a.id) == RuleText(b.id) {
      TagsAreDistinct(a.id, b.id);
    }
  }

  /** The list never has more than two rules per stored forward besides the own ports. */
  lemma {:induction false} DesiredSize(cfg: Config, fs: seq<Forward>)
    ensures |Desired(cfg, fs)| <= 2 + 2 * |fs|
  {
    if fs != [] {
      DesiredSize(cfg, fs[..|fs| - 1]);
    }
  }
}
