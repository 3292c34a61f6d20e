/** From the requests to the firewall: what is open after the server's rules have gone to the
    agent. internal/server/firewall.go:104-128, internal/agent/agent.go:204-233 */
module EndToEnd {
  import opened Basics
  import opened Protocols
  import opened Forwards
  import opened Store
  import opened Api
  import opened ApiInvariant
  import opened Rules
  import opened FirewallPlan
  import opened Screening
  import opened Seqs
  import opened Reconcile
  import UfwBackend
  import FirewalldBackend
  import IptablesChain
  import IptablesBackend
  import NftablesBackend

  /** The ports that are to be reachable: the server's own two, and the port of every enabled
      forward on each transport it uses. */
  ghost predicate Due(cfg: Config, fs: seq<Forward>, key: Key) {
    || key == PortKey(cfg.tunnelPort, TCP)
    || key == PortKey(cfg.adminPort, TCP)
    || exists f :: f in fs && f.enabled && Needs(f, Socket(key.port, key.transport))
  }

  /** In this place exactly the due ports are open under our tags, as far as the operator does
      not allow them anyway; and no due port is closed. */
  ghost predicate Exposes(p: Place, cfg: Config, fs: seq<Forward>) {
    && (forall key :: key !in p.operator ==> ((exists id :: (key, id) in p.ours) <==> Due(cfg, fs, key)))
    && (forall key, id :: (key, id) in p.ours ==> Due(cfg, fs, key))
  }

  ghost predicate GoodConfig(cfg: Config) {
    InRange(cfg.tunnelPort) && InRange(cfg.adminPort) && cfg.tunnelPort != cfg.adminPort
  }

  lemma DueIsWanted(cfg: Config, fs: seq<Forward>, key: Key)
    ensures IsWanted(Desired(cfg, fs), key) <==> Due(cfg, fs, key)
  {
    var want := Desired(cfg, fs);
    if w :| w in want && w.Key() == key {
      DesiredIsExact(cfg, fs, w);
    }
    if key == PortKey(cfg.tunnelPort, TCP) {
      DesiredIsExact(cfg, fs, Rule(Tunnel, key.port, TCP));
      assert Rule(Tunnel, key.port, TCP).Key() == key;
    } else if key == PortKey(cfg.adminPort, TCP) {
      DesiredIsExact(cfg, fs, Rule(Admin, key.port, TCP));
      assert Rule(Admin, key.port, TCP).Key() == key;
    } else if f :| f in fs && f.enabled && Needs(f, Socket(key.port, key.transport)) {
      var r := Rule(OfForward(f.id), key.port, key.transport);
      DesiredIsExact(cfg, fs, r);
      assert r.Key() == key;
    }
  }

  /** Meeting the common specification for the server's list is exposing the due ports. */
  lemma ConvergedExposes(p: Place, cfg: Config, fs: seq<Forward>)
    requires Converged(p, Desired(cfg, fs))
    ensures Exposes(p, cfg, fs)
  {
    forall key
      ensures (exists id :: (key, id) in p.ours) ==> Due(cfg, fs, key)
      ensures key !in p.operator && Due(cfg, fs, key) ==> exists id :: (key, id) in p.ours
    {
      DueIsWanted(cfg, fs, key);
      if key !in p.operator && Due(cfg, fs, key) {
        var w :| w in Desired(cfg, fs) && w.Key() == key;
        assert Covers(p, w);
      }
    }
  }

  /** In every reachable state the agent takes the server's list, up to its size limit. */
  lemma ReachableListIsAccepted(cfg: Config, states: seq<State>, reqs: seq<Request>, i: nat)
    requires IsRun(cfg, states, reqs) && i < |states| && GoodConfig(cfg)
    requires |Desired(cfg, states[i].forwards)| <= MAX_RULES
    ensures Passes(Mapped(Desired(cfg, states[i].forwards), Sent), |Desired(cfg, states[i].forwards)|)
    ensures DistinctRules(Desired(cfg, states[i].forwards))
  {
    EveryReachableStateIsSound(cfg, states, reqs, i);
    AgentAcceptsDesired(cfg, states[i]);
    SentPasses(Desired(cfg, states[i].forwards));
  }

  /** What the server sends, screened as the agent does. */
  method Send(cfg: Config, ghost states: seq<State>, ghost reqs: seq<Request>, ghost i: nat, fs: seq<Forward>)
    returns (want: seq<Rule>)
    requires IsRun(cfg, states, reqs) && i < |states| && GoodConfig(cfg)
    requires fs == states[i].forwards && |Desired(cfg, fs)| <= MAX_RULES
    ensures want == Desired(cfg, fs) && DistinctRules(want)
  {
    ReachableListIsAccepted(cfg, states, reqs, i);
    want := ComputeDesired(cfg, fs);
    var refusal := Screen("auto", Mapped(want, Sent));
    assert refusal == None;
  }

  /** A reachable state, sent to an active ufw: when no command fails, exactly the due ports
      are open beside the operator's. */
  method PublishWithUfw(cfg: Config, ghost states: seq<State>, ghost reqs: seq<Request>, ghost i: nat, fs: seq<Forward>, u: UfwBackend.Ufw)
    requires IsRun(cfg, states, reqs) && i < |states| && GoodConfig(cfg)
    requires fs == states[i].forwards && |Desired(cfg, fs)| <= MAX_RULES && u.active
    modifies u`slots, u.shell
    ensures u.shell.AllOk(old(u.shell.ran)) ==> Exposes(u.Here(), cfg, fs)
  {
    var want := Send(cfg, states, reqs, i, fs);
    var report, calls := u.Sync(want);
    if u.Settled(want) {
      u.SettledIsConverged(want);
      ConvergedExposes(u.Here(), cfg, fs);
    }
  }

  /** The same for nftables, in every input chain. */
  method PublishWithNftables(cfg: Config, ghost states: seq<State>, ghost reqs: seq<Request>, ghost i: nat, fs: seq<Forward>, n: NftablesBackend.Nftables)
    requires IsRun(cfg, states, reqs) && i < |states| && GoodConfig(cfg)
    requires fs == states[i].forwards && |Desired(cfg, fs)| <= MAX_RULES && n.Valid() && n.chains != []
    modifies n`rules, n`nextHandle, n.shell
    ensures n.shell.AllOk(old(n.shell.ran)) ==> forall c :: c in n.chains ==> Exposes(NftablesBackend.PlaceOf(n.rules, c), cfg, fs)
  {
    var want := Send(cfg, states, reqs, i, fs);
    var report, calls := n.Sync(want);
    if NftablesBackend.Settled(n.rules, n.chains, want) {
      forall c | c in n.chains ensures Exposes(NftablesBackend.PlaceOf(n.rules, c), cfg, fs) {
        NftablesBackend.SettledConverges(n.rules, n.chains, want, c);
        ConvergedExposes(NftablesBackend.PlaceOf(n.rules, c), cfg, fs);
      }
    }
  }

  /** The same for iptables, in every chain with at most one tag on each port not due. */
  method PublishWithIptables(cfg: Config, ghost states: seq<State>, ghost reqs: seq<Request>, ghost i: nat, fs: seq<Forward>, ipt: IptablesBackend.Iptables)
    requires IsRun(cfg, states, reqs) && i < |states| && GoodConfig(cfg)
    requires fs == states[i].forwards && |Desired(cfg, fs)| <= MAX_RULES && ipt.Valid()
    modifies ipt.shell, ipt`listings, set k | 0 <= k < |ipt.tools| :: ipt.tools[k]`chain
    ensures ipt.shell.AllOk(old(ipt.shell.ran)) ==> IptablesExposes(cfg, fs, old(ipt.Chains()), ipt.Chains())
  {
    var want := Send(cfg, states, reqs, i, fs);
    SyncIptables(cfg, fs, want, ipt);
  }

  method SyncIptables(cfg: Config, fs: seq<Forward>, want: seq<Rule>, ipt: IptablesBackend.Iptables)
    requires want == Desired(cfg, fs) && DistinctRules(want) && ipt.Valid()
    modifies ipt.shell, ipt`listings, set k | 0 <= k < |ipt.tools| :: ipt.tools[k]`chain
    ensures ipt.shell.AllOk(old(ipt.shell.ran)) ==> IptablesExposes(cfg, fs, old(ipt.Chains()), ipt.Chains())
  {
    ghost var was, ran0 := ipt.Chains(), ipt.shell.ran;
    var report, tour := ipt.Sync(want);
    if ipt.shell.AllOk(ran0) {
      ChainsExpose(cfg, fs, was, ipt.Chains());
    }
  }

  ghost predicate IptablesExposes(cfg: Config, fs: seq<Forward>, was: seq<seq<IptablesChain.ChainRule>>, now: seq<seq<IptablesChain.ChainRule>>) {
    && |was| == |now|
    && forall k :: 0 <= k < |was| && (forall key :: !Due(cfg, fs, key) ==> |IptablesChain.TagsOf(was[k], key)| <= 1) ==>
         Exposes(IptablesChain.PlaceOf(now[k]), cfg, fs)
  }

  lemma ChainsExpose(cfg: Config, fs: seq<Forward>, was: seq<seq<IptablesChain.ChainRule>>, now: seq<seq<IptablesChain.ChainRule>>)
    requires IptablesBackend.RepeatsTold(Desired(cfg, fs), was, now, 1)
    ensures IptablesExposes(cfg, fs, was, now)
  {
    var want := Desired(cfg, fs);
    forall k | 0 <= k < |was| && forall key :: !Due(cfg, fs, key) ==> |IptablesChain.TagsOf(was[k], key)| <= 1
      ensures Exposes(IptablesChain.PlaceOf(now[k]), cfg, fs)
    {
      forall key | !IsWanted(want, key) ensures |IptablesChain.TagsOf(was[k], key)| <= 1 {
        DueIsWanted(cfg, fs, key);
      }
      assert IptablesChain.FewTags(was[k], want, 1);
      ConvergedExposes(IptablesChain.PlaceOf(now[k]), cfg, fs);
    }
  }

  /** The same for firewalld as the ledger has it; and in reality, when no port of ours that is
      not due had been lost. */
  method PublishWithFirewalld(cfg: Config, ghost states: seq<State>, ghost reqs: seq<Request>, ghost i: nat, fs: seq<Forward>, f: FirewalldBackend.Firewalld)
    requires IsRun(cfg, states, reqs) && i < |states| && GoodConfig(cfg)
    requires fs == states[i].forwards && |Desired(cfg, fs)| <= MAX_RULES && f.Valid()
    modifies f`open, f`ledger, f`mine, f.shell, f.disk
    ensures f.shell.AllOk(old(f.shell.ran)) && f.disk.AllOk(old(f.disk.ran)) ==>
              && Exposes(f.Here(), cfg, fs)
              && (forall key :: Due(cfg, fs, key) ==> key in f.open)
              && ((forall key :: key in f.mine ==> Due(cfg, fs, key)) <==> forall key :: key in old(f.Lost()) ==> Due(cfg, fs, key))
  {
    var want := Send(cfg, states, reqs, i, fs);
    var report, saved, calls := f.Sync(want);
    forall key ensures IsWanted(want, key) <==> Due(cfg, fs, key) {
      DueIsWanted(cfg, fs, key);
    }
    if f.Settled(want) {
      f.SettledConverges(want);
      ConvergedExposes(f.Here(), cfg, fs);
    }
  }
}
