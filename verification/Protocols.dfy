/** Port numbers, and the protocol of a forward (internal/store/store.go:32-36). */
module Protocols {

  /** A port number, as every check of the source has it. */
  predicate InRange(port: int) { 1 <= port <= 65535 }

  /** `Unknown` stands for every text that is none of the three accepted ones;
      forwards are built with whatever the request says and validated later. */
  datatype Proto = Both | Tcp | Udp | Unknown

  function ProtoOf(text: string): Proto {
    if text == "tcp" then Tcp
    else if text == "udp" then Udp
    else if text == "both" then Both
    else Unknown
  }

  /** The text of a protocol; the text of an unknown one is not kept. */
  function ProtoText(p: Proto): string {
    match p
    case Tcp => "tcp"
    case Udp => "udp"
    case Both => "both"
    case Unknown => "?"
  }

  /** The position of a protocol in the order of its texts: "both" < "tcp" < "udp". */
  function Rank(p: Proto): nat {
    match p
    case Both => 0
    case Tcp => 1
    case Udp => 2
    case Unknown => 3
  }

  predicate HasTcp(p: Proto) { p == Tcp || p == Both }

  predicate HasUdp(p: Proto) { p == Udp || p == Both }

  predicate ProtoOverlap(a: Proto, b: Proto) {
    a == b || a == Both || b == Both
  }

  /** The overlap test of the port-spec parser agrees with the listener-based one
      of the store on the protocols that can be stored. */
  lemma OverlapIsSharedListener(a: Proto, b: Proto)
    requires a != Unknown && b != Unknown
    ensures ProtoOverlap(a, b) <==> (HasTcp(a) && HasTcp(b)) || (HasUdp(a) && HasUdp(b))
  {
  }

  // ----- the same in plain words ------------------------------------------------------

  ghost predicate Named(p: Proto, text: string) {
    match p
    case Tcp => text == "tcp"
    case Udp => text == "udp"
    case Both => text == "both"
    case Unknown => text != "tcp" && text != "udp" && text != "both"
  }

  /** The order of texts, character by character. */
  ghost predicate LessText(a: string, b: string) {
    exists k: nat :: k <= |a| && k < |b| && a[..k] == b[..k] && (k == |a| || a[k] < b[k])
  }

  lemma ProtoMeaning(p: Proto, text: string)
    ensures Named(p, text) <==> p == ProtoOf(text)
    ensures p != Unknown ==> Named(p, ProtoText(p))
  {
  }

  /** Ranks are in the order of the texts. */
  lemma RankMeaning(a: Proto, b: Proto)
    requires a != Unknown && b != Unknown
    ensures Rank(a) < Rank(b) <==> LessText(ProtoText(a), ProtoText(b))
  {
    var s, t := ProtoText(a), ProtoText(b);
    if a != b {
      assert s[..0] == t[..0];
      assert s[0] != t[0];
      forall k: nat | 0 < k <= |s| && k < |t| ensures s[..k] != t[..k] {
        assert s[..k][0] == s[0] && t[..k][0] == t[0];
      }
    } else {
      assert s == t;
    }
  }
}
