/** The vocabulary of the firewall agent: rules, their keys and their tags.
    internal/firewall/firewall.go:58-82, 196-206 */
module Rules {
  import opened Protocols
  import opened Forwards

  /** Who a rule is for; its text is the tag the agent writes. */
  datatype RuleId = Tunnel | Admin | OfForward(id: Id)

  datatype Key = PortKey(port: int, transport: Transport)

  datatype Rule = Rule(id: RuleId, port: int, transport: Transport) {
    function Key(): Key { PortKey(port, transport) }
  }

  // ----- rule ids as text -----------------------------------------------------------

  function HexChar(d: nat): char
    requires d < 16
  {
    if d < 10 then '0' + d as char else 'a' + (d - 10) as char
  }

  /** The lowest `width` hexadecimal digits of n. */
  function Hex(n: nat, width: nat): (s: string)
    ensures |s| == width
    ensures forall i :: 0 <= i < |s| ==> IdChar(s[i])
  {
    if width == 0 then "" else Hex(n / 16, width - 1) + [HexChar(n % 16)]
  }

  function Power16(k: nat): (p: nat)
    ensures p > 0
  {
    if k == 0 then 1 else 16 * Power16(k - 1)
  }

  /** Digit i from the right is the one of n in base 16, in lower case. */
  lemma {:induction false} HexDigits(n: nat, width: nat, i: nat)
    requires i < width
    ensures Hex(n, width)[width - 1 - i] == "0123456789abcdef"[(n / Power16(i)) % 16]
  {
    if i > 0 {
      HexDigits(n / 16, width - 1, i - 1);
      DivideTwice(n, Power16(i - 1));
    }
  }

  lemma DivideTwice(n: nat, b: nat)
    requires b > 0
    ensures n / 16 / b == n / (16 * b)
  {
    var q, r := n / (16 * b), n % (16 * b);
    assert n == 16 * (b * q) + r;
    assert n / 16 == b * q + r / 16;
    assert r / 16 < b;
    QuotientIs(n / 16, b, q, r / 16);
  }

  lemma QuotientIs(a: nat, b: nat, q: nat, r: nat)
    requires b > 0 && a == b * q + r && r < b
    ensures a / b == q
  {
    var p := a / b;
    assert a == b * p + a % b;
    if q > p { Beyond(b, p, q); }
    if p > q { Beyond(b, q, p); }
  }

  lemma Beyond(b: nat, p: nat, q: nat)
    requires p < q
    ensures b * q >= b * p + b
  {
    assert b * q == b * (p + 1) + b * (q - p - 1);
  }

  function RuleText(id: RuleId): string {
    match id
    case Tunnel => "tunnel"
    case Admin => "admin"
    case OfForward(f) => Hex(f, 12)
  }

  predicate IdChar(c: char) {
    'a' <= c <= 'z' || '0' <= c <= '9' || c == '_' || c == '-'
  }

  /** idPattern */
  predicate ValidRuleText(s: string) {
    1 <= |s| <= 32 && forall i :: 0 <= i < |s| ==> IdChar(s[i])
  }

  lemma {:induction false} HexInjective(a: nat, b: nat, width: nat)
    requires a < Power16(width) && b < Power16(width) && Hex(a, width) == Hex(b, width)
    ensures a == b
  {
    if width > 0 {
      assert Hex(a, width)[..width - 1] == Hex(a / 16, width - 1);
      assert Hex(b, width)[..width - 1] == Hex(b / 16, width - 1);
      HexInjective(a / 16, b / 16, width - 1);
      assert Hex(a, width)[width - 1] == Hex(b, width)[width - 1];
    }
  }

  /** Owners with six-byte identifiers never share a tag. */
  lemma TagsAreDistinct(a: RuleId, b: RuleId)
    requires a.OfForward? ==> a.id < Power16(12)
    requires b.OfForward? ==> b.id < Power16(12)
    requires RuleText(a) == RuleText(b)
    ensures a == b
  {
    assert |RuleText(Tunnel)| == 6 && |RuleText(Admin)| == 5;
    if a.OfForward? && b.OfForward? {
      HexInjective(a.id, b.id, 12);
    }
  }

  predicate ValidRule(r: Rule) {
    ValidRuleText(RuleText(r.id)) && InRange(r.port)
  }

  predicate DistinctRules(rules: seq<Rule>) {
    forall i, j :: 0 <= i < j < |rules| ==> rules[i].Key() != rules[j].Key()
  }
}
