/** Reading one address, perhaps in brackets or with a port, around the system's two text parsers. */
module AddressText {
  import opened Basics
  import opened Octets
  import opened ClientIp

  /** inet_pton for the two families. */
  datatype Pton = Pton(v4: Text -> Option<nat>, v6: Text -> Option<(nat, nat)>)

  /** No address text is that short, and none contains a bracket. */
  ghost predicate Sane(p: Pton) {
    forall t: Text :: |t| <= 1 || ']' in t ==> p.v4(t) == None && p.v6(t) == None
  }

  function FromV4(p: Pton, t: Text): Option<Ip> {
    match p.v4(t) case None => None case Some(a) => Some(V4(a))
  }

  /** An IPv4 address mapped into IPv6 counts as IPv4. */
  function FromV6(p: Pton, t: Text): Option<Ip> {
    match p.v6(t)
    case None => None
    case Some((high, low)) =>
      if high == 0 && low / 0x1_0000_0000 == 0xFFFF then Some(V4(low % 0x1_0000_0000)) else Some(V6(high, low))
  }

  function FromEither(p: Pton, t: Text): Option<Ip> {
    if FromV4(p, t).Some? then FromV4(p, t) else FromV6(p, t)
  }

  /** In brackets: what is read runs from after the opening bracket for as many characters as the closing
      one is away, which takes the closing bracket in. With exactly one colon the text is an IPv4 address
      and a port. */
  function MaybePort(p: Pton, t: Text): Option<Ip> {
    if t == [] then None
    else if t[0] == '[' then
      var close := Before(t, ']');
      if close == |t| then None else FromV6(p, t[1..1 + close])
    else
      var colon := Before(t, ':');
      if colon < |t| && ':' !in t[colon + 1..] then FromV4(p, t[..colon]) else FromEither(p, t)
  }

  /** Short texts are no addresses. */
  lemma ShortIsNone(p: Pton, t: Text)
    requires Sane(p) && |t| <= 1
    ensures MaybePort(p, t) == None
  {
    if |t| == 1 && t[0] != '[' {
      assert t[..Before(t, ':')] == [] || t[..Before(t, ':')] == t;
      assert |t[..Before(t, ':')]| <= 1;
    }
  }

  /** So this reading of addresses is one that the choice among candidates can rely on. */
  lemma MaybePortIsSensible(p: Pton)
    requires Sane(p)
    ensures Sensible((t: Text) => MaybePort(p, t))
  {
    forall t: Text | |t| <= 1 ensures MaybePort(p, t) == None {
      ShortIsNone(p, t);
    }
  }

  /** A bracketed address, with or without a port after it, is read as that address exactly when it is no
      address: the closing bracket is always read with it. */
  lemma BracketsExactly(p: Pton, a: Text, suffix: Text)
    requires Sane(p) && ']' !in a
    ensures MaybePort(p, ['['] + (a + ([']'] + suffix))) == FromV6(p, a) <==> FromV6(p, a) == None
  {
    BracketIsRead(p, a, a + [']'], suffix);
  }

  /** Whatever stands in the brackets and after them, nothing is read. */
  lemma BracketIsRead(p: Pton, a: Text, read: Text, suffix: Text)
    requires ']' !in a && read == a + [']'] && p.v6(read) == None
    ensures MaybePort(p, ['['] + (a + ([']'] + suffix))) == None
  {
    InBrackets(a, suffix);
  }

  lemma InBrackets(a: Text, suffix: Text)
    requires ']' !in a
    ensures var t := ['['] + (a + ([']'] + suffix)); Before(t, ']') == |a| + 1 && t[1..|a| + 2] == a + [']']
  {
    var t := ['['] + (a + ([']'] + suffix));
    assert t[..|a| + 1] == ['['] + a && t[|a| + 1] == ']';
    BeforeIs(t, ']', |a| + 1);
  }

  /** An IPv4 address is read without its port; text with more colons or none is read whole, as either kind. */
  lemma PortIsDropped(p: Pton, a: Text, port: Text)
    requires ':' !in a && (a == [] || a[0] != '[')
    ensures ':' !in port ==> MaybePort(p, a + ([':'] + port)) == FromV4(p, a)
    ensures ':' in port ==> MaybePort(p, a + ([':'] + port)) == FromEither(p, a + ([':'] + port))
    ensures a != [] ==> MaybePort(p, a) == FromEither(p, a)
  {
    var t := a + ([':'] + port);
    assert t[..|a|] == a && t[|a| + 1..] == port && t[0] == if a == [] then ':' else a[0];
    BeforeIs(t, ':', |a|);
    assert a[..|a|] == a;
    BeforeIs(a, ':', |a|);
  }

  /** An address mapped into IPv6 is the IPv4 address, and so is private or public as that is. */
  lemma MappedIsV4(p: Pton, t: Text, a: nat)
    requires a < 0x1_0000_0000 && p.v6(t) == Some((0, 0xFFFF_0000_0000 + a))
    ensures FromV6(p, t) == Some(V4(a))
  {
    assert (0xFFFF_0000_0000 + a) / 0x1_0000_0000 == 0xFFFF && (0xFFFF_0000_0000 + a) % 0x1_0000_0000 == a;
  }
}
