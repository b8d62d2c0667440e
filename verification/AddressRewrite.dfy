/** `replacePorts` on whole addresses and in place, and exactly when it does
    what it is for. */
module AddressRewrite {
  import opened Wrappers
  import opened Multiaddr
  import opened PortRewrite

  /** The port as the text that is written for it. */
  function PortText(newPort: int): string { FormatInt(newPort) }

  ghost predicate IsPortNumber(newPort: int) { 0 <= newPort < 0x1_0000 }

  /** What replacePorts is for: tcp and udp ports set, all else unchanged. */
  function Intended(cs: seq<Component>, newPort: int): seq<Component> {
    SetPorts(SetPorts(cs, "tcp", PortText(newPort)), "udp", PortText(newPort))
  }

  /** The order of search and replace is harmless in this address. */
  ghost predicate Clean(table: Table, cs: seq<Component>, newPort: int)
    requires AllStructured(table, cs)
  {
    && NoClash(ValuesOf(cs, "tcp"), PortText(newPort))
    && NoClash(ValuesOf(cs, "udp"), PortText(newPort))
  }

  /** No port in it goes on after the text of the new one. */
  ghost predicate NoPortExtends(table: Table, cs: seq<Component>, newPort: int)
    requires AllStructured(table, cs)
  {
    && NoneExtends(ValuesOf(cs, "tcp"), PortText(newPort))
    && NoneExtends(ValuesOf(cs, "udp"), PortText(newPort))
  }

  // ----- One pass ----------------------------------------------------------

  lemma StructuredIsPlain(table: Table, cs: seq<Component>, name: string)
    requires AllStructured(table, cs) && IsPort(name)
    ensures Plain(cs, name)
  {
    forall c | c in cs
      ensures NameOk(c.name) && (c.name == name ==> c.value.Some?) && (c.value.Some? ==> NoSlash(c.value.value))
    {
      assert Structured(table, c);
    }
  }

  /** The components after one pass. */
  function Pass(cs: seq<Component>, name: string, newPort: int): seq<Component>
    requires forall c :: c in cs && c.name == name ==> c.value.Some?
  {
    RewritePorts(cs, name, ValuesOf(cs, name), PortText(newPort))
  }

  lemma PassOnText(table: Table, cs: seq<Component>, name: string, newPort: int)
    requires IsPort(name) && cs != [] && AllStructured(table, cs) && AllAccepted(table, cs)
    requires forall c :: c in cs && c.name == name ==> c.value.value == Decimal(Number(c.value.value))
    requires newPort >= 0
    ensures RewriteText(table, Render(cs), name, newPort) == Ok(Render(Pass(cs, name, newPort)))
  {
    ParseRender(table, cs);
    CanonicalPorts(table, cs, name);
    StructuredIsPlain(table, cs, name);
    assert NoSlash(name);
    PassIsRewrite(cs, name, PortsOf(cs, name), PortText(newPort));
  }

  lemma PassAt(table: Table, cs: seq<Component>, name: string, newPort: int, k: nat)
    requires IsPort(name) && AllStructured(table, cs) && k < |cs|
    ensures |Pass(cs, name, newPort)| == |cs|
    ensures var d := Pass(cs, name, newPort)[k];
      if cs[k].name == name
      then d == cs[k].(value := Some(FoldValue(cs[k].value.value, ValuesOf(cs, name), PortText(newPort))))
      else d == cs[k]
  {
    assert cs[k] in cs && Structured(table, cs[k]);
    RewritePortsAt(cs, name, ValuesOf(cs, name), PortText(newPort), k);
  }

  lemma {:induction false} FoldOfDigits(v: string, ports: seq<string>, with: string)
    requires Digits(v) && NoSlash(v) && Digits(with) && NoSlash(with)
    ensures Digits(FoldValue(v, ports, with)) && NoSlash(FoldValue(v, ports, with))
    decreases |ports|
  {
    if ports != [] {
      FoldOfDigits(v, ports[..|ports| - 1], with);
      var u := FoldValue(v, ports[..|ports| - 1], with);
      var p := ports[|ports| - 1];
      if p <= u {
        assert forall c :: c in u[|p|..] ==> c in u;
      }
    }
  }

  /** A pass leaves an address that is written as the grammar asks, though its
      numbers may no longer be ports. */
  lemma PassKeepsStructure(table: Table, cs: seq<Component>, name: string, newPort: int)
    requires IsPort(name) && AllStructured(table, cs) && newPort >= 0
    ensures AllStructured(table, Pass(cs, name, newPort))
  {
    var ds := Pass(cs, name, newPort);
    forall d | d in ds ensures Structured(table, d) {
      var k :| 0 <= k < |ds| && ds[k] == d;
      assert cs[k] in cs && Structured(table, cs[k]);
      PassAt(table, cs, name, newPort, k);
      if cs[k].name == name {
        FoldOfDigits(cs[k].value.value, ValuesOf(cs, name), PortText(newPort));
      }
    }
  }

  /** The other protocol's ports are not touched by a pass. */
  lemma {:induction false} SameValues(cs: seq<Component>, ds: seq<Component>, name: string)
    requires |cs| == |ds|
    requires forall k :: 0 <= k < |cs| ==> cs[k].name == ds[k].name && (cs[k].name == name ==> cs[k] == ds[k])
    requires forall c :: c in cs && c.name == name ==> c.value.Some?
    requires forall c :: c in ds && c.name == name ==> c.value.Some?
    ensures ValuesOf(cs, name) == ValuesOf(ds, name)
  {
    if cs != [] {
      assert cs[0] in cs && ds[0] in ds;
      SameValues(cs[1..], ds[1..], name);
    }
  }

  // ----- Both passes -------------------------------------------------------

  lemma UdpUntouched(table: Table, cs: seq<Component>, newPort: int)
    requires AllStructured(table, cs) && newPort >= 0
    ensures var ds := Pass(cs, "tcp", newPort);
      AllStructured(table, ds) && ValuesOf(ds, "udp") == ValuesOf(cs, "udp")
      && |ds| == |cs| && forall k :: 0 <= k < |cs| ==>
           ds[k].name == cs[k].name && (cs[k].name != "tcp" ==> ds[k] == cs[k])
  {
    var ds := Pass(cs, "tcp", newPort);
    PassKeepsStructure(table, cs, "tcp", newPort);
    forall k | 0 <= k < |cs|
      ensures ds[k].name == cs[k].name && (cs[k].name != "tcp" ==> ds[k] == cs[k])
    {
      PassAt(table, cs, "tcp", newPort, k);
    }
    assert |ds| == |cs|;
    SameValues(cs, ds, "udp");
  }

  /** What replacePorts computes on a canonical address, clash or not: the
      second parse is the only thing that can fail. */
  lemma RewriteAddressIs(table: Table, cs: seq<Component>, newPort: int)
    requires Canonical(table, cs) && newPort >= 0
    ensures var ds := Pass(cs, "tcp", newPort);
      AllStructured(table, ds)
      && RewriteAddress(table, Render(cs), newPort)
         == if AllAccepted(table, ds) then Ok(Render(Pass(ds, "udp", newPort))) else Err(())
  {
    var ds := Pass(cs, "tcp", newPort);
    PassOnText(table, cs, "tcp", newPort);
    UdpUntouched(table, cs, newPort);
    ParseRender(table, ds);
    if AllAccepted(table, ds) {
      forall d | d in ds && d.name == "udp" ensures d.value.value == Decimal(Number(d.value.value)) {
        var k :| 0 <= k < |ds| && ds[k] == d;
        assert cs[k] in cs;
      }
      PassOnText(table, ds, "udp", newPort);
    }
  }

  /** The two passes reach the intended components iff each sets its ports. */
  lemma PassesSetExactly(table: Table, cs: seq<Component>, newPort: int)
    requires AllStructured(table, cs) && newPort >= 0
    requires AllStructured(table, Pass(cs, "tcp", newPort))
    ensures var with := PortText(newPort);
      Pass(Pass(cs, "tcp", newPort), "udp", newPort) == Intended(cs, newPort)
      <==> AllSet(ValuesOf(cs, "tcp"), with) && AllSet(ValuesOf(cs, "udp"), with)
  {
    var with, ds := PortText(newPort), Pass(cs, "tcp", newPort);
    var es := Pass(ds, "udp", newPort);
    StructuredIsPlain(table, cs, "tcp");
    StructuredIsPlain(table, ds, "udp");
    UdpUntouched(table, cs, newPort);
    PassSetsExactly(cs, "tcp", with);
    PassSetsExactly(ds, "udp", with);
    forall k | 0 <= k < |cs| ensures |es| == |cs| && (cs[k].name != "udp" ==> es[k] == ds[k]) {
      PassAt(table, ds, "udp", newPort, k);
    }
    if es == Intended(cs, newPort) {
      forall k | 0 <= k < |cs| ensures ds[k] == SetPorts(cs, "tcp", with)[k] {
        assert es[k] == Intended(cs, newPort)[k];
      }
      assert ds == SetPorts(cs, "tcp", with);
    }
  }

  lemma SetPortsIsCanonical(table: Table, cs: seq<Component>, name: string, newPort: int)
    requires IsPort(name) && Canonical(table, cs) && IsPortNumber(newPort)
    ensures Canonical(table, SetPorts(cs, name, PortText(newPort)))
  {
    var ds := SetPorts(cs, name, PortText(newPort));
    NumberOfDecimal(newPort);
    forall d | d in ds
      ensures Structured(table, d) && Accepted(table, d)
      ensures IsPort(d.name) ==> d.value.value == Decimal(Number(d.value.value))
    {
      var k :| 0 <= k < |ds| && ds[k] == d;
      assert cs[k] in cs && Structured(table, cs[k]);
    }
  }

  lemma IntendedIsCanonical(table: Table, cs: seq<Component>, newPort: int)
    requires Canonical(table, cs) && IsPortNumber(newPort)
    ensures Canonical(table, SetPorts(cs, "tcp", PortText(newPort)))
    ensures Canonical(table, Intended(cs, newPort))
  {
    SetPortsIsCanonical(table, cs, "tcp", newPort);
    SetPortsIsCanonical(table, SetPorts(cs, "tcp", PortText(newPort)), "udp", newPort);
  }

  lemma PassesKeepShape(table: Table, cs: seq<Component>, newPort: int)
    requires AllStructured(table, cs) && newPort >= 0
    requires AllStructured(table, Pass(cs, "tcp", newPort))
    ensures var es := Pass(Pass(cs, "tcp", newPort), "udp", newPort);
      AllStructured(table, es) && |es| == |cs| && forall k :: 0 <= k < |es| ==> SameShape(es[k], cs[k])
  {
    var ds := Pass(cs, "tcp", newPort);
    var es := Pass(ds, "udp", newPort);
    UdpUntouched(table, cs, newPort);
    PassKeepsStructure(table, ds, "udp", newPort);
    forall k | 0 <= k < |cs| ensures |es| == |cs| && SameShape(es[k], cs[k]) {
      PassAt(table, cs, "tcp", newPort, k);
      PassAt(table, ds, "udp", newPort, k);
      assert es[k] in es && cs[k] in cs;
      assert Structured(table, es[k]) && Structured(table, cs[k]);
    }
  }

  lemma PassedHasTheShape(table: Table, cs: seq<Component>, newPort: int)
    requires Canonical(table, cs) && IsPortNumber(newPort)
    requires AllStructured(table, Pass(cs, "tcp", newPort))
    ensures var es, fs := Pass(Pass(cs, "tcp", newPort), "udp", newPort), Intended(cs, newPort);
      |es| == |fs| && forall k :: 0 <= k < |es| ==> SameShape(es[k], fs[k])
  {
    var es, fs := Pass(Pass(cs, "tcp", newPort), "udp", newPort), Intended(cs, newPort);
    PassesKeepShape(table, cs, newPort);
    IntendedIsCanonical(table, cs, newPort);
    forall k | 0 <= k < |es| ensures SameShape(es[k], fs[k]) {
      assert SameShape(es[k], cs[k]) && fs[k] in fs && Structured(table, fs[k]);
    }
  }

  /** On canonical addresses replacePorts yields the rendering of the intended
      components exactly when both passes set all their ports. */
  lemma RewriteSetsExactly(table: Table, cs: seq<Component>, newPort: int)
    requires Canonical(table, cs) && IsPortNumber(newPort)
    ensures RewriteAddress(table, Render(cs), newPort) == Ok(Render(Intended(cs, newPort)))
       <==> AllSet(ValuesOf(cs, "tcp"), PortText(newPort)) && AllSet(ValuesOf(cs, "udp"), PortText(newPort))
  {
    var with, ds := PortText(newPort), Pass(cs, "tcp", newPort);
    RewriteAddressIs(table, cs, newPort);
    PassesSetExactly(table, cs, newPort);
    if AllAccepted(table, ds) {
      PassedHasTheShape(table, cs, newPort);
      if Render(Pass(ds, "udp", newPort)) == Render(Intended(cs, newPort)) {
        RenderInjective(Pass(ds, "udp", newPort), Intended(cs, newPort));
      }
    } else if AllSet(ValuesOf(cs, "tcp"), with) {
      StructuredIsPlain(table, cs, "tcp");
      PassSetsExactly(cs, "tcp", with);
      IntendedIsCanonical(table, cs, newPort);
      assert false;
    }
  }

  /** Every canonical address without a clash is rewritten as intended. */
  lemma CleanAddressesAreSet(table: Table, cs: seq<Component>, newPort: int)
    requires Canonical(table, cs) && IsPortNumber(newPort) && Clean(table, cs, newPort)
    ensures RewriteAddress(table, Render(cs), newPort) == Ok(Render(Intended(cs, newPort)))
  {
    NoClashSetsAll(ValuesOf(cs, "tcp"), PortText(newPort));
    NoClashSetsAll(ValuesOf(cs, "udp"), PortText(newPort));
    RewriteSetsExactly(table, cs, newPort);
  }

  /** And where no port in the address goes on after the new one, only those are. */
  lemma OnlyCleanAddressesAreSet(table: Table, cs: seq<Component>, newPort: int)
    requires Canonical(table, cs) && IsPortNumber(newPort) && NoPortExtends(table, cs, newPort)
    ensures RewriteAddress(table, Render(cs), newPort) == Ok(Render(Intended(cs, newPort)))
       <==> Clean(table, cs, newPort)
  {
    SetsAllExactlyWithoutClash(ValuesOf(cs, "tcp"), PortText(newPort));
    SetsAllExactlyWithoutClash(ValuesOf(cs, "udp"), PortText(newPort));
    RewriteSetsExactly(table, cs, newPort);
  }

  lemma NothingExtendsFiveDigits(table: Table, cs: seq<Component>, newPort: int, name: string)
    requires IsPort(name) && Canonical(table, cs) && 10_000 <= newPort < 0x1_0000
    ensures NoneExtends(ValuesOf(cs, name), PortText(newPort))
  {
    DecimalLength(newPort);
    forall p | p in ValuesOf(cs, name) ensures |p| <= 5 {
      ValuesOfHas(cs, name, p);
      var k :| 0 <= k < |cs| && cs[k].name == name && cs[k].value.value == p;
      assert cs[k] in cs && Structured(table, cs[k]) && Accepted(table, cs[k]);
      DecimalLength(Number(p));
    }
  }

  /** So for a new port of five digits there is no further condition. */
  lemma FiveDigitPortsAreSetExactly(table: Table, cs: seq<Component>, newPort: int)
    requires Canonical(table, cs) && 10_000 <= newPort < 0x1_0000
    ensures RewriteAddress(table, Render(cs), newPort) == Ok(Render(Intended(cs, newPort)))
       <==> Clean(table, cs, newPort)
  {
    NothingExtendsFiveDigits(table, cs, newPort, "tcp");
    NothingExtendsFiveDigits(table, cs, newPort, "udp");
    OnlyCleanAddressesAreSet(table, cs, newPort);
  }

  /** With one port per protocol there is nothing to clash. */
  lemma SinglePortsAreSet(table: Table, cs: seq<Component>, newPort: int)
    requires Canonical(table, cs) && IsPortNumber(newPort)
    requires |ValuesOf(cs, "tcp")| <= 1 && |ValuesOf(cs, "udp")| <= 1
    ensures RewriteAddress(table, Render(cs), newPort) == Ok(Render(Intended(cs, newPort)))
  {
    CleanAddressesAreSet(table, cs, newPort);
  }

  lemma IntendedTwice(cs: seq<Component>, newPort: int)
    ensures Intended(Intended(cs, newPort), newPort) == Intended(cs, newPort)
  {
    var es := Intended(cs, newPort);
    forall k | 0 <= k < |es| ensures Intended(es, newPort)[k] == es[k] {
      assert es[k].name == cs[k].name;
    }
  }

  // ----- A clash -----------------------------------------------------------

  /** An address with two tcp ports. */
  function TcpPair(a: nat, b: nat): seq<Component> {
    [Component("tcp", Some(Decimal(a))), Component("tcp", Some(Decimal(b)))]
  }

  lemma PairIsCanonical(table: Table, a: nat, b: nat)
    requires a < 0x1_0000 && b < 0x1_0000
    ensures Canonical(table, TcpPair(a, b))
    ensures ValuesOf(TcpPair(a, b), "tcp") == [Decimal(a), Decimal(b)]
    ensures ValuesOf(TcpPair(a, b), "udp") == []
  {
    NumberOfDecimal(a);
    NumberOfDecimal(b);
    var cs := TcpPair(a, b);
    assert cs[1..] == [cs[1]] && cs[1..][1..] == [];
    assert ValuesOf(cs[1..], "tcp") == [Decimal(b)];
    assert ValuesOf(cs[1..], "udp") == [];
  }

  /** The second of the two ports in an address such as this is found when the
      first is searched for, if that is its beginning. */
  lemma PairRewritten(table: Table, a: nat, b: nat, x: nat, y: nat, newPort: nat)
    requires a < 0x1_0000 && b < 0x1_0000 && x < 0x1_0000 && y < 0x1_0000
    requires FoldValue(Decimal(a), [Decimal(a), Decimal(b)], Decimal(newPort)) == Decimal(x)
    requires FoldValue(Decimal(b), [Decimal(a), Decimal(b)], Decimal(newPort)) == Decimal(y)
    ensures RewriteAddress(table, Render(TcpPair(a, b)), newPort) == Ok(Render(TcpPair(x, y)))
  {
    var cs, ds := TcpPair(a, b), TcpPair(x, y);
    PairIsCanonical(table, a, b);
    PairIsCanonical(table, x, y);
    RewriteAddressIs(table, cs, newPort);
    PassAt(table, cs, "tcp", newPort, 0);
    PassAt(table, cs, "tcp", newPort, 1);
    assert Pass(cs, "tcp", newPort) == ds;
    assert Pass(ds, "udp", newPort) == ds;
  }

  lemma FoldTwo(v: string, p: string, q: string, with: string)
    ensures FoldValue(v, [p, q], with) == RewriteValue(RewriteValue(v, p, with), q, with)
  {
    FoldStep(v, [p, q], with, 0);
    FoldStep(v, [p, q], with, 1);
    assert [p, q][..2] == [p, q];
    assert [p, q][..0] == [];
  }

  lemma SmallDecimals()
    ensures Decimal(1) == "1" && Decimal(5) == "5" && Decimal(10) == "10" && Decimal(12) == "12" && Decimal(52) == "52"
  {}

  /** So rewriting is not idempotent where ports clash, though it succeeds:
      12 becomes 52 in the first round and 5 in the second. */
  lemma ClashingAddressIsNotStable(table: Table)
    ensures RewriteAddress(table, Render(TcpPair(1, 12)), 5) == Ok(Render(TcpPair(5, 52)))
    ensures RewriteAddress(table, Render(TcpPair(5, 52)), 5) == Ok(Render(TcpPair(5, 5)))
    ensures Render(TcpPair(5, 52)) != Render(TcpPair(5, 5))
  {
    SmallDecimals();
    FoldTwo("1", "1", "12", "5");
    FoldTwo("12", "1", "12", "5");
    assert "1"[1..] == "" && "12"[1..] == "2" && "5" + "2" == "52";
    assert "52"[0] != "12"[0];
    assert RewriteValue("12", "1", "5") == "52" && RewriteValue("52", "12", "5") == "52";
    PairRewritten(table, 1, 12, 5, 52, 5);
    FoldTwo("5", "5", "52", "5");
    FoldTwo("52", "5", "52", "5");
    assert "5"[1..] == "" && "52"[1..] == "2" && "52"[2..] == "";
    PairRewritten(table, 5, 52, 5, 5, 5);
    assert TcpPair(5, 52)[1] != TcpPair(5, 5)[1];
    RenderDiffers(TcpPair(5, 52), TcpPair(5, 5));
  }

  // ----- In place ----------------------------------------------------------

  /** The inner replacePort: `addr` is overwritten once per matching component. */
  method ReplacePort(table: Table, input: string, name: string, newPort: int) returns (r: Result<string, ()>)
    requires IsPort(name)
    ensures r == RewriteText(table, input, name, newPort)
  {
    var cs := Parse(table, input);
    if cs.None? { return Err(()); }
    ParsedIsStructured(table, input);
    StructuredIsPorted(table, cs.value, name);
    var addr := input;
    var with := FormatInt(newPort);
    var i := 0;
    while i < |cs.value|
      invariant 0 <= i <= |cs.value|
      invariant Ported(cs.value[..i], name)
      invariant addr == ReplacePortsText(input, name, PortsOf(cs.value[..i], name), with)
    {
      var c := cs.value[i];
      PortsOfNext(cs.value, name, i);
      if c.name == name {
        var sport := Decimal(Number(c.value.value));
        ReplaceNext(input, name, PortsOf(cs.value[..i], name), sport, with);
        addr := ReplaceAll(addr, Prefix(name) + sport, Prefix(name) + with);
      }
      i := i + 1;
    }
    assert cs.value[..i] == cs.value;
    r := Ok(addr);
  }

  lemma ReplaceNext(s: string, name: string, ports: seq<string>, p: string, with: string)
    ensures ReplacePortsText(s, name, ports + [p], with)
         == ReplaceAll(ReplacePortsText(s, name, ports, with), Prefix(name) + p, Prefix(name) + with)
  {
    assert (ports + [p])[..|ports|] == ports;
  }

  lemma PortsOfNext(cs: seq<Component>, name: string, i: nat)
    requires i < |cs| && Ported(cs, name)
    ensures Ported(cs[..i], name) && Ported(cs[..i + 1], name)
    ensures cs[i].name == name ==> cs[i].value.Some? && Digits(cs[i].value.value)
    ensures PortsOf(cs[..i + 1], name)
         == PortsOf(cs[..i], name) + (if cs[i].name == name then [Decimal(Number(cs[i].value.value))] else [])
    ensures cs[i].name != name ==> PortsOf(cs[..i + 1], name) == PortsOf(cs[..i], name)
  {
    assert cs[..i + 1] == cs[..i] + [cs[i]];
    assert cs[i] in cs;
    PortsOfAppend(cs[..i], cs[i], name);
  }

  lemma {:induction false} PortsOfAppend(cs: seq<Component>, d: Component, name: string)
    requires Ported(cs, name) && (d.name == name ==> d.value.Some? && Digits(d.value.value))
    ensures Ported(cs + [d], name)
    ensures PortsOf(cs + [d], name)
         == PortsOf(cs, name) + (if d.name == name then [Decimal(Number(d.value.value))] else [])
  {
    if cs == [] {
      assert cs + [d] == [d];
    } else {
      assert (cs + [d])[1..] == cs[1..] + [d];
      assert cs[0] in cs;
      PortsOfAppend(cs[1..], d, name);
    }
  }

  /** The outcome for all addresses together: that of the first that fails. */
  function RewriteAddresses(table: Table, addrs: seq<string>, newPort: int): (r: Result<seq<string>, ()>)
    ensures r.Ok? <==> forall k :: 0 <= k < |addrs| ==> RewriteAddress(table, addrs[k], newPort).Ok?
    ensures r.Ok? ==> |r.value| == |addrs|
    ensures r.Ok? ==> forall k :: 0 <= k < |addrs| ==> RewriteAddress(table, addrs[k], newPort) == Ok(r.value[k])
  {
    if forall k :: 0 <= k < |addrs| ==> RewriteAddress(table, addrs[k], newPort).Ok?
    then Ok(seq(|addrs|, k requires 0 <= k < |addrs| => RewriteAddress(table, addrs[k], newPort).value))
    else Err(())
  }

  /** The first `n` entries have been rewritten, the others not yet. */
  ghost predicate RewrittenUpTo(table: Table, was: seq<string>, now: seq<string>, newPort: int, n: nat) {
    && |now| == |was| && n <= |was|
    && (forall k :: 0 <= k < n ==> RewriteAddress(table, was[k], newPort) == Ok(now[k]))
    && (forall k :: n <= k < |was| ==> now[k] == was[k])
  }

  lemma OneMoreRewritten(table: Table, was: seq<string>, now: seq<string>, newPort: int, n: nat, s: string)
    requires RewrittenUpTo(table, was, now, newPort, n) && n < |was|
    requires RewriteAddress(table, was[n], newPort) == Ok(s)
    ensures RewrittenUpTo(table, was, now[n := s], newPort, n + 1)
  {}

  lemma AllRewritten(table: Table, was: seq<string>, now: seq<string>, newPort: int)
    requires RewrittenUpTo(table, was, now, newPort, |was|)
    ensures RewriteAddresses(table, was, newPort) == Ok(now)
  {
    var r := RewriteAddresses(table, was, newPort);
    assert r.value == now;
  }

  /** replacePorts. On an error the entries before the one that failed have
      been overwritten already. */
  method ReplacePorts(table: Table, addrs: array<string>, newPort: int) returns (ok: bool, ghost stopped: nat)
    modifies addrs
    ensures RewrittenUpTo(table, old(addrs[..]), addrs[..], newPort, stopped)
    ensures ok ==> RewriteAddresses(table, old(addrs[..]), newPort) == Ok(addrs[..])
    ensures !ok ==> RewriteAddresses(table, old(addrs[..]), newPort).Err?
    ensures !ok ==> stopped < addrs.Length && RewriteAddress(table, old(addrs[..])[stopped], newPort).Err?
  {
    ghost var was := addrs[..];
    var idx := 0;
    while idx < addrs.Length
      invariant 0 <= idx <= addrs.Length
      invariant RewrittenUpTo(table, was, addrs[..], newPort, idx)
    {
      ghost var now := addrs[..];
      assert addrs[idx] == was[idx];
      var t := ReplacePort(table, addrs[idx], "tcp", newPort);
      if t.Err? { return false, idx; }
      t := ReplacePort(table, t.value, "udp", newPort);
      if t.Err? { return false, idx; }
      addrs[idx] := t.value;
      OneMoreRewritten(table, was, now, newPort, idx, t.value);
      assert addrs[..] == now[idx := t.value];
      idx := idx + 1;
    }
    AllRewritten(table, was, addrs[..], newPort);
    return true, idx;
  }
}
