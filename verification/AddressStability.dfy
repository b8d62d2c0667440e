/** What a second `replacePorts` makes of the first one's result: exactly which
    addresses it leaves as they are. */
module AddressStability {
  import opened Wrappers
  import opened Multiaddr
  import opened PortRewrite
  import opened AddressRewrite

  /** Both passes set all their ports. */
  ghost predicate SetsPorts(table: Table, cs: seq<Component>, newPort: int)
    requires AllStructured(table, cs)
  {
    && AllSet(ValuesOf(cs, "tcp"), PortText(newPort))
    && AllSet(ValuesOf(cs, "udp"), PortText(newPort))
  }

  // ----- Addresses that do not change --------------------------------------

  lemma PassChangesNothingExactly(table: Table, cs: seq<Component>, name: string, newPort: int)
    requires IsPort(name) && AllStructured(table, cs)
    ensures Pass(cs, name, newPort) == cs <==> SetPorts(cs, name, PortText(newPort)) == cs
  {
    var with, ports := PortText(newPort), ValuesOf(cs, name);
    var ds, es := Pass(cs, name, newPort), SetPorts(cs, name, with);
    UnchangedExactlyWhenNew(ports, with);
    forall k | 0 <= k < |cs|
      ensures |ds| == |cs| && (cs[k].name != name ==> ds[k] == cs[k])
      ensures cs[k].name == name ==> cs[k].value.Some? && cs[k].value.value in ports
      ensures cs[k].name == name ==> ds[k] == cs[k].(value := Some(FoldValue(cs[k].value.value, ports, with)))
    {
      PassAt(table, cs, name, newPort, k);
      assert cs[k] in cs && Structured(table, cs[k]);
      if cs[k].name == name { ValuesOfHas(cs, name, cs[k].value.value); }
    }
    forall v | v in ports
      ensures exists k :: 0 <= k < |cs| && cs[k].name == name && cs[k].value == Some(v)
    {
      ValuesOfHas(cs, name, v);
      var k :| 0 <= k < |cs| && cs[k].name == name && cs[k].value.value == v;
      assert cs[k] in cs && Structured(table, cs[k]);
    }
    if ds == cs {
      assert forall v :: v in ports ==> FoldValue(v, ports, with) == v;
      assert es == cs;
    }
    if es == cs {
      assert forall v :: v in ports ==> v == with;
      assert ds == cs;
    }
  }

  lemma PassesChangeNothingExactly(table: Table, cs: seq<Component>, newPort: int)
    requires AllStructured(table, cs) && newPort >= 0
    requires AllStructured(table, Pass(cs, "tcp", newPort))
    ensures Pass(Pass(cs, "tcp", newPort), "udp", newPort) == cs <==> cs == Intended(cs, newPort)
    ensures cs == Intended(cs, newPort) ==> Pass(cs, "tcp", newPort) == cs
  {
    var with, ds := PortText(newPort), Pass(cs, "tcp", newPort);
    var es := Pass(ds, "udp", newPort);
    UdpUntouched(table, cs, newPort);
    PassChangesNothingExactly(table, cs, "tcp", newPort);
    PassChangesNothingExactly(table, cs, "udp", newPort);
    forall k | 0 <= k < |cs| ensures |es| == |cs| && (cs[k].name != "udp" ==> es[k] == ds[k]) {
      PassAt(table, ds, "udp", newPort, k);
    }
    if es == cs {
      assert ds == cs;
    }
    if cs == Intended(cs, newPort) {
      assert SetPorts(cs, "tcp", with) == cs;
    }
  }

  /** replacePorts leaves a canonical address as it is if and only if its ports
      are the new one already. */
  lemma UnchangedExactlyWhenIntended(table: Table, cs: seq<Component>, newPort: int)
    requires Canonical(table, cs) && IsPortNumber(newPort)
    ensures RewriteAddress(table, Render(cs), newPort) == Ok(Render(cs)) <==> cs == Intended(cs, newPort)
  {
    var ds := Pass(cs, "tcp", newPort);
    RewriteAddressIs(table, cs, newPort);
    PassesChangeNothingExactly(table, cs, newPort);
    PassesKeepShape(table, cs, newPort);
    var es := Pass(ds, "udp", newPort);
    if AllAccepted(table, ds) && Render(es) == Render(cs) {
      RenderInjective(es, cs);
    }
  }

  /** So what was rewritten as intended is rewritten to itself. */
  lemma RewritingIsIdempotent(table: Table, cs: seq<Component>, newPort: int)
    requires Canonical(table, cs) && IsPortNumber(newPort)
    ensures var s := Render(Intended(cs, newPort)); RewriteAddress(table, s, newPort) == Ok(s)
  {
    IntendedIsCanonical(table, cs, newPort);
    IntendedTwice(cs, newPort);
    UnchangedExactlyWhenIntended(table, Intended(cs, newPort), newPort);
  }

  // ----- The second rewriting ----------------------------------------------

  lemma FoldIsCanonical(v: string, ports: seq<string>, newPort: int)
    requires newPort > 0 && Digits(v) && NoSlash(v) && v == Decimal(Number(v))
    ensures var u := FoldValue(v, ports, PortText(newPort)); Digits(u) && u == Decimal(Number(u))
  {
    var with := PortText(newPort);
    var u := FoldValue(v, ports, with);
    FoldOfDigits(v, ports, with);
    SearchedBeginsWithNew(v, ports, with, |ports|);
    assert ports[..|ports|] == ports;
    if u != v {
      DecimalBegins(newPort);
      DecimalOfNumber(u);
    }
  }

  lemma PassedIsCanonical(table: Table, cs: seq<Component>, name: string, newPort: int)
    requires IsPort(name) && Canonical(table, cs) && newPort > 0
    requires AllStructured(table, Pass(cs, name, newPort)) && AllAccepted(table, Pass(cs, name, newPort))
    ensures Canonical(table, Pass(cs, name, newPort))
  {
    var ds := Pass(cs, name, newPort);
    PassAt(table, cs, name, newPort, 0);
    forall d | d in ds && IsPort(d.name) ensures d.value.value == Decimal(Number(d.value.value)) {
      var k :| 0 <= k < |ds| && ds[k] == d;
      PassAt(table, cs, name, newPort, k);
      assert cs[k] in cs && Structured(table, cs[k]);
      if cs[k].name == name {
        FoldIsCanonical(cs[k].value.value, ValuesOf(cs, name), newPort);
      }
    }
  }

  lemma IntendedOfPassed(table: Table, cs: seq<Component>, newPort: int)
    requires AllStructured(table, cs) && newPort >= 0
    requires AllStructured(table, Pass(cs, "tcp", newPort))
    ensures Intended(Pass(Pass(cs, "tcp", newPort), "udp", newPort), newPort) == Intended(cs, newPort)
  {
    var ds := Pass(cs, "tcp", newPort);
    var es := Pass(ds, "udp", newPort);
    UdpUntouched(table, cs, newPort);
    forall k | 0 <= k < |cs|
      ensures |es| == |cs| && Intended(es, newPort)[k] == Intended(cs, newPort)[k]
    {
      PassAt(table, ds, "udp", newPort, k);
      PassAt(table, cs, "tcp", newPort, k);
      assert cs[k] in cs && Structured(table, cs[k]);
    }
  }

  /** For a new port that does not begin with a zero. */
  lemma StableExactlyWhenSet(table: Table, cs: seq<Component>, newPort: int)
    requires Canonical(table, cs) && 0 < newPort < 0x1_0000
    requires RewriteAddress(table, Render(cs), newPort).Ok?
    ensures var r := RewriteAddress(table, Render(cs), newPort);
      RewriteAddress(table, r.value, newPort) == r <==> SetsPorts(table, cs, newPort)
  {
    var ds := Pass(cs, "tcp", newPort);
    RewriteAddressIs(table, cs, newPort);
    PassesSetExactly(table, cs, newPort);
    PassesKeepShape(table, cs, newPort);
    IntendedIsCanonical(table, cs, newPort);
    IntendedOfPassed(table, cs, newPort);
    var es := Pass(ds, "udp", newPort);
    if AllAccepted(table, es) {
      PassedIsCanonical(table, cs, "tcp", newPort);
      PassedIsCanonical(table, ds, "udp", newPort);
      UnchangedExactlyWhenIntended(table, es, newPort);
    } else {
      ParseRender(table, es);
    }
  }

  // ----- Port 0 ------------------------------------------------------------

  /** Replacing by 0 never makes a number larger. */
  lemma {:induction false} ZeroLowers(v: string, ports: seq<string>)
    requires Digits(v) && NoSlash(v)
    ensures var u := FoldValue(v, ports, "0"); Digits(u) && Number(u) <= Number(v)
    decreases |ports|
  {
    if ports != [] {
      var n := |ports| - 1;
      ZeroLowers(v, ports[..n]);
      var u, p := FoldValue(v, ports[..n], "0"), ports[n];
      FoldOfDigits(v, ports, "0");
      if p <= u {
        assert u == p + u[|p|..];
        NumberOfSuffix(p, u[|p|..]);
        NumberOfSuffix("0", u[|p|..]);
      }
    }
  }

  lemma ZeroPassIsAccepted(table: Table, cs: seq<Component>, name: string)
    requires IsPort(name) && AllStructured(table, cs) && AllAccepted(table, cs)
    ensures AllStructured(table, Pass(cs, name, 0)) && AllAccepted(table, Pass(cs, name, 0))
  {
    var ds := Pass(cs, name, 0);
    PassKeepsStructure(table, cs, name, 0);
    forall d | d in ds ensures Accepted(table, d) {
      var k :| 0 <= k < |ds| && ds[k] == d;
      PassAt(table, cs, name, 0, k);
      assert cs[k] in cs && Structured(table, cs[k]) && Accepted(table, cs[k]);
      if cs[k].name == name { ZeroLowers(cs[k].value.value, ValuesOf(cs, name)); }
    }
  }

  lemma {:induction false} LeadingZeroStays(v: string, ports: seq<string>)
    requires "0" <= v && forall p :: p in ports ==> p == "0" || (p != "" && p[0] != '0')
    ensures FoldValue(v, ports, "0") == v
    decreases |ports|
  {
    if ports != [] {
      var n := |ports| - 1;
      assert ports[n] in ports && forall p :: p in ports[..n] ==> p in ports;
      LeadingZeroStays(v, ports[..n]);
      if ports[n] <= v { assert "0" + v[1..] == v; }
    }
  }

  /** What a component's Value() reports begins with a zero only when it is one. */
  lemma {:induction false} ReportedPorts(cs: seq<Component>, name: string)
    requires Ported(cs, name)
    ensures forall p :: p in PortsOf(cs, name) ==> Digits(p) && NoSlash(p) && (p == "0" || p[0] != '0')
  {
    if cs != [] {
      assert cs[0] in cs;
      ReportedPorts(cs[1..], name);
      if cs[0].name == name {
        var n := Number(cs[0].value.value);
        if n > 0 { DecimalBegins(n); }
      }
    }
  }

  ghost predicate LeadingZeros(cs: seq<Component>, name: string) {
    forall c :: c in cs && c.name == name ==> c.value.Some? && "0" <= c.value.value
  }

  lemma LeadingZerosStay(table: Table, cs: seq<Component>, name: string)
    requires IsPort(name) && cs != [] && AllStructured(table, cs) && AllAccepted(table, cs) && LeadingZeros(cs, name)
    ensures RewriteText(table, Render(cs), name, 0) == Ok(Render(cs))
  {
    ParseRender(table, cs);
    StructuredIsPorted(table, cs, name);
    StructuredIsPlain(table, cs, name);
    ReportedPorts(cs, name);
    var ports := PortsOf(cs, name);
    PassIsRewrite(cs, name, ports, "0");
    var ds := RewritePorts(cs, name, ports, "0");
    forall k | 0 <= k < |cs| ensures ds[k] == cs[k] {
      assert cs[k] in cs;
      if cs[k].name == name { LeadingZeroStays(cs[k].value.value, ports); }
      RewritePortsAt(cs, name, ports, "0", k);
    }
    assert ds == cs;
  }

  lemma ZeroPassLeadsWithZeros(table: Table, cs: seq<Component>, name: string)
    requires IsPort(name) && AllStructured(table, cs)
    ensures LeadingZeros(Pass(cs, name, 0), name)
  {
    var ds, ports := Pass(cs, name, 0), ValuesOf(cs, name);
    forall d | d in ds && d.name == name ensures d.value.Some? && "0" <= d.value.value {
      var k :| 0 <= k < |ds| && ds[k] == d;
      PassAt(table, cs, name, 0, k);
      assert cs[k] in cs && Structured(table, cs[k]);
      ValuesOfHas(cs, name, cs[k].value.value);
      SearchedBeginsWithNew(cs[k].value.value, ports, "0", |ports|);
      assert ports[..|ports|] == ports;
    }
  }

  /** Port 0 is never refused, and what it leaves it does not change again,
      whether or not it is what was meant. */
  lemma ZeroIsStable(table: Table, cs: seq<Component>)
    requires Canonical(table, cs)
    ensures var r := RewriteAddress(table, Render(cs), 0);
      r.Ok? && RewriteAddress(table, r.value, 0) == r
  {
    var ds := Pass(cs, "tcp", 0);
    RewriteAddressIs(table, cs, 0);
    ZeroPassIsAccepted(table, cs, "tcp");
    ZeroPassLeadsWithZeros(table, cs, "tcp");
    var es := Pass(ds, "udp", 0);
    ZeroPassIsAccepted(table, ds, "udp");
    ZeroPassLeadsWithZeros(table, ds, "udp");
    forall e | e in es && e.name == "tcp" ensures e.value.Some? && "0" <= e.value.value {
      var k :| 0 <= k < |es| && es[k] == e;
      PassAt(table, ds, "udp", 0, k);
      assert ds[k] in ds;
    }
    PassAt(table, ds, "udp", 0, 0);
    LeadingZerosStay(table, es, "tcp");
    LeadingZerosStay(table, es, "udp");
  }

  // ----- The theorem -------------------------------------------------------

  /** A rewriting that succeeded is not changed by a second one if and only if
      it set every port, or the new port is 0. Where no port goes on after the
      new one, that can be read off the address: there is no clash. */
  lemma RewritingIsStableExactly(table: Table, cs: seq<Component>, newPort: int)
    requires Canonical(table, cs) && IsPortNumber(newPort)
    requires RewriteAddress(table, Render(cs), newPort).Ok?
    ensures var r := RewriteAddress(table, Render(cs), newPort);
      RewriteAddress(table, r.value, newPort) == r <==> newPort == 0 || SetsPorts(table, cs, newPort)
    ensures var r := RewriteAddress(table, Render(cs), newPort);
      NoPortExtends(table, cs, newPort) ==>
        (RewriteAddress(table, r.value, newPort) == r <==> newPort == 0 || Clean(table, cs, newPort))
  {
    if newPort == 0 { ZeroIsStable(table, cs); } else { StableExactlyWhenSet(table, cs, newPort); }
    SetsPortsUnlessClash(table, cs, newPort);
  }

  lemma SetsPortsUnlessClash(table: Table, cs: seq<Component>, newPort: int)
    requires AllStructured(table, cs)
    ensures Clean(table, cs, newPort) ==> SetsPorts(table, cs, newPort)
    ensures NoPortExtends(table, cs, newPort) ==> (SetsPorts(table, cs, newPort) <==> Clean(table, cs, newPort))
  {
    if Clean(table, cs, newPort) {
      NoClashSetsAll(ValuesOf(cs, "tcp"), PortText(newPort));
      NoClashSetsAll(ValuesOf(cs, "udp"), PortText(newPort));
    }
    if NoPortExtends(table, cs, newPort) {
      SetsAllExactlyWithoutClash(ValuesOf(cs, "tcp"), PortText(newPort));
      SetsAllExactlyWithoutClash(ValuesOf(cs, "udp"), PortText(newPort));
    }
  }

  lemma OneAndTenClash()
    ensures PortText(0) == "0" && [Decimal(1), Decimal(10)] == ["1", "10"]
    ensures NoneExtends(["1", "10"], "0") && !NoClash(["1", "10"], "0")
  {
    SmallDecimals();
    var ports := ["1", "10"];
    assert ports[0] < ports[1] && ports[..0] == [];
  }

  /** Stable is not right: /tcp/1/tcp/10 is not rewritten to port 0 as intended,
      but stays as it came out. */
  lemma StableButWrong(table: Table)
    ensures var s := Render(TcpPair(1, 10));
      var r := RewriteAddress(table, s, 0);
      r.Ok? && RewriteAddress(table, r.value, 0) == r && r != Ok(Render(Intended(TcpPair(1, 10), 0)))
  {
    PairIsCanonical(table, 1, 10);
    OneAndTenClash();
    ZeroIsStable(table, TcpPair(1, 10));
    OnlyCleanAddressesAreSet(table, TcpPair(1, 10), 0);
  }
}
