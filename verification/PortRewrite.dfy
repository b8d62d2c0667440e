/** `replacePorts` (src/ipfs_bindings/ipfs_config.go): textual search and
    replace over an address, against the component-wise rewriting it is meant
    to be. */
module PortRewrite {
  import opened Wrappers
  import opened Multiaddr

  // ----- The source's text operations --------------------------------------

  /** strings.Replace(s, what, with, -1): every occurrence, from the left. */
  function ReplaceAll(s: string, what: string, with: string): string
    requires what != ""
    decreases |s|
  {
    if s == "" then ""
    else if what <= s then with + ReplaceAll(s[|what|..], what, with)
    else [s[0]] + ReplaceAll(s[1..], what, with)
  }

  function Prefix(name: string): string { "/" + name + "/" }

  /** Components of this name have a number. */
  predicate Ported(cs: seq<Component>, name: string) {
    forall c :: c in cs && c.name == name ==> c.value.Some? && Digits(c.value.value)
  }

  /** The ports that the parsed address reports for a protocol, canonically. */
  function PortsOf(cs: seq<Component>, name: string): seq<string>
    requires Ported(cs, name)
  {
    if cs == [] then []
    else
      assert cs[0] in cs && (cs[0].name == name ==> Digits(cs[0].value.value));
      (if cs[0].name == name then [Decimal(Number(cs[0].value.value))] else []) + PortsOf(cs[1..], name)
  }

  /** The body of ma.ForEach, once per port. */
  function ReplacePortsText(s: string, name: string, ports: seq<string>, with: string): string
    decreases |ports|
  {
    if ports == [] then s
    else
      var n := |ports| - 1;
      ReplaceAll(ReplacePortsText(s, name, ports[..n], with), Prefix(name) + ports[n], Prefix(name) + with)
  }

  /** replacePort. */
  function RewriteText(table: Table, s: string, name: string, newPort: int): Result<string, ()>
    requires IsPort(name)
  {
    var cs := Parse(table, s);
    if cs.None? then Err(())
    else
      ParsedIsStructured(table, s);
      StructuredIsPorted(table, cs.value, name);
      Ok(ReplacePortsText(s, name, PortsOf(cs.value, name), FormatInt(newPort)))
  }

  /** What the loop of replacePorts does to one address. */
  function RewriteAddress(table: Table, s: string, newPort: int): Result<string, ()>
  {
    var t := RewriteText(table, s, "tcp", newPort);
    if t.Err? then t else RewriteText(table, t.value, "udp", newPort)
  }

  lemma {:induction false} ParsedTailIsStructured(table: Table, s: string)
    ensures ParseTail(table, s).Some? ==> AllStructured(table, ParseTail(table, s).value)
    decreases |s|
  {
    if s != "" && s[0] == '/' && ParseTail(table, s).Some? {
      var name := Word(s[1..]);
      var rest := s[1 + |name|..];
      assert ParseTail(table, s) == ParseValue(table, name, rest);
      if Structured(table, Component(name, None)) {
        ParsedTailIsStructured(table, rest);
      } else {
        ParsedTailIsStructured(table, rest[1 + |Word(rest[1..])|..]);
      }
    }
  }

  lemma StructuredIsPorted(table: Table, cs: seq<Component>, name: string)
    requires AllStructured(table, cs) && IsPort(name)
    ensures Ported(cs, name)
  {
    forall c | c in cs && c.name == name ensures c.value.Some? && Digits(c.value.value) {
      assert Structured(table, c);
    }
  }

  lemma ParsedIsStructured(table: Table, s: string)
    ensures Parse(table, s).Some? ==> AllStructured(table, Parse(table, s).value)
  {
    ParsedTailIsStructured(table, s);
  }

  // ----- What it does to components ----------------------------------------

  /** One replacement, on a value: `p` at its front gives way to `with`. */
  function RewriteValue(v: string, p: string, with: string): string {
    if p <= v then with + v[|p|..] else v
  }

  function RewriteOne(c: Component, name: string, p: string, with: string): Component {
    if c.name == name && c.value.Some? then c.(value := Some(RewriteValue(c.value.value, p, with))) else c
  }

  function RewriteAll(cs: seq<Component>, name: string, p: string, with: string): (ds: seq<Component>)
    ensures |ds| == |cs|
    ensures forall k :: 0 <= k < |cs| ==> ds[k] == RewriteOne(cs[k], name, p, with)
  {
    seq(|cs|, k requires 0 <= k < |cs| => RewriteOne(cs[k], name, p, with))
  }

  /** All replacements, on components. */
  function RewritePorts(cs: seq<Component>, name: string, ports: seq<string>, with: string): (ds: seq<Component>)
    ensures |ds| == |cs|
    decreases |ports|
  {
    if ports == [] then cs
    else
      var n := |ports| - 1;
      RewriteAll(RewritePorts(cs, name, ports[..n], with), name, ports[n], with)
  }

  /** What is meant: every port of the protocol becomes `with`. */
  function SetPorts(cs: seq<Component>, name: string, with: string): (ds: seq<Component>)
    ensures |ds| == |cs|
    ensures forall k :: 0 <= k < |cs| ==> ds[k] == if cs[k].name == name then cs[k].(value := Some(with)) else cs[k]
  {
    seq(|cs|, k requires 0 <= k < |cs| => if cs[k].name == name then cs[k].(value := Some(with)) else cs[k])
  }

  // ----- Text to components ------------------------------------------------

  lemma ReachesSlash(p: string, v: string, t: string)
    requires Tail(t) && p <= v + t && |p| > |v|
    ensures !NoSlash(p)
  {
    assert p[|v|] == (v + t)[|v|] == t[0];
    assert p[|v|] in p;
  }

  lemma PrefixOfHead(p: string, v: string, t: string)
    requires NoSlash(p) && Tail(t)
    ensures p <= v + t <==> p <= v
  {
    if p <= v + t && |p| > |v| { ReachesSlash(p, v, t); }
  }

  /** A pattern that starts with a whole name matches that name only. */
  lemma MatchAtName(a: string, q: string, n: string, t: string)
    requires NoSlash(a) && NoSlash(n) && Tail(t)
    ensures "/" + a + "/" + q <= "/" + n + t <==> a == n && "/" + q <= t
  {
    var x, y := "/" + a + "/" + q, "/" + n + t;
    assert x == "/" + (a + ("/" + q)) && y == "/" + (n + t);
    if x <= y {
      assert x[1..] == a + ("/" + q) && y[1..] == n + t;
      assert a + ("/" + q) <= n + t;
      var u := (n + t)[|a + ("/" + q)|..];
      assert n + t == a + ("/" + q + u);
      SplitAtTail(n, t, a, "/" + q + u);
    }
    if a == n && "/" + q <= t {
      assert x <= y;
    }
  }

  /** Text without slashes is copied. */
  lemma {:induction false} SkipNoSlash(v: string, t: string, what: string, with: string)
    requires NoSlash(v) && what != "" && what[0] == '/'
    ensures ReplaceAll(v + t, what, with) == v + ReplaceAll(t, what, with)
  {
    if v == "" {
      assert v + t == t;
    } else {
      assert (v + t)[1..] == v[1..] + t;
      assert v[0] in v;
      SkipNoSlash(v[1..], t, what, with);
    }
  }

  lemma SkipSlash(v: string, t: string, what: string, with: string)
    requires NoSlash(v) && what != "" && what[0] == '/' && !(what <= "/" + v + t)
    ensures ReplaceAll("/" + v + t, what, with) == "/" + v + ReplaceAll(t, what, with)
  {
    assert ("/" + v + t)[1..] == v + t;
    SkipNoSlash(v, t, what, with);
  }

  /** The pattern can only match where a component of this name begins. */
  lemma NoMatchAtValue(name: string, p: string, v: string, cs: seq<Component>)
    requires NoSlash(name) && Digits(p) && NoSlash(v)
    requires forall c :: c in cs ==> NameOk(c.name)
    ensures !(Prefix(name) + p <= "/" + v + Render(cs))
  {
    RenderIsTail(cs);
    MatchAtName(name, p, v, Render(cs));
    assert Prefix(name) + p == "/" + name + "/" + p;
    assert p[0] in p && ("/" + p)[1] == p[0];
    if cs != [] {
      assert cs[0] in cs;
      assert Render(cs)[1] == cs[0].name[0];
    }
  }

  lemma ReplaceBare(n: string, cs: seq<Component>, name: string, p: string, with: string)
    requires NoSlash(name) && Digits(p) && NoSlash(n) && n != name
    ensures var what, to := Prefix(name) + p, Prefix(name) + with;
      ReplaceAll("/" + n + Render(cs), what, to) == "/" + n + ReplaceAll(Render(cs), what, to)
  {
    RenderIsTail(cs);
    assert Prefix(name) + p == "/" + name + "/" + p;
    MatchAtName(name, p, n, Render(cs));
    SkipSlash(n, Render(cs), Prefix(name) + p, Prefix(name) + with);
  }

  lemma ReplaceMatched(name: string, v: string, t: string, p: string, with: string)
    requires NoSlash(v) && p <= v
    ensures var what, to := Prefix(name) + p, Prefix(name) + with;
      ReplaceAll(Prefix(name) + (v + t), what, to) == Prefix(name) + (RewriteValue(v, p, with) + ReplaceAll(t, what, to))
  {
    var what, to := Prefix(name) + p, Prefix(name) + with;
    var rest := v[|p|..];
    assert v == p + rest;
    assert Prefix(name) + (v + t) == what + (rest + t);
    ReplaceHead(what, rest + t, to);
    SkipNoSlash(rest, t, what, to);
    assert to + (rest + ReplaceAll(t, what, to)) == Prefix(name) + ((with + rest) + ReplaceAll(t, what, to));
  }

  lemma ReplaceHead(what: string, t: string, to: string)
    requires what != ""
    ensures ReplaceAll(what + t, what, to) == to + ReplaceAll(t, what, to)
  {
    assert (what + t)[|what|..] == t;
  }

  lemma ReplaceUnmatched(n: string, v: string, cs: seq<Component>, name: string, p: string, with: string)
    requires NoSlash(name) && Digits(p) && NoSlash(p) && NoSlash(n) && NoSlash(v)
    requires forall d :: d in cs ==> NameOk(d.name)
    requires n == name ==> !(p <= v)
    ensures var what, to := Prefix(name) + p, Prefix(name) + with;
      ReplaceAll("/" + n + ("/" + v + Render(cs)), what, to) == "/" + n + ("/" + v + ReplaceAll(Render(cs), what, to))
  {
    var what, to, r := Prefix(name) + p, Prefix(name) + with, Render(cs);
    var t := "/" + v + r;
    RenderIsTail(cs);
    MatchPort(name, p, n, v, r);
    SkipSlash(n, t, what, to);
    NoMatchAtValue(name, p, v, cs);
    SkipSlash(v, r, what, to);
  }

  lemma MatchPort(name: string, p: string, n: string, v: string, r: string)
    requires NoSlash(name) && NoSlash(n) && NoSlash(p) && NoSlash(v) && Tail(r)
    ensures Prefix(name) + p <= "/" + n + ("/" + v + r) <==> name == n && p <= v
  {
    var t := "/" + v + r;
    assert Prefix(name) + p == "/" + name + "/" + p;
    MatchAtName(name, p, n, t);
    assert t[1..] == v + r;
    assert ("/" + p)[1..] == p;
    assert "/" + p <= t <==> p <= v + r;
    PrefixOfHead(p, v, r);
  }

  lemma ReplaceValued(n: string, v: string, cs: seq<Component>, name: string, p: string, with: string)
    requires NoSlash(name) && Digits(p) && NoSlash(p) && NoSlash(n) && NoSlash(v)
    requires forall d :: d in cs ==> NameOk(d.name)
    ensures var what, to := Prefix(name) + p, Prefix(name) + with;
      ReplaceAll("/" + n + ("/" + v + Render(cs)), what, to)
      == "/" + n + ("/" + (if n == name then RewriteValue(v, p, with) else v) + ReplaceAll(Render(cs), what, to))
  {
    if n == name && p <= v {
      var what, to := Prefix(name) + p, Prefix(name) + with;
      ReplaceMatched(name, v, Render(cs), p, with);
      Regroup(name, v, Render(cs));
      Regroup(name, RewriteValue(v, p, with), ReplaceAll(Render(cs), what, to));
    } else {
      ReplaceUnmatched(n, v, cs, name, p, with);
    }
  }

  lemma Regroup(n: string, v: string, t: string)
    ensures Prefix(n) + (v + t) == "/" + n + ("/" + v + t)
  {}

  lemma RegroupOne(c: Component, t: string)
    requires c.value.Some?
    ensures RenderOne(c) + t == "/" + c.name + ("/" + c.value.value + t)
  {}

  lemma ReplaceOne(c: Component, cs: seq<Component>, name: string, p: string, with: string)
    requires NoSlash(name) && Digits(p) && NoSlash(p) && NameOk(c.name)
    requires c.name == name ==> c.value.Some?
    requires c.value.Some? ==> NoSlash(c.value.value)
    requires forall d :: d in cs ==> NameOk(d.name)
    ensures var what, to := Prefix(name) + p, Prefix(name) + with;
      ReplaceAll(RenderOne(c) + Render(cs), what, to)
      == RenderOne(RewriteOne(c, name, p, with)) + ReplaceAll(Render(cs), what, to)
  {
    if c.value.None? {
      ReplaceBare(c.name, cs, name, p, with);
      assert RenderOne(c) + Render(cs) == "/" + c.name + Render(cs);
    } else {
      ReplaceOneValued(c, cs, name, p, with);
    }
  }

  lemma ReplaceOneValued(c: Component, cs: seq<Component>, name: string, p: string, with: string)
    requires NoSlash(name) && Digits(p) && NoSlash(p) && NameOk(c.name)
    requires c.value.Some? && NoSlash(c.value.value)
    requires forall d :: d in cs ==> NameOk(d.name)
    ensures var what, to := Prefix(name) + p, Prefix(name) + with;
      ReplaceAll(RenderOne(c) + Render(cs), what, to)
      == RenderOne(RewriteOne(c, name, p, with)) + ReplaceAll(Render(cs), what, to)
  {
    var rest := ReplaceAll(Render(cs), Prefix(name) + p, Prefix(name) + with);
    ReplaceValued(c.name, c.value.value, cs, name, p, with);
    RegroupOne(c, Render(cs));
    RegroupOne(RewriteOne(c, name, p, with), rest);
  }

  /** Searching and replacing the text of one port is rewriting values. No
      condition on the ports is needed for this. */
  lemma {:induction false} ReplaceIsRewrite(cs: seq<Component>, name: string, p: string, with: string)
    requires NoSlash(name) && Digits(p) && NoSlash(p)
    requires forall c :: c in cs ==> NameOk(c.name) && (c.name == name ==> c.value.Some?)
                                     && (c.value.Some? ==> NoSlash(c.value.value))
    ensures ReplaceAll(Render(cs), Prefix(name) + p, Prefix(name) + with) == Render(RewriteAll(cs, name, p, with))
  {
    if cs != [] {
      assert cs[0] in cs;
      ReplaceIsRewrite(cs[1..], name, p, with);
      ReplaceOne(cs[0], cs[1..], name, p, with);
      RenderStep(cs);
      var ds := RewriteAll(cs, name, p, with);
      assert ds[1..] == RewriteAll(cs[1..], name, p, with);
      RenderStep(ds);
    }
  }

  // ----- One pass over an address ------------------------------------------

  /** What rewriting needs to know of components. */
  ghost predicate Plain(cs: seq<Component>, name: string) {
    forall c :: c in cs ==> NameOk(c.name) && (c.name == name ==> c.value.Some?)
                            && (c.value.Some? ==> NoSlash(c.value.value))
  }

  lemma RewriteKeepsPlain(cs: seq<Component>, name: string, p: string, with: string)
    requires Plain(cs, name) && NoSlash(with)
    ensures Plain(RewriteAll(cs, name, p, with), name)
  {
    var ds := RewriteAll(cs, name, p, with);
    forall d | d in ds
      ensures NameOk(d.name) && (d.name == name ==> d.value.Some?) && (d.value.Some? ==> NoSlash(d.value.value))
    {
      var k :| 0 <= k < |ds| && ds[k] == d;
      assert cs[k] in cs;
    }
  }

  /** Whatever the ports: the text after the pass renders the rewritten components. */
  lemma {:induction false} PassIsRewrite(cs: seq<Component>, name: string, ports: seq<string>, with: string)
    requires NoSlash(name) && NoSlash(with) && Plain(cs, name)
    requires forall p :: p in ports ==> Digits(p) && NoSlash(p)
    ensures ReplacePortsText(Render(cs), name, ports, with) == Render(RewritePorts(cs, name, ports, with))
    ensures Plain(RewritePorts(cs, name, ports, with), name)
    decreases |ports|
  {
    if ports != [] {
      var n := |ports| - 1;
      assert ports[n] in ports;
      PassIsRewrite(cs, name, ports[..n], with);
      var ds := RewritePorts(cs, name, ports[..n], with);
      ReplaceIsRewrite(ds, name, ports[n], with);
      RewriteKeepsPlain(ds, name, ports[n], with);
    }
  }

  /** All replacements, on the value of one component. */
  function FoldValue(v: string, ports: seq<string>, with: string): string
    decreases |ports|
  {
    if ports == [] then v
    else RewriteValue(FoldValue(v, ports[..|ports| - 1], with), ports[|ports| - 1], with)
  }

  lemma {:induction false} RewritePortsAt(cs: seq<Component>, name: string, ports: seq<string>, with: string, k: nat)
    requires k < |cs| && (cs[k].name == name ==> cs[k].value.Some?)
    ensures RewritePorts(cs, name, ports, with)[k]
         == if cs[k].name == name then cs[k].(value := Some(FoldValue(cs[k].value.value, ports, with))) else cs[k]
    decreases |ports|
  {
    if ports != [] {
      RewritePortsAt(cs, name, ports[..|ports| - 1], with, k);
    }
  }

  // ----- When the pass sets every port -------------------------------------

  /** For two texts, `p < v` says that p is a proper prefix of v. No port but
      the first is one of the new port; and a port is one of a later port only
      if an equal of that later port comes before it. */
  ghost predicate NoClash(ports: seq<string>, with: string) {
    && (forall j :: 1 <= j < |ports| ==> !(ports[j] < with))
    && (forall j, i :: 0 <= j < i < |ports| && ports[j] < ports[i] ==> ports[i] in ports[..j])
  }

  ghost predicate AllSet(ports: seq<string>, with: string) {
    forall v :: v in ports ==> FoldValue(v, ports, with) == with
  }

  lemma FoldStep(v: string, ports: seq<string>, with: string, n: nat)
    requires n < |ports|
    ensures FoldValue(v, ports[..n + 1], with) == RewriteValue(FoldValue(v, ports[..n], with), ports[n], with)
  {
    assert ports[..n + 1][..n] == ports[..n];
  }

  /** A value `v` after the first `n` searches, if none of them clashed. */
  function Undisturbed(v: string, ports: seq<string>, with: string, n: nat): string
    requires n <= |ports|
  {
    if v in ports[..n] then with else v
  }

  lemma UndisturbedStep(v: string, ports: seq<string>, with: string, n: nat)
    requires n < |ports|
    ensures Undisturbed(v, ports, with, n + 1) == if v == ports[n] then with else Undisturbed(v, ports, with, n)
  {
    assert ports[..n + 1] == ports[..n] + [ports[n]];
  }

  lemma RewriteWhole(u: string, p: string, with: string)
    ensures !(p < u) ==> RewriteValue(u, p, with) == if p == u then with else u
    ensures p < u ==> with < RewriteValue(u, p, with)
  {
    assert with + "" == with;
    if p == u { assert u[|p|..] == ""; }
  }

  lemma NoSearchClashes(ports: seq<string>, with: string, i: nat, m: nat)
    requires NoClash(ports, with) && i < |ports| && m < |ports|
    ensures !(ports[m] < Undisturbed(ports[i], ports, with, m))
  {
    assert m == 0 ==> ports[..m] == [];
    assert i < m ==> ports[..m][i] == ports[i];
  }

  /** A value keeps its text until its equal is searched for, and is the new
      port from then on. */
  lemma {:induction false} FoldWithoutClash(ports: seq<string>, with: string, i: nat, n: nat)
    requires NoClash(ports, with) && i < |ports| && n <= |ports|
    ensures FoldValue(ports[i], ports[..n], with) == Undisturbed(ports[i], ports, with, n)
    decreases n
  {
    if n > 0 {
      FoldWithoutClash(ports, with, i, n - 1);
      FoldStep(ports[i], ports, with, n - 1);
      NoSearchClashes(ports, with, i, n - 1);
      RewriteWhole(Undisturbed(ports[i], ports, with, n - 1), ports[n - 1], with);
      UndisturbedStep(ports[i], ports, with, n - 1);
    }
  }

  lemma NoClashSetsAll(ports: seq<string>, with: string)
    requires NoClash(ports, with)
    ensures AllSet(ports, with)
  {
    forall v | v in ports ensures FoldValue(v, ports, with) == with {
      var i :| 0 <= i < |ports| && ports[i] == v;
      FoldWithoutClash(ports, with, i, |ports|);
      assert ports[..|ports|] == ports;
    }
  }

  /** No port goes on after the text of the new one. */
  ghost predicate NoneExtends(ports: seq<string>, with: string) {
    forall p :: p in ports ==> !(with < p)
  }

  /** Then a value that goes on after the new port always will. */
  lemma {:induction false} ExtendedStaysExtended(v: string, ports: seq<string>, with: string, n: nat, m: nat)
    requires NoneExtends(ports, with)
    requires n <= m <= |ports| && with < FoldValue(v, ports[..n], with)
    ensures with < FoldValue(v, ports[..m], with)
    decreases m
  {
    if n < m {
      ExtendedStaysExtended(v, ports, with, n, m - 1);
      FoldStep(v, ports, with, m - 1);
      assert ports[m - 1] in ports;
    }
  }

  lemma ClashSpoils(ports: seq<string>, with: string, v: string, n: nat)
    requires NoneExtends(ports, with)
    requires n < |ports| && ports[n] < FoldValue(v, ports[..n], with)
    ensures FoldValue(v, ports, with) != with
  {
    FoldStep(v, ports, with, n);
    RewriteWhole(FoldValue(v, ports[..n], with), ports[n], with);
    ExtendedStaysExtended(v, ports, with, n + 1, |ports|);
    assert ports[..|ports|] == ports;
  }

  lemma {:induction false} FoldThatEndsRight(ports: seq<string>, with: string, v: string, n: nat)
    requires NoneExtends(ports, with)
    requires n <= |ports| && FoldValue(v, ports, with) == with
    ensures FoldValue(v, ports[..n], with) == Undisturbed(v, ports, with, n)
    ensures n < |ports| ==> !(ports[n] < Undisturbed(v, ports, with, n))
    decreases n
  {
    if n > 0 {
      FoldThatEndsRight(ports, with, v, n - 1);
      FoldStep(v, ports, with, n - 1);
      RewriteWhole(Undisturbed(v, ports, with, n - 1), ports[n - 1], with);
      UndisturbedStep(v, ports, with, n - 1);
    } else {
      assert ports[..0] == [];
    }
    if n < |ports| && ports[n] < Undisturbed(v, ports, with, n) {
      ClashSpoils(ports, with, v, n);
    }
  }

  /** If no port goes on after the new one, the pass sets every port if and
      only if there is no clash. */
  lemma SetsAllExactlyWithoutClash(ports: seq<string>, with: string)
    requires NoneExtends(ports, with)
    ensures AllSet(ports, with) <==> NoClash(ports, with)
  {
    if NoClash(ports, with) { NoClashSetsAll(ports, with); }
    if AllSet(ports, with) {
      forall j | 1 <= j < |ports| ensures !(ports[j] < with) {
        assert ports[0] in ports && ports[..j][0] == ports[0];
        FoldThatEndsRight(ports, with, ports[0], j);
      }
      forall j, i | 0 <= j < i < |ports| && ports[j] < ports[i] ensures ports[i] in ports[..j] {
        assert ports[i] in ports;
        FoldThatEndsRight(ports, with, ports[i], j);
      }
    }
  }

  /** That condition cannot be dropped: here 12 first becomes 52, which
      a later port then happens to name. */
  lemma RepairedClash()
    ensures AllSet(["1", "12", "52"], "5") && !NoClash(["1", "12", "52"], "5")
  {
    var ports := ["1", "12", "52"];
    assert ports[..3] == ports && ports[..0] == [];
    forall v | v in ports ensures FoldValue(v, ports, "5") == "5" {
      FoldStep(v, ports, "5", 0);
      FoldStep(v, ports, "5", 1);
      FoldStep(v, ports, "5", 2);
      assert "12"[1..] == "2" && "5" + "2" == "52";
      assert "1"[1..] == "" && "52"[2..] == "";
    }
    assert ports[0] < ports[1];
  }

  // ----- When it changes nothing -------------------------------------------

  /** A value is changed to something that begins with the new port or not at
      all; once its own text was searched for it does begin so. */
  lemma {:induction false} SearchedBeginsWithNew(v: string, ports: seq<string>, with: string, n: nat)
    requires n <= |ports|
    ensures var u := FoldValue(v, ports[..n], with);
      (u == v || with <= u) && (v in ports[..n] ==> with <= u)
    decreases n
  {
    if n > 0 {
      SearchedBeginsWithNew(v, ports, with, n - 1);
      FoldStep(v, ports, with, n - 1);
      assert ports[..n] == ports[..n - 1] + [ports[n - 1]];
    }
  }

  /** Searching for the new port itself changes nothing. */
  lemma {:induction false} SearchingNewKeeps(v: string, ports: seq<string>, with: string)
    requires forall p :: p in ports ==> p == with
    ensures FoldValue(v, ports, with) == v
    decreases |ports|
  {
    if ports != [] {
      var n := |ports| - 1;
      assert ports[n] in ports && forall p :: p in ports[..n] ==> p in ports;
      SearchingNewKeeps(v, ports[..n], with);
      if with <= v { assert with + v[|with|..] == v; }
    }
  }

  lemma {:induction false} NewStaysNew(v: string, ports: seq<string>, with: string, n: nat, m: nat)
    requires forall p :: p in ports ==> with <= p
    requires n <= m <= |ports| && FoldValue(v, ports[..n], with) == with
    ensures FoldValue(v, ports[..m], with) == with
    decreases m
  {
    if n < m {
      NewStaysNew(v, ports, with, n, m - 1);
      FoldStep(v, ports, with, m - 1);
      assert ports[m - 1] in ports;
    }
  }

  lemma {:induction false} UnchangedIsNew(ports: seq<string>, with: string, i: nat)
    requires forall v :: v in ports ==> FoldValue(v, ports, with) == v && with <= v
    requires i < |ports|
    ensures ports[i] == with
    decreases i
  {
    forall p | p in ports[..i] ensures p == with {
      var j :| 0 <= j < i && ports[j] == p;
      UnchangedIsNew(ports, with, j);
    }
    SearchingNewKeeps(ports[i], ports[..i], with);
    FoldStep(ports[i], ports, with, i);
    RewriteWhole(ports[i], ports[i], with);
    NewStaysNew(ports[i], ports, with, i + 1, |ports|);
    assert ports[..|ports|] == ports && ports[i] in ports;
  }

  /** The pass leaves every port as it is if and only if each is the new one. */
  lemma UnchangedExactlyWhenNew(ports: seq<string>, with: string)
    ensures (forall v :: v in ports ==> FoldValue(v, ports, with) == v) <==> (forall v :: v in ports ==> v == with)
  {
    if forall v :: v in ports ==> FoldValue(v, ports, with) == v {
      assert ports[..|ports|] == ports;
      forall v | v in ports ensures with <= v { SearchedBeginsWithNew(v, ports, with, |ports|); }
      forall v | v in ports ensures v == with {
        var i :| 0 <= i < |ports| && ports[i] == v;
        UnchangedIsNew(ports, with, i);
      }
    }
    if forall v :: v in ports ==> v == with {
      forall v | v in ports ensures FoldValue(v, ports, with) == v { SearchingNewKeeps(v, ports, with); }
    }
  }

  // ----- A whole address ---------------------------------------------------

  /** An address as the library itself would print it. */
  ghost predicate Canonical(table: Table, cs: seq<Component>) {
    && cs != [] && AllStructured(table, cs) && AllAccepted(table, cs)
    && forall c :: c in cs && IsPort(c.name) ==> c.value.value == Decimal(Number(c.value.value))
  }

  /** The values of a protocol, in order. */
  function ValuesOf(cs: seq<Component>, name: string): seq<string>
    requires forall c :: c in cs && c.name == name ==> c.value.Some?
  {
    if cs == [] then []
    else
      assert cs[0] in cs;
      (if cs[0].name == name then [cs[0].value.value] else []) + ValuesOf(cs[1..], name)
  }

  lemma {:induction false} ValuesOfHas(cs: seq<Component>, name: string, v: string)
    requires forall c :: c in cs && c.name == name ==> c.value.Some?
    ensures v in ValuesOf(cs, name) <==> exists k :: 0 <= k < |cs| && cs[k].name == name && cs[k].value.value == v
  {
    if cs != [] {
      assert cs[0] in cs;
      ValuesOfHas(cs[1..], name, v);
      if v in ValuesOf(cs[1..], name) {
        var k :| 0 <= k < |cs| - 1 && cs[1..][k].name == name && cs[1..][k].value.value == v;
        assert cs[k + 1].name == name && cs[k + 1].value.value == v;
      }
      if k :| 0 <= k < |cs| && cs[k].name == name && cs[k].value.value == v {
        if k > 0 { assert cs[1..][k - 1].name == name && cs[1..][k - 1].value.value == v; }
      }
    }
  }

  lemma {:induction false} CanonicalPorts(table: Table, cs: seq<Component>, name: string)
    requires IsPort(name) && AllStructured(table, cs)
    requires forall c :: c in cs && c.name == name ==> c.value.value == Decimal(Number(c.value.value))
    ensures Ported(cs, name) && PortsOf(cs, name) == ValuesOf(cs, name)
    ensures forall p :: p in PortsOf(cs, name) ==> Digits(p) && NoSlash(p)
  {
    StructuredIsPorted(table, cs, name);
    if cs != [] {
      assert cs[0] in cs;
      CanonicalPorts(table, cs[1..], name);
    }
  }

  /** The pass sets the ports of all components iff it sets them one by one. */
  lemma PassSetsExactly(cs: seq<Component>, name: string, with: string)
    requires Plain(cs, name)
    ensures var ports := ValuesOf(cs, name);
      RewritePorts(cs, name, ports, with) == SetPorts(cs, name, with) <==> AllSet(ports, with)
  {
    var ports := ValuesOf(cs, name);
    var ds := RewritePorts(cs, name, ports, with);
    forall k | 0 <= k < |cs|
      ensures cs[k].name == name ==> cs[k].value.Some? && cs[k].value.value in ports
      ensures ds[k] == if cs[k].name == name
                       then cs[k].(value := Some(FoldValue(cs[k].value.value, ports, with))) else cs[k]
    {
      assert cs[k] in cs;
      if cs[k].name == name { ValuesOfHas(cs, name, cs[k].value.value); }
      RewritePortsAt(cs, name, ports, with, k);
    }
    if ds == SetPorts(cs, name, with) {
      forall v | v in ports ensures FoldValue(v, ports, with) == with {
        ValuesOfHas(cs, name, v);
        var k :| 0 <= k < |cs| && cs[k].name == name && cs[k].value.value == v;
        assert ds[k] == SetPorts(cs, name, with)[k];
      }
    }
  }
}
