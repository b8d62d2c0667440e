/** Human-readable multiaddrs, `(/<protoName>/<value>)+` in the multiformats
    multiaddr specification: rendering, parsing, and decimal ports. */
module Multiaddr {
  import opened Wrappers

  /** One component as it is written; some protocols take no value. */
  datatype Component = Component(name: string, value: Option<string>)

  /** What the multiaddr library knows of a protocol name other than tcp and
      udp. Protocols whose value is a path are not part of this model. */
  datatype Kind = Unknown | Bare | Valued(valid: string -> bool)

  type Table = string -> Kind

  // ----- Text --------------------------------------------------------------

  predicate NoSlash(s: string) { '/' !in s }

  /** Nothing, or a text that starts with a slash. */
  predicate Tail(t: string) { t == "" || t[0] == '/' }

  predicate Digit(c: char) { '0' <= c <= '9' }

  predicate Digits(s: string) { s != "" && forall c :: c in s ==> Digit(c) }

  /** Protocol names are written without slashes and do not begin with a digit. */
  predicate NameOk(name: string) {
    name != "" && NoSlash(name) && !Digit(name[0])
  }

  function Decimal(n: nat): (s: string)
    ensures Digits(s) && NoSlash(s)
  {
    var d := "0123456789"[n % 10];
    if n < 10 then [d] else Decimal(n / 10) + [d]
  }

  function Number(s: string): nat
    requires forall c :: c in s ==> Digit(c)
  {
    if s == "" then 0
    else assert Digit(s[|s| - 1]); 10 * Number(s[..|s| - 1]) + (s[|s| - 1] as int - '0' as int)
  }

  lemma {:induction false} NumberOfDecimal(n: nat)
    ensures Number(Decimal(n)) == n
  {
    var s := Decimal(n);
    if n >= 10 {
      NumberOfDecimal(n / 10);
      assert s[..|s| - 1] == Decimal(n / 10);
    } else {
      assert s[..0] == "";
    }
  }

  lemma DecimalOfDigit(c: char)
    requires Digit(c)
    ensures Number([c]) == c as int - '0' as int && Decimal(Number([c])) == [c]
  {
    assert [c][..0] == "" && Digit([c][0]);
    assert "0123456789"[c as int - '0' as int] == c;
  }

  lemma DecimalStep(s: string, c: char)
    requires Digit(c) && forall x :: x in s ==> Digit(x)
    requires Number(s) > 0
    ensures Number(s + [c]) > 0 && Decimal(Number(s + [c])) == Decimal(Number(s)) + [c]
  {
    DecimalOfDigit(c);
    assert (s + [c])[..|s|] == s && (s + [c])[|s|] == c;
    assert Number(s + [c]) / 10 == Number(s);
  }

  /** Digits without a leading zero are the canonical text of their number. */
  lemma {:induction false} DecimalOfNumber(s: string)
    requires Digits(s) && s[0] != '0'
    ensures Number(s) > 0 && Decimal(Number(s)) == s
  {
    var n, d := |s| - 1, s[|s| - 1];
    assert d in s && s == s[..n] + [d];
    if n > 0 {
      assert forall c :: c in s[..n] ==> c in s;
      DecimalOfNumber(s[..n]);
      DecimalStep(s[..n], d);
    } else {
      assert s == [d];
      DecimalOfDigit(d);
    }
  }

  lemma {:induction false} DecimalBegins(n: nat)
    requires n > 0
    ensures Decimal(n)[0] != '0'
  {
    if n >= 10 { DecimalBegins(n / 10); }
  }

  /** More digits in front never lower a number, and zeros do not change it. */
  lemma {:induction false} NumberOfSuffix(a: string, b: string)
    requires forall c :: c in a + b ==> Digit(c)
    ensures forall c :: c in b ==> Digit(c)
    ensures Number(b) <= Number(a + b)
    ensures a == "0" ==> Number(a + b) == Number(b)
    decreases |b|
  {
    assert forall c :: c in b ==> c in a + b;
    if b == "" {
      assert a + b == a;
      assert a == "0" ==> a[..0] == "";
    } else {
      var n := |b| - 1;
      assert (a + b)[..|a + b| - 1] == a + b[..n];
      assert forall c :: c in a + b[..n] ==> c in a + b;
      NumberOfSuffix(a, b[..n]);
    }
  }

  lemma DecimalLength(n: nat)
    requires n < 100_000
    ensures |Decimal(n)| <= 5
    ensures n >= 10_000 ==> |Decimal(n)| == 5
  {
    var a := n / 10;
    var b := a / 10;
    var c := b / 10;
    assert c / 10 < 10;
    assert |Decimal(c)| <= 2 && (c >= 10 ==> |Decimal(c)| == 2);
    assert |Decimal(b)| <= 3 && (b >= 100 ==> |Decimal(b)| == 3);
    assert |Decimal(a)| <= 4 && (a >= 1000 ==> |Decimal(a)| == 4);
  }

  /** strconv.FormatInt in base 10. */
  function FormatInt(n: int): string {
    if n < 0 then "-" + Decimal(-n) else Decimal(n)
  }

  // ----- Rendering ---------------------------------------------------------

  function RenderOne(c: Component): string {
    "/" + c.name + (if c.value.Some? then "/" + c.value.value else "")
  }

  function Render(cs: seq<Component>): string {
    if cs == [] then "" else RenderOne(cs[0]) + Render(cs[1..])
  }

  predicate IsPort(name: string) { name == "tcp" || name == "udp" }

  /** Written as the grammar asks, with each value on one level and the ports
      in digits; the numbers need not be ports. */
  predicate Structured(table: Table, c: Component) {
    && NameOk(c.name)
    && (c.value.Some? ==> NoSlash(c.value.value))
    && if IsPort(c.name) then c.value.Some? && Digits(c.value.value)
       else if table(c.name).Bare? then c.value.None?
       else table(c.name).Valued? && c.value.Some?
  }

  /** And accepted by the library. */
  predicate Accepted(table: Table, c: Component)
    requires Structured(table, c)
  {
    if IsPort(c.name) then Number(c.value.value) < 0x1_0000
    else table(c.name).Valued? ==> table(c.name).valid(c.value.value)
  }

  predicate AllStructured(table: Table, cs: seq<Component>) {
    forall c :: c in cs ==> Structured(table, c)
  }

  predicate AllAccepted(table: Table, cs: seq<Component>)
    requires AllStructured(table, cs)
  {
    forall c :: c in cs ==> Accepted(table, c)
  }

  // ----- Parsing -----------------------------------------------------------

  /** The text up to the next slash. */
  function Word(s: string): (w: string)
    ensures NoSlash(w) && w <= s && Tail(s[|w|..])
  {
    if Tail(s) then "" else [s[0]] + Word(s[1..])
  }

  /** The components of a text, or None where the library reports an error. */
  function Parse(table: Table, s: string): Option<seq<Component>>
  {
    if s == "" then None else ParseTail(table, s)
  }

  function ParseTail(table: Table, s: string): Option<seq<Component>>
    decreases |s|, 0
  {
    if s == "" then Some([])
    else if s[0] != '/' then None
    else
      var name := Word(s[1..]);
      ParseValue(table, name, s[1 + |name|..])
  }

  /** A name was read; `rest` follows it. */
  function ParseValue(table: Table, name: string, rest: string): Option<seq<Component>>
    requires Tail(rest)
    decreases |rest|, 1
  {
    var bare := Component(name, None);
    if Structured(table, bare) then Prepend(bare, ParseTail(table, rest))
    else if rest == "" then None
    else
      var value := Word(rest[1..]);
      var c := Component(name, Some(value));
      if Structured(table, c) && Accepted(table, c)
      then Prepend(c, ParseTail(table, rest[1 + |value|..]))
      else None
  }

  function Prepend(c: Component, cs: Option<seq<Component>>): Option<seq<Component>> {
    if cs.None? then None else Some([c] + cs.value)
  }

  lemma {:induction false} WordOfConcat(w: string, t: string)
    requires NoSlash(w) && Tail(t)
    ensures Word(w + t) == w
  {
    if w == "" {
      assert w + t == t;
    } else {
      assert (w + t)[1..] == w[1..] + t;
      WordOfConcat(w[1..], t);
    }
  }

  lemma RenderIsTail(cs: seq<Component>)
    ensures Tail(Render(cs)) && (cs != [] ==> Render(cs) != "")
  {}

  lemma ParseName(name: string, t: string)
    requires NoSlash(name) && Tail(t)
    ensures var s := "/" + name + t; Word(s[1..]) == name && s[1 + |name|..] == t && s[0] == '/'
  {
    var s := "/" + name + t;
    assert s[1..] == name + t;
    WordOfConcat(name, t);
  }

  lemma ParseHead(table: Table, name: string, t: string)
    requires NoSlash(name) && Tail(t)
    ensures ParseTail(table, "/" + name + t) == ParseValue(table, name, t)
  {
    ParseName(name, t);
  }

  lemma ParseBare(table: Table, c: Component, t: string)
    requires Structured(table, c) && c.value.None? && Tail(t)
    ensures ParseTail(table, RenderOne(c) + t) == Prepend(c, ParseTail(table, t))
  {
    ParseHead(table, c.name, t);
    assert RenderOne(c) + t == "/" + c.name + t;
  }

  lemma ParseSecond(table: Table, c: Component, t: string)
    requires Structured(table, c) && c.value.Some? && Tail(t)
    ensures ParseValue(table, c.name, "/" + c.value.value + t)
         == if Accepted(table, c) then Prepend(c, ParseTail(table, t)) else None
  {
    ParseName(c.value.value, t);
  }

  lemma ParseValued(table: Table, c: Component, t: string)
    requires Structured(table, c) && c.value.Some? && Tail(t)
    ensures ParseTail(table, RenderOne(c) + t)
         == if Accepted(table, c) then Prepend(c, ParseTail(table, t)) else None
  {
    var u := "/" + c.value.value + t;
    ParseHead(table, c.name, u);
    ParseSecond(table, c, t);
    assert RenderOne(c) + t == "/" + c.name + u;
  }

  lemma RenderStep(cs: seq<Component>)
    requires cs != []
    ensures Render(cs) == RenderOne(cs[0]) + Render(cs[1..])
  {}

  /** Parsing what was rendered gives the components back, if the library takes
      each of them, and an error otherwise. */
  lemma {:induction false} ParseRenderTail(table: Table, cs: seq<Component>)
    requires AllStructured(table, cs)
    ensures ParseTail(table, Render(cs)) == if AllAccepted(table, cs) then Some(cs) else None
  {
    if cs != [] {
      var c, rest := cs[0], cs[1..];
      assert c in cs && Structured(table, c);
      ParseRenderTail(table, rest);
      RenderIsTail(rest);
      RenderStep(cs);
      if c.value.None? { ParseBare(table, c, Render(rest)); } else { ParseValued(table, c, Render(rest)); }
      assert forall x :: x in cs <==> x == c || x in rest;
      assert cs == [c] + rest;
    }
  }

  lemma ParseRender(table: Table, cs: seq<Component>)
    requires AllStructured(table, cs)
    ensures Parse(table, Render(cs)) == if cs != [] && AllAccepted(table, cs) then Some(cs) else None
  {
    ParseRenderTail(table, cs);
    RenderIsTail(cs);
  }

  lemma FirstRenders(table: Table, c: Component, cs: seq<Component>)
    requires Structured(table, c) && Accepted(table, c) && AllStructured(table, cs) && AllAccepted(table, cs)
    ensures AllStructured(table, [c] + cs) && AllAccepted(table, [c] + cs)
    ensures Render([c] + cs) == RenderOne(c) + Render(cs)
  {
    assert ([c] + cs)[1..] == cs;
  }

  lemma SplitRest(s: string)
    requires s != "" && s[0] == '/'
    ensures var w := Word(s[1..]); s == "/" + w + s[1 + |w|..]
  {
    var w := Word(s[1..]);
    assert s[1..] == w + s[1..][|w|..];
    assert s[1..][|w|..] == s[1 + |w|..];
  }

  lemma ValuedText(name: string, value: string, more: string)
    ensures "/" + name + ("/" + value + more) == RenderOne(Component(name, Some(value))) + more
  {}

  ghost predicate RendersBack(table: Table, s: string, cs: seq<Component>) {
    AllStructured(table, cs) && AllAccepted(table, cs) && Render(cs) == s
  }

  lemma BareRenders(table: Table, name: string, rest: string, cs: seq<Component>)
    requires Structured(table, Component(name, None)) && RendersBack(table, rest, cs)
    ensures RendersBack(table, "/" + name + rest, [Component(name, None)] + cs)
  {
    FirstRenders(table, Component(name, None), cs);
  }

  lemma ValuedRenders(table: Table, name: string, value: string, more: string, cs: seq<Component>)
    requires Structured(table, Component(name, Some(value))) && Accepted(table, Component(name, Some(value)))
    requires RendersBack(table, more, cs)
    ensures RendersBack(table, "/" + name + ("/" + value + more), [Component(name, Some(value))] + cs)
  {
    FirstRenders(table, Component(name, Some(value)), cs);
    ValuedText(name, value, more);
  }

  ghost predicate ParsesBack(table: Table, s: string, r: Option<seq<Component>>) {
    r.Some? ==> RendersBack(table, s, r.value)
  }

  lemma {:induction false} ParsedTailRenders(table: Table, s: string)
    ensures ParsesBack(table, s, ParseTail(table, s))
    decreases |s|, 1
  {
    if s != "" && s[0] == '/' {
      SplitRest(s);
      var name := Word(s[1..]);
      ParsedValueRenders(table, name, s[1 + |name|..]);
    }
  }

  lemma {:induction false} ParsedValueRenders(table: Table, name: string, rest: string)
    requires Tail(rest)
    ensures ParsesBack(table, "/" + name + rest, ParseValue(table, name, rest))
    decreases |rest|, 2
  {
    if Structured(table, Component(name, None)) {
      ParsedTailRenders(table, rest);
      if ParseTail(table, rest).Some? { BareRenders(table, name, rest, ParseTail(table, rest).value); }
    } else if rest != "" {
      SplitRest(rest);
      var value := Word(rest[1..]);
      var more := rest[1 + |value|..];
      ParsedTailRenders(table, more);
      if ParseValue(table, name, rest).Some? {
        ValuedRenders(table, name, value, more, ParseTail(table, more).value);
      }
    }
  }

  /** The texts that parse are exactly the renderings of accepted components,
      and each parses to what it renders. */
  lemma ParseIsExact(table: Table, s: string, cs: seq<Component>)
    ensures Parse(table, s) == Some(cs) <==>
            cs != [] && AllStructured(table, cs) && AllAccepted(table, cs) && s == Render(cs)
  {
    if Parse(table, s) == Some(cs) {
      ParsedTailRenders(table, s);
    } else if cs != [] && AllStructured(table, cs) && AllAccepted(table, cs) && s == Render(cs) {
      ParseRender(table, cs);
    }
  }

  lemma DropPrefix(h: string, a: string, b: string)
    requires h + a == h + b
    ensures a == b
  {
    assert (h + a)[|h|..] == a && (h + b)[|h|..] == b;
  }

  lemma SplitAtTail(v: string, t: string, w: string, u: string)
    requires NoSlash(v) && NoSlash(w) && Tail(t) && Tail(u) && v + t == w + u
    ensures v == w && t == u
  {
    WordOfConcat(v, t);
    WordOfConcat(w, u);
    DropPrefix(v, t, u);
  }

  ghost predicate SameShape(c: Component, d: Component) {
    && c.name == d.name && c.value.Some? == d.value.Some?
    && (c.value.Some? ==> NoSlash(c.value.value) && NoSlash(d.value.value))
  }

  lemma RenderOneInjective(c: Component, t: string, d: Component, u: string)
    requires SameShape(c, d) && Tail(t) && Tail(u) && RenderOne(c) + t == RenderOne(d) + u
    ensures c == d && t == u
  {
    if c.value.Some? {
      var h := "/" + c.name + "/";
      assert RenderOne(c) + t == h + (c.value.value + t);
      assert RenderOne(d) + u == h + (d.value.value + u);
      DropPrefix(h, c.value.value + t, d.value.value + u);
      SplitAtTail(c.value.value, t, d.value.value, u);
    } else {
      DropPrefix(RenderOne(c), t, u);
    }
  }

  /** Two renderings agree only if the components do, when the names do. */
  lemma {:induction false} RenderInjective(cs: seq<Component>, ds: seq<Component>)
    requires |cs| == |ds| && forall k :: 0 <= k < |cs| ==> SameShape(cs[k], ds[k])
    requires Render(cs) == Render(ds)
    ensures cs == ds
  {
    if cs != [] {
      RenderIsTail(cs[1..]);
      RenderIsTail(ds[1..]);
      RenderOneInjective(cs[0], Render(cs[1..]), ds[0], Render(ds[1..]));
      RenderInjective(cs[1..], ds[1..]);
      assert cs == [cs[0]] + cs[1..] && ds == [ds[0]] + ds[1..];
    }
  }

  lemma RenderDiffers(cs: seq<Component>, ds: seq<Component>)
    requires |cs| == |ds| && forall k :: 0 <= k < |cs| ==> SameShape(cs[k], ds[k])
    requires cs != ds
    ensures Render(cs) != Render(ds)
  {
    if Render(cs) == Render(ds) { RenderInjective(cs, ds); }
  }
}
