/** What each condition the simulator models asks of the packet, key by key
    (internal/simulate/match.go:84-128), and what the values of a condition stand for. */
module Conditions {
  import opened Wrappers
  import opened Addresses
  import opened Strings
  import opened Model
  import opened Matching

  // ── Values ────────────────────────────────────────────────────────────────

  /** An address, the addresses of a block, or those between two of one family. */
  predicate Names(l: Literal, a: Addr) {
    match l
    case Host(h) => a == h
    case Cidr(net, bits) => bits <= Width(net.fam) && Contains(Prefix(net, bits), a)
    case Span(lo, hi) => InSpan(lo, hi, a)
    case _ => false
  }

  // Ordered by family first; within one family by number.
  predicate InSpan(lo: Addr, hi: Addr, a: Addr) {
    && (if lo.fam == a.fam then lo.val <= a.val else lo.fam.V4?)
    && (if hi.fam == a.fam then a.val <= hi.val else hi.fam.V6?)
  }

  predicate IsAddressValue(l: Literal) {
    l.Host? || l.Span? || (l.Cidr? && l.bits <= Width(l.net.fam))
  }

  /** The first declared set of the name. */
  predicate IsSet(sets: seq<SetDef>, name: string, i: int) {
    0 <= i < |sets| && sets[i].name == name && forall j :: 0 <= j < i ==> sets[j].name != name
  }

  predicate Declared(sets: seq<SetDef>, name: string) {
    exists d :: d in sets && d.name == name
  }

  /** A token covers the address: a set reference by some element of the set, any other by itself. */
  ghost predicate Hits(sets: seq<SetDef>, tok: Token, a: Addr) {
    if tok.text != "" && tok.text[0] == '@' then
      exists i, l :: IsSet(sets, tok.text[1..], i) && l in sets[i].elements && Names(l, a)
    else Names(tok.lit, a)
  }

  /** And can be told at all: the set is declared, or the token reads as an address value. */
  predicate Tells(sets: seq<SetDef>, tok: Token) {
    if tok.text != "" && tok.text[0] == '@' then Declared(sets, tok.text[1..]) else IsAddressValue(tok.lit)
  }

  lemma {:induction false} LiteralRead(l: Literal, a: Addr)
    ensures AddrTokenContains(l, a) == if !IsAddressValue(l) then Unknown else Is(Names(l, a))
  {
    hide Contains;
  }

  lemma {:induction false} ElementsRead(els: seq<Literal>, a: Addr)
    ensures ElementsContain(els, a) == Is(exists l :: l in els && Names(l, a))
  {
    hide Names;
    if els != [] {
      ElementsRead(els[1..], a);
      LiteralRead(els[0], a);
      if !IsAddressValue(els[0]) {
        NotAValue(els[0], a);
      }
      assert els == [els[0]] + els[1..];
    }
  }

  lemma NotAValue(l: Literal, a: Addr)
    requires !IsAddressValue(l)
    ensures !Names(l, a)
  {}

  lemma {:induction false} SetRead(sets: seq<SetDef>, name: string, a: Addr)
    ensures !Declared(sets, name) ==> SetContains(sets, name, a).Unknown?
    ensures Declared(sets, name) ==> exists i :: IsSet(sets, name, i) && SetContains(sets, name, a) == Is(exists l :: l in sets[i].elements && Names(l, a))
  {
    hide Names, ElementsContain;
    if sets != [] {
      assert sets == [sets[0]] + sets[1..] && sets[0] in sets;
      if sets[0].name == name {
        ElementsRead(sets[0].elements, a);
        assert IsSet(sets, name, 0);
      } else {
        SetRead(sets[1..], name, a);
        if Declared(sets[1..], name) {
          var i :| IsSet(sets[1..], name, i) && SetContains(sets[1..], name, a) == Is(exists l :: l in sets[1..][i].elements && Names(l, a));
          SetLater(sets, name, i);
        }
      }
    }
  }

  lemma SetLater(sets: seq<SetDef>, name: string, i: int)
    requires sets != [] && sets[0].name != name && IsSet(sets[1..], name, i)
    ensures IsSet(sets, name, i + 1) && sets[i + 1] == sets[1..][i]
  {
    forall j | 0 <= j < i + 1 ensures sets[j].name != name {
      if j > 0 {
        assert sets[j] == sets[1..][j - 1];
      }
    }
  }

  lemma OneSet(sets: seq<SetDef>, name: string, i: int, j: int)
    requires IsSet(sets, name, i) && IsSet(sets, name, j)
    ensures i == j
  {}

  lemma TokenRead(sets: seq<SetDef>, tok: Token, a: Addr)
    ensures TokenContains(tok, a, sets) == if !Tells(sets, tok) then Unknown else Is(Hits(sets, tok, a))
  {
    hide Names, SetContains, Declared;
    LiteralRead(tok.lit, a);
    if HasAt(tok.text) {
      var name := tok.text[1..];
      SetRead(sets, name, a);
      if Declared(sets, name) {
        var i :| IsSet(sets, name, i) && SetContains(sets, name, a) == Is(exists l :: l in sets[i].elements && Names(l, a));
        if Hits(sets, tok, a) {
          var j, l :| IsSet(sets, name, j) && l in sets[j].elements && Names(l, a);
          OneSet(sets, name, i, j);
        }
      }
    }
  }

  /** A list of values: the first one that covers the address or cannot be told decides. */
  ghost predicate ReadsList(sets: seq<SetDef>, value: seq<Token>, a: Addr, t: Tri) {
    match t
    case No => forall tok :: tok in value ==> Tells(sets, tok) && !Hits(sets, tok, a)
    case Yes => exists k :: 0 <= k < |value| && Decides(sets, value, a, k) && Tells(sets, value[k])
    case Unknown => exists k :: 0 <= k < |value| && Decides(sets, value, a, k) && !Tells(sets, value[k])
  }

  ghost predicate Decides(sets: seq<SetDef>, value: seq<Token>, a: Addr, k: nat)
    requires k < |value|
  {
    && (Tells(sets, value[k]) ==> Hits(sets, value[k], a))
    && forall j :: 0 <= j < k ==> Tells(sets, value[j]) && !Hits(sets, value[j], a)
  }

  lemma {:induction false} ListRead(sets: seq<SetDef>, value: seq<Token>, a: Addr)
    ensures ReadsList(sets, value, a, AddrInValue(a, value, sets))
  {
    hide TokenContains, Hits, Tells;
    if value != [] {
      TokenRead(sets, value[0], a);
      var rest := value[1..];
      assert value == [value[0]] + rest;
      if TokenContains(value[0], a, sets).No? {
        ListRead(sets, rest, a);
        var t := AddrInValue(a, rest, sets);
        if !t.No? {
          var k :| 0 <= k < |rest| && Decides(sets, rest, a, k) && (t.Yes? <==> Tells(sets, rest[k]));
          assert forall j :: 0 < j < |value| ==> value[j] == rest[j - 1];
          assert Decides(sets, value, a, k + 1);
        }
      } else {
        assert Decides(sets, value, a, 0);
      }
    }
  }

  // ── Interfaces ────────────────────────────────────────────────────────────

  predicate Quotes(s: string) {
    forall c :: c in s ==> c == '"'
  }

  /** The token is the name, in quotes or not. */
  ghost predicate IsQuoted(text: string, name: string) {
    && (name != "" ==> name[0] != '"' && name[|name| - 1] != '"')
    && exists before, after :: text == before + name + after && Quotes(before) && Quotes(after)
  }

  lemma {:induction false} UnquotedEnds(text: string)
    ensures var n := Unquoted(text); n != "" ==> n[0] != '"' && n[|n| - 1] != '"'
    decreases |text|
  {
    if text != "" && text[0] == '"' {
      UnquotedEnds(text[1..]);
    } else if text != "" && text[|text| - 1] == '"' {
      UnquotedEnds(text[..|text| - 1]);
    }
  }

  lemma QuotesGrow(s: string)
    requires Quotes(s)
    ensures Quotes(['"'] + s) && Quotes(s + ['"']) && Quotes("")
  {}

  lemma {:induction false} QuotesOff(text: string) returns (before: string, after: string)
    ensures text == before + Unquoted(text) + after && Quotes(before) && Quotes(after)
    decreases |text|
  {
    hide Quotes;
    NoQuotes();
    before, after := "", "";
    if text != "" && text[0] == '"' {
      before, after := QuotesOff(text[1..]);
      QuotesGrow(before);
      assert text == ['"'] + text[1..];
      before := ['"'] + before;
    } else if text != "" && text[|text| - 1] == '"' {
      before, after := QuotesOff(text[..|text| - 1]);
      QuotesGrow(after);
      assert text == text[..|text| - 1] + ['"'];
      after := after + ['"'];
    }
  }

  lemma NoQuotes()
    ensures Quotes("")
  {}

  lemma UnquotedRead(text: string)
    ensures IsQuoted(text, Unquoted(text))
  {
    hide Quotes, Unquoted;
    UnquotedEnds(text);
    var before, after := QuotesOff(text);
  }

  lemma QuotesParts(s: string, i: nat)
    requires Quotes(s) && i <= |s|
    ensures Quotes(s[..i]) && Quotes(s[i..])
    ensures forall k :: 0 <= k < |s| ==> s[k] == '"'
  {
    forall k | 0 <= k < |s| ensures s[k] == '"' {
      assert s[k] in s;
    }
  }

  lemma {:induction false} UnquotedExactly(text: string, before: string, name: string, after: string)
    requires text == before + name + after
    requires name != "" && name[0] != '"' && name[|name| - 1] != '"' && Quotes(before) && Quotes(after)
    ensures Unquoted(text) == name
    decreases |text|
  {
    hide Quotes;
    if before != "" {
      QuotesParts(before, 1);
      assert text[0] == '"' && text[1..] == before[1..] + name + after;
      UnquotedExactly(text[1..], before[1..], name, after);
    } else if after != "" {
      var n := |after| - 1;
      QuotesParts(after, n);
      assert text[0] == name[0] && text[|text| - 1] == '"' && text[..|text| - 1] == before + name + after[..n];
      UnquotedExactly(text[..|text| - 1], before, name, after[..n]);
    } else {
      assert text == name;
    }
  }

  lemma QuotedIsUnquoted(text: string, name: string)
    requires IsQuoted(text, name) && name != ""
    ensures Unquoted(text) == name
  {
    var before, after :| text == before + name + after && Quotes(before) && Quotes(after);
    UnquotedExactly(text, before, name, after);
  }

  // ── Conditions, key by key ────────────────────────────────────────────────

  // The answer of a yes-or-no value test under the condition's operator.
  ghost predicate Answers(t: Tri, hit: bool, op: string) {
    t == if op == "!=" then (if hit then No else Yes) else if hit then Yes else No
  }

  /** An unspecified address is undecided, one of the other family fails whatever the operator; else
      the values decide, flipped by `!=`. */
  ghost predicate ReadsAddress(sets: seq<SetDef>, field: Option<Addr>, fam: Family, m: Match, t: Tri) {
    match field
    case None => t == Unknown
    case Some(a) =>
      if a.fam != fam then t == No
      else
        exists v :: ReadsList(sets, m.value, a, v) && t == match v
          case Unknown => Unknown
          case Yes => if m.op == "!=" then No else Yes
          case No => if m.op == "!=" then Yes else No
  }

  /** A port condition: the protocol is a gate of its own; then a comparison with the one number of the
      value, or membership in its numbers and ranges, flipped by `!=`. */
  ghost predicate ReadsPort(packetProto: string, proto: string, port: nat, m: Match, t: Tri) {
    if packetProto == "" || port == 0 then t == Unknown
    else if packetProto != proto then t == No
    else if m.op in {"<", ">", "<=", ">="} then
      match m.number
      case None => t == Unknown
      case Some(n) =>
        && (m.op == "<" ==> t == if port < n then Yes else No)
        && (m.op == ">" ==> t == if port > n then Yes else No)
        && (m.op == "<=" ==> t == if port <= n then Yes else No)
        && (m.op == ">=" ==> t == if port >= n then Yes else No)
    else
      Answers(
        t,
        exists tok :: tok in m.value &&
          ((tok.lit.Number? && tok.lit.n == port) || (tok.lit.NumberRange? && tok.lit.first <= port <= tok.lit.last)),
        m.op)
  }

  /** A word: undecided when the packet does not specify it, else one of the tokens, flipped by `!=`. */
  ghost predicate ReadsWord(field: string, m: Match, t: Tri) {
    if field == "" then t == Unknown else Answers(t, exists tok :: tok in m.value && tok.text == field, m.op)
  }

  ghost predicate ReadsInterface(field: string, m: Match, t: Tri) {
    if field == "" then t == Unknown else Answers(t, exists tok :: tok in m.value && IsQuoted(tok.text, field), m.op)
  }

  const MODELLED := {
    "meta.iifname", "meta.oifname", "ip.saddr", "ip.daddr", "ip6.saddr", "ip6.daddr", "meta.l4proto",
    "tcp.dport", "tcp.sport", "udp.dport", "udp.sport", "ct.state"}

  lemma AddressRead(sets: seq<SetDef>, field: Option<Addr>, fam: Family, m: Match)
    ensures ReadsAddress(sets, field, fam, m, AddrMatch(sets, field, fam, m))
  {
    hide ReadsList, AddrInValue;
    if field.Some? {
      ListRead(sets, m.value, field.value);
      assert ReadsList(sets, m.value, field.value, AddrInValue(field.value, m.value, sets));
    }
  }

  lemma PortRead(packetProto: string, proto: string, port: nat, m: Match)
    ensures ReadsPort(packetProto, proto, port, m, PortMatch(packetProto, proto, port, m))
  {
    forall tok | tok in m.value
      ensures PortHit(tok, port) <==>
                (tok.lit.Number? && tok.lit.n == port) || (tok.lit.NumberRange? && tok.lit.first <= port <= tok.lit.last)
    {}
  }

  lemma InterfaceRead(field: string, value: seq<Token>)
    requires field != ""
    ensures IfaceIn(field, value) <==> exists tok :: tok in value && IsQuoted(tok.text, field)
  {
    hide IsQuoted, Unquoted;
    forall tok | tok in value ensures Unquoted(tok.text) == field <==> IsQuoted(tok.text, field) {
      UnquotedRead(tok.text);
      if IsQuoted(tok.text, field) {
        QuotedIsUnquoted(tok.text, field);
      }
    }
  }

  /** The four address conditions: source or destination, by the family of the key. */
  lemma AddressConditions(sets: seq<SetDef>, p: Packet, m: Match)
    ensures m.key == "ip.saddr" ==> ReadsAddress(sets, p.src, V4, m, MatchOne(sets, p, m))
    ensures m.key == "ip.daddr" ==> ReadsAddress(sets, p.dst, V4, m, MatchOne(sets, p, m))
    ensures m.key == "ip6.saddr" ==> ReadsAddress(sets, p.src, V6, m, MatchOne(sets, p, m))
    ensures m.key == "ip6.daddr" ==> ReadsAddress(sets, p.dst, V6, m, MatchOne(sets, p, m))
  {
    hide ReadsAddress, AddrMatch;
    AddressRead(sets, p.src, V4, m);
    AddressRead(sets, p.dst, V4, m);
    AddressRead(sets, p.src, V6, m);
    AddressRead(sets, p.dst, V6, m);
  }

  /** The four port conditions. */
  lemma PortConditions(sets: seq<SetDef>, p: Packet, m: Match)
    ensures m.key == "tcp.sport" ==> ReadsPort(p.proto, "tcp", p.sport, m, MatchOne(sets, p, m))
    ensures m.key == "tcp.dport" ==> ReadsPort(p.proto, "tcp", p.dport, m, MatchOne(sets, p, m))
    ensures m.key == "udp.sport" ==> ReadsPort(p.proto, "udp", p.sport, m, MatchOne(sets, p, m))
    ensures m.key == "udp.dport" ==> ReadsPort(p.proto, "udp", p.dport, m, MatchOne(sets, p, m))
  {
    hide ReadsPort, PortMatch;
    PortRead(p.proto, "tcp", p.sport, m);
    PortRead(p.proto, "tcp", p.dport, m);
    PortRead(p.proto, "udp", p.sport, m);
    PortRead(p.proto, "udp", p.dport, m);
  }

  /** The interfaces, the protocol and the connection state; and any other key is undecided. */
  lemma OtherConditions(sets: seq<SetDef>, p: Packet, m: Match)
    ensures m.key == "meta.iifname" ==> ReadsInterface(p.iif, m, MatchOne(sets, p, m))
    ensures m.key == "meta.oifname" ==> ReadsInterface(p.oif, m, MatchOne(sets, p, m))
    ensures m.key == "meta.l4proto" ==> ReadsWord(p.proto, m, MatchOne(sets, p, m))
    ensures m.key == "ct.state" ==> ReadsWord(p.ctState, m, MatchOne(sets, p, m))
    ensures m.key !in MODELLED ==> MatchOne(sets, p, m) == Unknown
  {
    hide IfaceIn, IsQuoted;
    if p.iif != "" {
      InterfaceRead(p.iif, m.value);
    }
    if p.oif != "" {
      InterfaceRead(p.oif, m.value);
    }
  }

  /** For instance `ip daddr b`: yes exactly when the packet goes to b, wherever it comes from. */
  lemma DestinationIsHost(sets: seq<SetDef>, p: Packet, b: Addr, tok: Token)
    requires b.fam.V4? && tok.lit == Host(b) && !HasAt(tok.text)
    ensures MatchOne(sets, p, Match("ip.daddr", "==", [tok], None)).Yes? <==> p.dst == Some(b)
    ensures MatchOne(sets, p, Match("ip.daddr", "!=", [tok], None)).Yes? <==> p.dst.Some? && p.dst.value.fam.V4? && p.dst.value != b
  {
    hide MatchOne;
    AddressConditions(sets, p, Match("ip.daddr", "==", [tok], None));
    AddressConditions(sets, p, Match("ip.daddr", "!=", [tok], None));
    if p.dst.Some? {
      assert [tok][0] == tok && Hits(sets, tok, p.dst.value) == (p.dst.value == b) && Tells(sets, tok);
    }
  }

  /** A rule holds when all of its conditions do and fails when one of them fails, whatever cannot be
      decided beside it; else it is undecided. */
  lemma {:induction false} RuleReadExactly(sets: seq<SetDef>, p: Packet, ms: seq<Match>)
    ensures MatchRule(sets, p, ms).Yes? <==> forall m :: m in ms ==> MatchOne(sets, p, m).Yes?
    ensures MatchRule(sets, p, ms).No? <==> exists m :: m in ms && MatchOne(sets, p, m).No?
  {
    hide MatchOne;
    if ms != [] {
      RuleReadExactly(sets, p, ms[1..]);
      assert ms == [ms[0]] + ms[1..] && ms[0] in ms;
    }
  }
}
