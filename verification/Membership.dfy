/** From a list's input to the simulator's answer, end to end. */
module Membership {
  import opened Wrappers
  import opened Addresses
  import opened Strings
  import opened Model
  import opened Lists
  import opened Sets
  import opened Render
  import opened ListSync
  import opened Matching

  // A full-length prefix contains one address.
  lemma SingleAddress(h: Addr, a: Addr)
    requires ValidAddr(h)
    ensures Contains(Prefix(h, Width(h.fam)), a) <==> a == h
  {
    assert Size(Prefix(h, Width(h.fam))) == 1;
  }

  /** A canonical element reads as a hit exactly for the addresses of its prefix. */
  lemma ElementHit(p: Prefix, a: Addr)
    requires ValidPrefix(p)
    ensures AddrTokenContains(PrefixLiteral(p), a) == Is(Contains(p, a))
  {
    if p.bits == Width(p.addr.fam) {
      SingleAddress(p.addr, a);
    }
  }

  lemma {:induction false} ElementsHit(els: seq<Literal>, a: Addr)
    ensures ElementsContain(els, a).Yes? <==> exists l :: l in els && AddrTokenContains(l, a).Yes?
  {
    if els != [] {
      ElementsHit(els[1..], a);
      assert els == [els[0]] + els[1..];
    }
  }

  lemma {:induction false} ElementsDefinite(els: seq<Literal>, a: Addr)
    ensures !ElementsContain(els, a).Unknown?
  {
    if els != [] {
      ElementsDefinite(els[1..], a);
    }
  }

  /** The source-address condition on one set name reads the set, and nothing else. */
  lemma SetReferenceReads(sets: seq<SetDef>, p: Packet, a: Addr, tok: Token)
    requires p.src == Some(a) && HasAt(tok.text)
    ensures MatchOne(sets, p, Match(if a.fam.V4? then "ip.saddr" else "ip6.saddr", "==", [tok], None)) ==
              SetContains(sets, tok.text[1..], a)
  {
    hide SetContains, Contains;
    assert [tok][1..] == [];
    assert AddrInValue(a, [tok], sets) == SetContains(sets, tok.text[1..], a);
    if a.fam.V4? {
      assert FieldOf("ip.saddr") == Address(true, V4);
    } else {
      assert FieldOf("ip6.saddr") == Address(true, V6);
    }
  }

  lemma {:induction false} SetFound(sets: seq<SetDef>, d: SetDef, a: Addr)
    requires DistinctSets(sets) && d in sets
    ensures SetContains(sets, d.name, a) == ElementsContain(d.elements, a)
  {
    if sets[0] != d {
      var i :| 0 <= i < |sets| && sets[i] == d;
      assert d in sets[1..];
      SetFound(sets[1..], d, a);
    }
  }

  // The elements of a half of a freshly replaced list, and what they cover.
  lemma HalfCovers(cidrs: seq<Literal>, listId: nat, nextId: nat, fam: Family, a: Addr)
    requires a.fam == fam
    ensures ElementsContain(SplitFamily(NewRows(Dedupe(cidrs), listId, nextId), fam), a).Yes? <==>
              exists p :: p in Admitted(cidrs) && Contains(p, a)
  {
    hide Contains, SplitFamily, ElementsContain, AddrTokenContains, PrefixLiteral, EntryPrefix;
    var rows := NewRows(Dedupe(cidrs), listId, nextId);
    var els := SplitFamily(rows, fam);
    var k := Kept(cidrs);
    ElementsHit(els, a);
    KeptCoverage(cidrs, a);
    if l :| l in els && AddrTokenContains(l, a).Yes? {
      SplitFamilyContent(rows, fam, l);
      var e :| e in rows && e.cidr == l;
      var i :| 0 <= i < |rows| && rows[i] == e;
      assert k[i] in k;
      ElementHit(k[i], a);
    }
    if q :| q in k && Contains(q, a) {
      var i :| 0 <= i < |k| && k[i] == q;
      ElementHit(q, a);
      DedupeCanonical(cidrs, i);
      ContainedFamily(q, a);
      assert rows[i] in rows;
      SplitFamilyContent(rows, fam, PrefixLiteral(q));
    }
  }

  lemma ContainedFamily(q: Prefix, a: Addr)
    requires Contains(q, a)
    ensures q.addr.fam == a.fam
  {}

  /** The table uses the half of the list: an enabled rule references it, and no ban set claims
      its name. */
  predicate Uses(t: Table, listName: string, fam: Family) {
    SetName(listName, fam) in ReferencedNames(t) && !DeclaresDyn(DynDefs(t), SetName(listName, fam))
  }

  lemma ResolvedHalf(t: Table, lists: seq<NamedList>, i: nat, fam: Family)
    requires DistinctLists(lists) && i < |lists| && Uses(t, lists[i].name, fam)
    ensures SetDef(SetName(lists[i].name, fam), fam, SplitFamily(lists[i].entries, fam)) in Loaded(t, lists).sets
  {
    hide SplitFamily;
    var n := SetName(lists[i].name, fam);
    ByNameAt(lists, i);
    SuffixOf(lists[i].name, n);
    SetDefsContent(SortedNames(ReferencedNames(t)), DynDefs(t), ByName(lists), SetDef(n, fam, SplitFamily(lists[i].entries, fam)));
  }

  /** End to end: replace a list from any input, resolve it into a table that uses it, and the
      condition `ip saddr @list4` (or `ip6 saddr @list6`) holds for a packet's address exactly when
      some admitted prefix of the input contains that address; it is never undecided. */
  lemma ReferencedListDecides(
    t: Table, lists: seq<NamedList>, i: nat, s: Rows, allLists: set<nat>, listId: nat, cidrs: seq<Literal>, p: Packet, a: Addr, tok: Token)
    requires DistinctLists(lists) && i < |lists|
    requires lists[i].entries == EntriesOf(Apply(allLists, s, ReplaceRows(listId, cidrs)).entries, listId)
    requires Uses(t, lists[i].name, a.fam) && tok.text == "@" + SetName(lists[i].name, a.fam)
    requires p.src == Some(a)
    ensures MatchOne(Loaded(t, lists).sets, p, Match(if a.fam.V4? then "ip.saddr" else "ip6.saddr", "==", [tok], None)) ==
              Is(exists q :: q in Admitted(cidrs) && Contains(q, a))
  {
    hide Contains, SplitFamily, Loaded, Dedupe, Apply, ElementsContain, MatchOne;
    var fam := a.fam;
    var n := SetName(lists[i].name, fam);
    var sets := Loaded(t, lists).sets;
    ReplacedEntries(allLists, s, listId, cidrs);
    ResolvedHalf(t, lists, i, fam);
    LoadedNamesDistinct(t, lists);
    var d := SetDef(n, fam, SplitFamily(lists[i].entries, fam));
    SetFound(sets, d, a);
    HalfCovers(cidrs, listId, s.nextId, fam, a);
    ElementsDefinite(d.elements, a);
    assert tok.text[1..] == n;
    SetReferenceReads(sets, p, a, tok);
  }

  /** When a ban set owns the name, the list is not resolved there and the condition stays
      undecided rather than wrong. */
  lemma ClaimedNameUndecided(t: Table, lists: seq<NamedList>, name: string, a: Addr, tok: Token)
    requires DeclaresDyn(DynDefs(t), name) && tok.text == "@" + name
    ensures AddrInValue(a, [tok], Loaded(t, lists).sets) == Unknown
  {
    hide SplitFamily;
    var sets := Loaded(t, lists).sets;
    forall d | d in sets ensures d.name != name {
      SetDefsContent(SortedNames(ReferencedNames(t)), DynDefs(t), ByName(lists), d);
    }
    NotThere(sets, name, a);
    assert tok.text[1..] == name;
  }

  lemma {:induction false} NotThere(sets: seq<SetDef>, name: string, a: Addr)
    requires forall d :: d in sets ==> d.name != name
    ensures SetContains(sets, name, a) == Unknown
  {
    if sets != [] {
      assert sets[0] in sets;
      NotThere(sets[1..], name, a);
    }
  }
}
