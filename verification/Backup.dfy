/** Backup and restore (internal/web/backup.go): the whole model as one document. Restoring any
    accepted document and building it again gives its normal form, and a document built from a
    store is its own normal form. */
module Backup {
  import opened Wrappers
  import opened Selection
  import opened Strings
  import opened Model
  import opened Positions
  import opened Database
  import Lists
  import Matching
  import Render
  import Sets
  import Simulation

  const VERSION := 1

  datatype BackupEntry = BackupEntry(cidr: Literal, note: string)

  datatype BackupList = BackupList(head: ListHead, entries: seq<BackupEntry>)

  datatype Document = Document(version: int, tables: seq<Table>, lists: seq<BackupList>)

  // ── Building the document ─────────────────────────────────────────────────

  function Values<T>(s: State<T>, scope: nat): (d: seq<T>) {
    DataOf(Items(s.rows, scope))
  }

  function ReadChain(db: Db, i: Item<Chain>): (c: Chain) {
    i.data.(rules := Values(db.rules, i.id))
  }

  function ReadChains(db: Db, items: seq<Item<Chain>>): (r: seq<Chain>)
    ensures |r| == |items| && forall k :: 0 <= k < |items| ==> r[k] == ReadChain(db, items[k])
  {
    seq(|items|, k requires 0 <= k < |items| => ReadChain(db, items[k]))
  }

  function ChainsOf(db: Db, tableId: nat): (r: seq<Chain>) {
    ReadChains(db, Items(db.chains.rows, tableId))
  }

  function ReadTable(db: Db, i: Item<Table>): (t: Table) {
    i.data.(flowtables := Values(db.flowtables, i.id), chains := ChainsOf(db, i.id))
  }

  function ReadTables(db: Db, items: seq<Item<Table>>): (r: seq<Table>)
    ensures |r| == |items| && forall k :: 0 <= k < |items| ==> r[k] == ReadTable(db, items[k])
  {
    seq(|items|, k requires 0 <= k < |items| => ReadTable(db, items[k]))
  }

  function TablesOf(db: Db): (r: seq<Table>) {
    ReadTables(db, Items(db.tables.rows, 0))
  }

  function EntryDocs(es: seq<Entry>): (r: seq<BackupEntry>)
    ensures |r| == |es| && forall k :: 0 <= k < |es| ==> r[k] == BackupEntry(es[k].cidr, es[k].note)
  {
    seq(|es|, k requires 0 <= k < |es| => BackupEntry(es[k].cidr, es[k].note))
  }

  function EntriesIn(db: Db, listId: nat): (r: seq<BackupEntry>) {
    EntryDocs(Lists.EntriesOf(db.entries.entries, listId))
  }

  function ReadList(db: Db, i: Item<ListHead>): (l: BackupList) {
    BackupList(i.data, EntriesIn(db, i.id))
  }

  function ReadLists(db: Db, items: seq<Item<ListHead>>): (r: seq<BackupList>)
    ensures |r| == |items| && forall k :: 0 <= k < |items| ==> r[k] == ReadList(db, items[k])
  {
    seq(|items|, k requires 0 <= k < |items| => ReadList(db, items[k]))
  }

  function ListsOf(db: Db): (r: seq<BackupList>) {
    ReadLists(db, Items(db.lists.rows, 0))
  }

  function Build(db: Db): (d: Document) {
    Document(VERSION, TablesOf(db), ListsOf(db))
  }

  // ── Validating ────────────────────────────────────────────────────────────

  /** The validation made before anything is deleted; whether a rule renders is the catalogue's word. */
  ghost predicate ValidDocument(doc: Document, renders: (string, Rule) -> bool) {
    doc.version == VERSION && forall t :: t in doc.tables ==> ValidTableDoc(t, renders)
  }

  ghost predicate ValidTableDoc(t: Table, renders: (string, Rule) -> bool) {
    && ValidTable(t)
    && (forall f :: f in t.flowtables ==> ValidFlowtable(f))
    && forall c :: c in t.chains ==> ValidChain(c) && forall r :: r in c.rules ==> renders(t.family, r)
  }

  // Validate takes a blank kind for base.
  predicate BaseToValidate(c: Chain) {
    TrimSpace(c.kind) == "base" || TrimSpace(c.kind) == ""
  }

  /** A keyword less an amount is a priority the simulator reads and orders by, but validation refuses
      every base chain that has it, and with it the document; adding the negative amount is accepted
      and means the same place in the order. */
  lemma MinusOffsetRefused(doc: Document, renders: (string, Rule) -> bool, t: Table, c: Chain, word: string, n: int)
    requires word in PRIORITY_WORDS && BaseToValidate(c) && c.priority == Offset(word, false, n)
    ensures Simulation.PriorityValue(c.priority) == Simulation.PriorityValue(Keyword(word)) - n
    ensures !ValidChain(c) && (c in t.chains && t in doc.tables ==> !ValidDocument(doc, renders))
    ensures ValidPriority(Offset(word, true, -n))
    ensures Simulation.PriorityValue(Offset(word, true, -n)) == Simulation.PriorityValue(c.priority)
  {
    hide TrimSpace, ValidTable, ValidFlowtable, Sets.IsIdentifier;
  }

  // ── Rebuilding ────────────────────────────────────────────────────────────

  function PutRules(db: Db, chainId: nat, rules: seq<Rule>): (o: Outcome)
    decreases |rules|
  {
    if rules == [] then Outcome(db, None)
    else
      var o := CreateRule(db, chainId, rules[0]);
      if o.err.Some? then o else PutRules(o.db, chainId, rules[1..])
  }

  function PutChain(db: Db, tableId: nat, c: Chain): (o: Outcome) {
    var o := CreateChain(db, tableId, c);
    if o.err.Some? then o else PutRules(o.db, db.chains.nextId, c.rules)
  }

  function PutChains(db: Db, tableId: nat, cs: seq<Chain>): (o: Outcome)
    decreases |cs|
  {
    if cs == [] then Outcome(db, None)
    else
      var o := PutChain(db, tableId, cs[0]);
      if o.err.Some? then o else PutChains(o.db, tableId, cs[1..])
  }

  function PutFlowtables(db: Db, tableId: nat, fs: seq<Flowtable>): (o: Outcome)
    decreases |fs|
  {
    if fs == [] then Outcome(db, None)
    else
      var o := CreateFlowtable(db, tableId, fs[0]);
      if o.err.Some? then o else PutFlowtables(o.db, tableId, fs[1..])
  }

  function PutTable(db: Db, t: Table): (o: Outcome) {
    var o := CreateTable(db, t);
    if o.err.Some? then o
    else
      var f := PutFlowtables(o.db, db.tables.nextId, t.flowtables);
      if f.err.Some? then f else PutChains(f.db, db.tables.nextId, t.chains)
  }

  function PutTables(db: Db, ts: seq<Table>): (o: Outcome)
    decreases |ts|
  {
    if ts == [] then Outcome(db, None)
    else
      var o := PutTable(db, ts[0]);
      if o.err.Some? then o else PutTables(o.db, ts[1..])
  }

  // A bad entry is skipped.
  function PutEntries(db: Db, listId: nat, es: seq<BackupEntry>): (d: Db)
    decreases |es|
  {
    if es == [] then db else PutEntries(AddEntry(db, listId, es[0].cidr, es[0].note), listId, es[1..])
  }

  function WithSource(h: ListHead): (g: ListHead) {
    h.(source := if h.source == "" then "manual" else h.source)
  }

  function PutList(db: Db, l: BackupList): (o: Outcome) {
    var o := CreateList(db, WithSource(l.head));
    if o.err.Some? then o else Outcome(PutEntries(o.db, db.lists.nextId, l.entries), None)
  }

  function PutLists(db: Db, ls: seq<BackupList>): (o: Outcome)
    decreases |ls|
  {
    if ls == [] then Outcome(db, None)
    else
      var o := PutList(db, ls[0]);
      if o.err.Some? then o else PutLists(o.db, ls[1..])
  }

  function WipeTables(db: Db, items: seq<Item<Table>>): (d: Db)
    decreases |items|
  {
    if items == [] then db else WipeTables(DeleteTable(db, items[0].id), items[1..])
  }

  function WipeLists(db: Db, items: seq<Item<ListHead>>): (o: Outcome)
    decreases |items|
  {
    if items == [] then Outcome(db, None)
    else
      var o := DeleteList(db, items[0].id);
      if o.err.Some? then o else WipeLists(o.db, items[1..])
  }

  /** What follows a passed validation: wipe, then the lists, then the tables. */
  function Rebuild(db: Db, doc: Document): (o: Outcome) {
    var bare := WipeTables(db, Items(db.tables.rows, 0));
    var empty := WipeLists(bare, Items(bare.lists.rows, 0));
    if empty.err.Some? then empty
    else
      var listed := PutLists(empty.db, doc.lists);
      if listed.err.Some? then listed else PutTables(listed.db, doc.tables)
  }

  // ── The normal form of a document ─────────────────────────────────────────

  function WrittenRules(rules: seq<Rule>): (r: seq<Rule>)
    ensures |r| == |rules| && forall k :: 0 <= k < |rules| ==> r[k] == WrittenRule(rules[k])
  {
    seq(|rules|, k requires 0 <= k < |rules| => WrittenRule(rules[k]))
  }

  function WrittenChain(c: Chain): (d: Chain) {
    c.(rules := WrittenRules(c.rules))
  }

  function WrittenChains(cs: seq<Chain>): (r: seq<Chain>)
    ensures |r| == |cs| && forall k :: 0 <= k < |cs| ==> r[k] == WrittenChain(cs[k])
  {
    seq(|cs|, k requires 0 <= k < |cs| => WrittenChain(cs[k]))
  }

  function WrittenFlowtables(fs: seq<Flowtable>): (r: seq<Flowtable>)
    ensures |r| == |fs| && forall k :: 0 <= k < |fs| ==> r[k] == NormalFlowtable(fs[k])
  {
    seq(|fs|, k requires 0 <= k < |fs| => NormalFlowtable(fs[k]))
  }

  function WrittenTable(t: Table): (u: Table) {
    t.(flowtables := WrittenFlowtables(t.flowtables), chains := WrittenChains(t.chains))
  }

  function WrittenTables(ts: seq<Table>): (r: seq<Table>)
    ensures |r| == |ts| && forall k :: 0 <= k < |ts| ==> r[k] == WrittenTable(ts[k])
  {
    seq(|ts|, k requires 0 <= k < |ts| => WrittenTable(ts[k]))
  }

  predicate Admits(kept: seq<BackupEntry>, e: BackupEntry) {
    && Lists.NormalizeCIDR(e.cidr).Ok?
    && |Lists.CleanNote(e.note)| <= 120
    && forall k :: k in kept ==> !Lists.Collide(Lists.NormalizeCIDR(e.cidr).value, k.cidr)
  }

  function NormalEntry(e: BackupEntry): (n: BackupEntry)
    requires Lists.NormalizeCIDR(e.cidr).Ok?
  {
    BackupEntry(Lists.NormalizeCIDR(e.cidr).value, Lists.CleanNote(e.note))
  }

  /** The entries that come through: each is kept unless it is bad or overlaps one kept before. */
  function Surviving(kept: seq<BackupEntry>, es: seq<BackupEntry>): (r: seq<BackupEntry>)
    decreases |es|
  {
    if es == [] then kept
    else if Admits(kept, es[0]) then Surviving(kept + [NormalEntry(es[0])], es[1..])
    else Surviving(kept, es[1..])
  }

  function RestoredList(l: BackupList): (r: BackupList) {
    BackupList(NormalList(l.head), Surviving([], l.entries))
  }

  function RestoredLists(ls: seq<BackupList>): (r: seq<BackupList>)
    ensures |r| == |ls| && forall k :: 0 <= k < |ls| ==> r[k] == RestoredList(ls[k])
  {
    seq(|ls|, k requires 0 <= k < |ls| => RestoredList(ls[k]))
  }

  function NormalDocument(doc: Document): (n: Document) {
    Document(VERSION, WrittenTables(doc.tables), RestoredLists(doc.lists))
  }

  /** No key is taken already or comes twice. */
  predicate FreshKeys(keys: seq<seq<string>>, taken: set<seq<string>>) {
    (forall i :: 0 <= i < |keys| ==> keys[i] !in taken) && forall i, j :: 0 <= i < j < |keys| ==> keys[i] != keys[j]
  }

  function ChainKeys(cs: seq<Chain>): (r: seq<seq<string>>)
    ensures |r| == |cs| && forall k :: 0 <= k < |cs| ==> r[k] == ChainKey(cs[k])
  {
    seq(|cs|, k requires 0 <= k < |cs| => ChainKey(cs[k]))
  }

  function FlowtableKeys(fs: seq<Flowtable>): (r: seq<seq<string>>)
    ensures |r| == |fs| && forall k :: 0 <= k < |fs| ==> r[k] == FlowtableKey(NormalFlowtable(fs[k]))
  {
    seq(|fs|, k requires 0 <= k < |fs| => FlowtableKey(NormalFlowtable(fs[k])))
  }

  function TableKeys(ts: seq<Table>): (r: seq<seq<string>>)
    ensures |r| == |ts| && forall k :: 0 <= k < |ts| ==> r[k] == TableKey(ts[k])
  {
    seq(|ts|, k requires 0 <= k < |ts| => TableKey(ts[k]))
  }

  function ListKeys(ls: seq<BackupList>): (r: seq<seq<string>>)
    ensures |r| == |ls| && forall k :: 0 <= k < |ls| ==> r[k] == ListKey(NormalList(ls[k].head))
  {
    seq(|ls|, k requires 0 <= k < |ls| => ListKey(NormalList(ls[k].head)))
  }

  predicate DistinctInside(t: Table) {
    FreshKeys(FlowtableKeys(t.flowtables), {}) && FreshKeys(ChainKeys(t.chains), {})
  }

  /** What the rebuild further asks of a document that passed validation: lists that may be
      created, and no name used twice. */
  predicate Acceptable(doc: Document) {
    && (forall i :: 0 <= i < |doc.lists| ==> ValidList(doc.lists[i].head))
    && FreshKeys(ListKeys(doc.lists), {})
    && FreshKeys(TableKeys(doc.tables), {})
    && forall i :: 0 <= i < |doc.tables| ==> DistinctInside(doc.tables[i])
  }

  /** In plain words: every list valid, no two lists of one name, no two tables of one family and name,
      and within a table no two flowtables and no two chains of one name; names of lists and flowtables
      without their outer blanks. */
  lemma AcceptableExactly(doc: Document)
    ensures Acceptable(doc) <==>
              && (forall i :: 0 <= i < |doc.lists| ==> ValidList(doc.lists[i].head))
              && (forall i, j :: 0 <= i < j < |doc.lists| ==> TrimSpace(doc.lists[i].head.name) != TrimSpace(doc.lists[j].head.name))
              && (forall i, j :: 0 <= i < j < |doc.tables| ==>
                    doc.tables[i].family != doc.tables[j].family || doc.tables[i].name != doc.tables[j].name)
              && (forall i :: 0 <= i < |doc.tables| ==> NamedOnce(doc.tables[i]))
  {
    hide ValidList, TrimSpace, ToUpper, ToLower, DistinctInside, NamedOnce;
    forall i | 0 <= i < |doc.tables| ensures DistinctInside(doc.tables[i]) <==> NamedOnce(doc.tables[i]) {
      DistinctInsideExactly(doc.tables[i]);
    }
    assert FreshKeys(TableKeys(doc.tables), {}) <==>
             forall i, j :: 0 <= i < j < |doc.tables| ==> doc.tables[i].family != doc.tables[j].family || doc.tables[i].name != doc.tables[j].name;
    assert FreshKeys(ListKeys(doc.lists), {}) <==>
             forall i, j :: 0 <= i < j < |doc.lists| ==> TrimSpace(doc.lists[i].head.name) != TrimSpace(doc.lists[j].head.name);
  }

  predicate NamedOnce(t: Table) {
    && (forall i, j :: 0 <= i < j < |t.flowtables| ==> TrimSpace(t.flowtables[i].name) != TrimSpace(t.flowtables[j].name))
    && forall i, j :: 0 <= i < j < |t.chains| ==> t.chains[i].name != t.chains[j].name
  }

  lemma DistinctInsideExactly(t: Table)
    ensures DistinctInside(t) <==> NamedOnce(t)
  {
    hide TrimSpace, CleanDevices;
    assert FreshKeys(ChainKeys(t.chains), {}) <==> forall i, j :: 0 <= i < j < |t.chains| ==> t.chains[i].name != t.chains[j].name;
    assert FreshKeys(FlowtableKeys(t.flowtables), {}) <==>
             forall i, j :: 0 <= i < j < |t.flowtables| ==> TrimSpace(t.flowtables[i].name) != TrimSpace(t.flowtables[j].name);
  }

  // ── Adding a row, as the listings see it ──────────────────────────────────

  lemma AddValues<T(!new)>(s: State<T>, scope: nat, data: T, z: nat)
    requires Sound(s.rows, s.nextId)
    ensures Values(Add(s, scope, data), z) == if z == scope then Values(s, z) + [data] else Values(s, z)
  {
    hide Add, Items;
    AddItems(s, scope, data, z);
  }

  lemma AddTaken<T(!new)>(s: State<T>, scope: nat, data: T, z: nat, key: T -> seq<string>, k: seq<string>)
    ensures Taken(Add(s, scope, data).rows, z, key, k) <==> Taken(s.rows, z, key, k) || (z == scope && k == key(data))
  {
    hide Add;
    AddedRow(s, scope, data);
    var t := Add(s, scope, data);
    if Taken(s.rows, z, key, k) {
      var i :| 0 <= i < |s.rows| && s.rows[i].scope == z && key(s.rows[i].data) == k;
      assert t.rows[i] == s.rows[i];
    }
    if i :| 0 <= i < |t.rows| && t.rows[i].scope == z && key(t.rows[i].data) == k {
      if i < |s.rows| {
        assert s.rows[i] == t.rows[i];
      }
    }
  }

  lemma NoItems<T(!new)>(s: State<T>, scopes: set<nat>, stored: T -> bool, z: nat)
    requires Kept(s, scopes, stored) && z !in scopes
    ensures Items(s.rows, z) == [] && Values(s, z) == []
    ensures forall key: T -> seq<string>, k :: !Taken(s.rows, z, key, k)
  {
    hide Listing, Sound;
    SoundIds(s.rows, s.nextId);
    ListingSorted(s.rows, z);
    SameEmpty(Listing(s.rows, z), []);
    assert forall i :: 0 <= i < |s.rows| ==> s.rows[i] in s.rows;
  }

  lemma ItemIds<T(!new)>(s: State<T>, scopes: set<nat>, stored: T -> bool, z: nat)
    requires Kept(s, scopes, stored)
    ensures forall k :: 0 <= k < |Items(s.rows, z)| ==>
      Items(s.rows, z)[k].id < s.nextId && Items(s.rows, z)[k].id in Ids(s.rows) && stored(Items(s.rows, z)[k].data)
  {
    hide Listing;
    ListingSorted(s.rows, z);
    var l := Listing(s.rows, z);
    forall k | 0 <= k < |l| ensures l[k].id < s.nextId && l[k].id in Ids(s.rows) && stored(l[k].data) {
      assert l[k] in s.rows;
      var i :| 0 <= i < |s.rows| && s.rows[i] == l[k];
      assert s.rows[i].id in Ids(s.rows);
    }
  }

  lemma FreshId<T(!new)>(s: State<T>, scopes: set<nat>, stored: T -> bool)
    requires Kept(s, scopes, stored)
    ensures s.nextId !in Ids(s.rows)
  {
    if s.nextId in Ids(s.rows) {
      IdsBelow(s, scopes, stored, s.nextId);
      assert false;
    }
  }

  lemma FreshKeysCons(keys: seq<seq<string>>, taken: set<seq<string>>)
    requires keys != []
    ensures FreshKeys(keys, taken) <==> keys[0] !in taken && FreshKeys(keys[1..], taken + {keys[0]})
  {
    var rest := keys[1..];
    if keys[0] !in taken && FreshKeys(rest, taken + {keys[0]}) {
      forall i, j | 0 <= i < j < |keys| ensures keys[i] != keys[j] {
        assert keys[j] == rest[j - 1];
        if i > 0 {
          assert keys[i] == rest[i - 1];
        }
      }
      forall i | 0 <= i < |keys| ensures keys[i] !in taken {
        if i > 0 {
          assert keys[i] == rest[i - 1];
        }
      }
    }
    if FreshKeys(keys, taken) {
      forall i | 0 <= i < |rest| ensures rest[i] !in taken + {keys[0]} {
        assert rest[i] == keys[i + 1];
      }
      forall i, j | 0 <= i < j < |rest| ensures rest[i] != rest[j] {
        assert rest[i] == keys[i + 1] && rest[j] == keys[j + 1];
      }
    }
  }

  // ── Rules and chains ──────────────────────────────────────────────────────

  lemma {:induction false} PutRulesEffect(db: Db, chainId: nat, rules: seq<Rule>)
    requires StoreSound(db) && chainId in Ids(db.chains.rows)
    ensures var o := PutRules(db, chainId, rules);
      && o.err.None? && StoreSound(o.db) && o.db == db.(rules := o.db.rules)
      && forall z: nat :: Values(o.db.rules, z) == if z == chainId then Values(db.rules, z) + WrittenRules(rules) else Values(db.rules, z)
    decreases |rules|
  {
    hide StoreSound, Values, WrittenRule, Add, Ids;
    if rules == [] {
      assert Values(db.rules, chainId) + WrittenRules(rules) == Values(db.rules, chainId);
    } else {
      var one := CreateRule(db, chainId, rules[0]).db;
      CreateRuleSound(db, chainId, rules[0]);
      RulesSound(db);
      PutRulesEffect(one, chainId, rules[1..]);
      forall z: nat {
        AddValues(db.rules, chainId, WrittenRule(rules[0]), z);
      }
      assert WrittenRules(rules) == [WrittenRule(rules[0])] + WrittenRules(rules[1..]);
      Assoc(Values(db.rules, chainId), [WrittenRule(rules[0])], WrittenRules(rules[1..]));
    }
  }

  lemma RulesSound(db: Db)
    requires StoreSound(db)
    ensures Sound(db.rules.rows, db.rules.nextId) && Sound(db.chains.rows, db.chains.nextId)
    ensures Sound(db.tables.rows, db.tables.nextId) && Sound(db.flowtables.rows, db.flowtables.nextId)
    ensures Sound(db.lists.rows, db.lists.nextId)
  {
    hide Sound;
  }

  // Chains read the same when their rules do.
  lemma ReadChainsSame(db: Db, db2: Db, items: seq<Item<Chain>>)
    requires forall k :: 0 <= k < |items| ==> Values(db2.rules, items[k].id) == Values(db.rules, items[k].id)
    ensures ReadChains(db2, items) == ReadChains(db, items)
  {}

  lemma PutChainEffect(db: Db, tableId: nat, c: Chain)
    requires StoreSound(db) && tableId in Ids(db.tables.rows)
    ensures var o := PutChain(db, tableId, c);
      && StoreSound(o.db) && o.db == db.(chains := o.db.chains, rules := o.db.rules)
      && (o.err.None? <==> !Taken(db.chains.rows, tableId, ChainKey, ChainKey(c)))
      && (o.err.None? ==>
            && o.db.chains == Add(db.chains, tableId, ChainHead(c))
            && forall z: nat :: ChainsOf(o.db, z) == if z == tableId then ChainsOf(db, z) + [WrittenChain(c)] else ChainsOf(db, z))
  {
    hide StoreSound, Values, Add, Ids, Taken, Items, ReadChains, WrittenRules, Kept, Sound;
    CreateChainSound(db, tableId, c);
    if !Taken(db.chains.rows, tableId, ChainKey, ChainKey(c)) {
      var cid := db.chains.nextId;
      var one := CreateChain(db, tableId, c).db;
      AddIds(db.chains, tableId, ChainHead(c));
      PutRulesEffect(one, cid, c.rules);
      var o := PutChain(db, tableId, c);
      NewChainEmpty(db);
      forall z: nat ensures ChainsOf(o.db, z) == if z == tableId then ChainsOf(db, z) + [WrittenChain(c)] else ChainsOf(db, z) {
        ChainAppears(db, o.db, tableId, c, z);
      }
    }
  }

  // A chain's id is new, so no rule is in it yet.
  lemma NewChainEmpty(db: Db)
    requires StoreSound(db)
    ensures Values(db.rules, db.chains.nextId) == []
  {
    hide Kept, Values, Ids, UniqueKeys;
    FreshId(db.chains, Ids(db.tables.rows), StoredChain);
    NoItems(db.rules, Ids(db.chains.rows), StoredRule, db.chains.nextId);
  }

  lemma ChainAppears(db: Db, after: Db, tableId: nat, c: Chain, z: nat)
    requires StoreSound(db) && after.chains == Add(db.chains, tableId, ChainHead(c))
    requires Values(db.rules, db.chains.nextId) == []
    requires forall y: nat ::
      Values(after.rules, y) == (if y == db.chains.nextId then Values(db.rules, y) + WrittenRules(c.rules) else Values(db.rules, y))
    ensures ChainsOf(after, z) == if z == tableId then ChainsOf(db, z) + [WrittenChain(c)] else ChainsOf(db, z)
  {
    hide Values, Add, Items, WrittenRules, Kept, Ids, UniqueKeys;
    var cid := db.chains.nextId;
    var items := Items(db.chains.rows, z);
    ItemIds(db.chains, Ids(db.tables.rows), StoredChain, z);
    ReadChainsSame(db, after, items);
    RulesSound(db);
    AddItems(db.chains, tableId, ChainHead(c), z);
    if z == tableId {
      var added := Item(cid, ChainHead(c));
      assert [] + WrittenRules(c.rules) == WrittenRules(c.rules);
      assert ReadChain(after, added) == WrittenChain(c);
      assert ReadChains(after, items + [added]) == ReadChains(after, items) + [ReadChain(after, added)];
    }
  }

  lemma {:induction false} PutChainsEffect(db: Db, tableId: nat, cs: seq<Chain>, taken: set<seq<string>>)
    requires StoreSound(db) && tableId in Ids(db.tables.rows)
    requires forall k :: Taken(db.chains.rows, tableId, ChainKey, k) <==> k in taken
    ensures var o := PutChains(db, tableId, cs);
      && StoreSound(o.db) && o.db == db.(chains := o.db.chains, rules := o.db.rules)
      && (o.err.None? <==> FreshKeys(ChainKeys(cs), taken))
      && (o.err.None? ==>
            forall z: nat :: ChainsOf(o.db, z) == if z == tableId then ChainsOf(db, z) + WrittenChains(cs) else ChainsOf(db, z))
    decreases |cs|
  {
    hide StoreSound, Ids, Taken, ChainsOf, PutChain, FreshKeys, Add, WrittenChain;
    if cs == [] {
      assert FreshKeys(ChainKeys(cs), taken) by {
        NoKeysFresh(taken);
        assert ChainKeys(cs) == [];
      }
      assert ChainsOf(db, tableId) + WrittenChains(cs) == ChainsOf(db, tableId);
    } else {
      PutChainEffect(db, tableId, cs[0]);
      FreshKeysCons(ChainKeys(cs), taken);
      assert ChainKeys(cs)[1..] == ChainKeys(cs[1..]);
      var one := PutChain(db, tableId, cs[0]);
      if one.err.None? {
        forall k ensures Taken(one.db.chains.rows, tableId, ChainKey, k) <==> k in taken + {ChainKey(cs[0])} {
          AddTaken(db.chains, tableId, ChainHead(cs[0]), tableId, ChainKey, k);
        }
        PutChainsEffect(one.db, tableId, cs[1..], taken + {ChainKey(cs[0])});
        assert WrittenChains(cs) == [WrittenChain(cs[0])] + WrittenChains(cs[1..]);
        Assoc(ChainsOf(db, tableId), [WrittenChain(cs[0])], WrittenChains(cs[1..]));
      }
    }
  }

  lemma NoKeysFresh(taken: set<seq<string>>)
    ensures FreshKeys([], taken)
  {}

  lemma {:induction false} PutFlowtablesEffect(db: Db, tableId: nat, fs: seq<Flowtable>, taken: set<seq<string>>)
    requires StoreSound(db) && tableId in Ids(db.tables.rows)
    requires forall f :: f in fs ==> ValidFlowtable(f)
    requires forall k :: Taken(db.flowtables.rows, tableId, FlowtableKey, k) <==> k in taken
    ensures var o := PutFlowtables(db, tableId, fs);
      && StoreSound(o.db) && o.db == db.(flowtables := o.db.flowtables)
      && (o.err.None? <==> FreshKeys(FlowtableKeys(fs), taken))
      && (o.err.None? ==>
            forall z: nat :: Values(o.db.flowtables, z) ==
              if z == tableId then Values(db.flowtables, z) + WrittenFlowtables(fs) else Values(db.flowtables, z))
    decreases |fs|
  {
    hide StoreSound, Ids, Taken, Values, FreshKeys, Add, NormalFlowtable, ValidFlowtable;
    if fs == [] {
      NoKeysFresh(taken);
      assert FlowtableKeys(fs) == [];
      assert Values(db.flowtables, tableId) + WrittenFlowtables(fs) == Values(db.flowtables, tableId);
    } else {
      var g := NormalFlowtable(fs[0]);
      CreateFlowtableSound(db, tableId, fs[0]);
      RulesSound(db);
      FreshKeysCons(FlowtableKeys(fs), taken);
      assert FlowtableKeys(fs)[1..] == FlowtableKeys(fs[1..]);
      var one := CreateFlowtable(db, tableId, fs[0]);
      if one.err.None? {
        forall k ensures Taken(one.db.flowtables.rows, tableId, FlowtableKey, k) <==> k in taken + {FlowtableKey(g)} {
          AddTaken(db.flowtables, tableId, g, tableId, FlowtableKey, k);
        }
        forall z: nat {
          AddValues(db.flowtables, tableId, g, z);
        }
        PutFlowtablesEffect(one.db, tableId, fs[1..], taken + {FlowtableKey(g)});
        assert WrittenFlowtables(fs) == [g] + WrittenFlowtables(fs[1..]);
        Assoc(Values(db.flowtables, tableId), [g], WrittenFlowtables(fs[1..]));
      }
    }
  }

  // ── Tables ────────────────────────────────────────────────────────────────

  lemma ReadTablesSame(db: Db, after: Db, items: seq<Item<Table>>)
    requires forall k :: 0 <= k < |items| ==>
      Values(after.flowtables, items[k].id) == Values(db.flowtables, items[k].id) &&
      ChainsOf(after, items[k].id) == ChainsOf(db, items[k].id)
    ensures ReadTables(after, items) == ReadTables(db, items)
  {}

  // A table's id is new: nothing hangs under it yet.
  lemma NewTableEmpty(db: Db)
    requires StoreSound(db)
    ensures Values(db.flowtables, db.tables.nextId) == [] && ChainsOf(db, db.tables.nextId) == []
    ensures forall k :: !Taken(db.flowtables.rows, db.tables.nextId, FlowtableKey, k)
    ensures forall k :: !Taken(db.chains.rows, db.tables.nextId, ChainKey, k)
  {
    hide Kept, Values, Ids, UniqueKeys, Items, Taken;
    FreshId(db.tables, {0}, StoredTable);
    NoItems(db.flowtables, Ids(db.tables.rows), StoredFlowtable, db.tables.nextId);
    NoItems(db.chains, Ids(db.tables.rows), StoredChain, db.tables.nextId);
  }

  lemma TableAppears(db: Db, after: Db, t: Table)
    requires StoreSound(db) && after.tables == Add(db.tables, 0, TableHead(t))
    requires Values(after.flowtables, db.tables.nextId) == WrittenFlowtables(t.flowtables)
    requires ChainsOf(after, db.tables.nextId) == WrittenChains(t.chains)
    requires forall z: nat :: z != db.tables.nextId ==>
      Values(after.flowtables, z) == Values(db.flowtables, z) && ChainsOf(after, z) == ChainsOf(db, z)
    ensures TablesOf(after) == TablesOf(db) + [WrittenTable(t)]
  {
    hide Kept, Values, Ids, UniqueKeys, Items, Add, ChainsOf, WrittenFlowtables, WrittenChains;
    var items := Items(db.tables.rows, 0);
    ItemIds(db.tables, {0}, StoredTable, 0);
    ReadTablesSame(db, after, items);
    RulesSound(db);
    AddItems(db.tables, 0, TableHead(t), 0);
    var added := Item(db.tables.nextId, TableHead(t));
    assert ReadTable(after, added) == WrittenTable(t);
    assert ReadTables(after, items + [added]) == ReadTables(after, items) + [ReadTable(after, added)];
  }

  predicate FlowtablesValid(t: Table) {
    forall f :: f in t.flowtables ==> ValidFlowtable(f)
  }

  lemma PutTableEffect(db: Db, t: Table)
    requires StoreSound(db) && FlowtablesValid(t)
    ensures var o := PutTable(db, t);
      && StoreSound(o.db) && o.db.lists == db.lists && o.db.entries == db.entries
      && (o.err.None? <==> !Taken(db.tables.rows, 0, TableKey, TableKey(t)) && DistinctInside(t))
      && (o.err.None? ==> o.db.tables == Add(db.tables, 0, TableHead(t)) && TablesOf(o.db) == TablesOf(db) + [WrittenTable(t)])
  {
    hide StoreSound, Ids, Taken, Values, FreshKeys, Add, ChainsOf, TablesOf, PutFlowtables, PutChains, WrittenTable, WrittenChains, WrittenFlowtables;
    CreateTableSound(db, t);
    if !Taken(db.tables.rows, 0, TableKey, TableKey(t)) {
      var tid := db.tables.nextId;
      var one := CreateTable(db, t).db;
      AddIds(db.tables, 0, TableHead(t));
      NewTableEmpty(db);
      SameChains(db, one);
      PutFlowtablesEffect(one, tid, t.flowtables, {});
      var two := PutFlowtables(one, tid, t.flowtables);
      if two.err.None? {
        SameChains(one, two.db);
        PutChainsEffect(two.db, tid, t.chains, {});
        var o := PutChains(two.db, tid, t.chains);
        if o.err.None? {
          assert [] + WrittenFlowtables(t.flowtables) == WrittenFlowtables(t.flowtables);
          assert [] + WrittenChains(t.chains) == WrittenChains(t.chains);
          TableAppears(db, o.db, t);
        }
      }
    }
  }

  lemma SameChains(db: Db, after: Db)
    requires after.chains == db.chains && after.rules == db.rules
    ensures forall z: nat :: ChainsOf(after, z) == ChainsOf(db, z)
  {
    forall z: nat {
      ReadChainsSame(db, after, Items(db.chains.rows, z));
    }
  }

  lemma {:induction false} PutTablesEffect(db: Db, ts: seq<Table>, taken: set<seq<string>>)
    requires StoreSound(db) && forall i :: 0 <= i < |ts| ==> FlowtablesValid(ts[i])
    requires forall k :: Taken(db.tables.rows, 0, TableKey, k) <==> k in taken
    ensures var o := PutTables(db, ts);
      && StoreSound(o.db) && o.db.lists == db.lists && o.db.entries == db.entries
      && (o.err.None? <==> FreshKeys(TableKeys(ts), taken) && forall i :: 0 <= i < |ts| ==> DistinctInside(ts[i]))
      && (o.err.None? ==> TablesOf(o.db) == TablesOf(db) + WrittenTables(ts))
    decreases |ts|
  {
    hide StoreSound, Taken, FreshKeys, Add, TablesOf, PutTable, WrittenTable, DistinctInside, FlowtablesValid;
    if ts == [] {
      NoKeysFresh(taken);
      assert TableKeys(ts) == [];
      assert TablesOf(db) + WrittenTables(ts) == TablesOf(db);
    } else {
      PutTableEffect(db, ts[0]);
      FreshKeysCons(TableKeys(ts), taken);
      assert TableKeys(ts)[1..] == TableKeys(ts[1..]);
      var one := PutTable(db, ts[0]);
      if one.err.None? {
        forall k ensures Taken(one.db.tables.rows, 0, TableKey, k) <==> k in taken + {TableKey(ts[0])} {
          AddTaken(db.tables, 0, TableHead(ts[0]), 0, TableKey, k);
        }
        PutTablesEffect(one.db, ts[1..], taken + {TableKey(ts[0])});
        assert WrittenTables(ts) == [WrittenTable(ts[0])] + WrittenTables(ts[1..]);
        Assoc(TablesOf(db), [WrittenTable(ts[0])], WrittenTables(ts[1..]));
        assert forall i :: 1 <= i < |ts| ==> ts[i] == ts[1..][i - 1];
      }
    }
  }

  // ── Lists ─────────────────────────────────────────────────────────────────

  lemma EntryDocsAppend(a: seq<Entry>, b: seq<Entry>)
    ensures EntryDocs(a + b) == EntryDocs(a) + EntryDocs(b)
  {}

  // FirstHit over the rows is a collision with what the document shows of them.
  lemma AddEntryEffect(db: Db, listId: nat, e: BackupEntry, z: nat)
    requires listId in Ids(db.lists.rows)
    ensures EntriesIn(AddEntry(db, listId, e.cidr, e.note), z) ==
              if z == listId && Admits(EntriesIn(db, z), e) then EntriesIn(db, z) + [NormalEntry(e)] else EntriesIn(db, z)
  {
    hide Lists.EntriesOf, Lists.NormalizeCIDR, Lists.CleanNote, Lists.Collide, Lists.FirstHit;
    var rows := db.entries.entries;
    var existing := Lists.EntriesOf(rows, listId);
    var outcome := Lists.AddOutcome(Ids(db.lists.rows), rows, listId, e.cidr, e.note);
    if Lists.NormalizeCIDR(e.cidr).Ok? {
      var norm := Lists.NormalizeCIDR(e.cidr).value;
      var hit := Lists.FirstHit(existing, norm);
      assert hit.None? <==> forall k :: k in EntriesIn(db, listId) ==> !Lists.Collide(norm, k.cidr) by {
        HitInDocs(existing, norm);
      }
    }
    if outcome.Ok? {
      var added := Entry(db.entries.nextId, listId, outcome.value, Lists.CleanNote(e.note));
      Lists.EntriesOfAppend(rows, [added], z);
      OneEntry(added, z);
      EntryDocsAppend(Lists.EntriesOf(rows, z), Lists.EntriesOf([added], z));
    }
  }

  lemma OneEntry(e: Entry, z: nat)
    ensures Lists.EntriesOf([e], z) == if e.listId == z then [e] else []
  {
    assert [e][1..] == [];
  }

  lemma HitInDocs(existing: seq<Entry>, norm: Literal)
    ensures Lists.FirstHit(existing, norm).None? <==> forall k :: k in EntryDocs(existing) ==> !Lists.Collide(norm, k.cidr)
  {
    hide Lists.FirstHit, Lists.Collide;
    var docs := EntryDocs(existing);
    if forall k :: k in docs ==> !Lists.Collide(norm, k.cidr) {
      forall e | e in existing ensures !Lists.Collide(norm, e.cidr) {
        var i :| 0 <= i < |existing| && existing[i] == e;
        assert docs[i] in docs;
      }
    }
  }

  lemma {:induction false} PutEntriesEffect(db: Db, listId: nat, es: seq<BackupEntry>)
    requires StoreSound(db) && listId in Ids(db.lists.rows)
    ensures var d := PutEntries(db, listId, es);
      && StoreSound(d) && d == db.(entries := d.entries)
      && forall z: nat :: EntriesIn(d, z) == if z == listId then Surviving(EntriesIn(db, z), es) else EntriesIn(db, z)
    decreases |es|
  {
    hide StoreSound, Ids, EntriesIn, Admits, AddEntry;
    if es != [] {
      AddEntrySound(db, listId, es[0].cidr, es[0].note);
      var one := AddEntry(db, listId, es[0].cidr, es[0].note);
      OnlyEntries(db, listId, es[0]);
      forall z: nat {
        AddEntryEffect(db, listId, es[0], z);
      }
      PutEntriesEffect(one, listId, es[1..]);
    }
  }

  lemma OnlyEntries(db: Db, listId: nat, e: BackupEntry)
    ensures AddEntry(db, listId, e.cidr, e.note) == db.(entries := AddEntry(db, listId, e.cidr, e.note).entries)
  {}

  lemma ReadListsSame(db: Db, after: Db, items: seq<Item<ListHead>>)
    requires forall k :: 0 <= k < |items| ==> EntriesIn(after, items[k].id) == EntriesIn(db, items[k].id)
    ensures ReadLists(after, items) == ReadLists(db, items)
  {}

  lemma NewListEmpty(db: Db)
    requires StoreSound(db)
    ensures EntriesIn(db, db.lists.nextId) == []
  {
    var es := Lists.EntriesOf(db.entries.entries, db.lists.nextId);
    SameEmpty(es, []);
  }

  lemma PutListEffect(db: Db, l: BackupList)
    requires StoreSound(db)
    ensures var o := PutList(db, l);
      && StoreSound(o.db) && o.db == db.(lists := o.db.lists, entries := o.db.entries)
      && (o.err.None? <==> ValidList(l.head) && !Taken(db.lists.rows, 0, ListKey, ListKey(NormalList(l.head))))
      && (o.err.None? ==> o.db.lists == Add(db.lists, 0, NormalList(l.head)) && ListsOf(o.db) == ListsOf(db) + [RestoredList(l)])
  {
    hide StoreSound, Ids, Taken, Add, EntriesIn, Surviving, Items, PutEntries, IsListName, IsHostname, TrimSpace;
    var h := NormalList(l.head);
    assert NormalList(WithSource(l.head)) == h;
    CreateListSound(db, WithSource(l.head));
    var o := PutList(db, l);
    if o.err.None? {
      var lid := db.lists.nextId;
      var one := CreateList(db, WithSource(l.head)).db;
      AddIds(db.lists, 0, h);
      NewListEmpty(db);
      assert forall z: nat :: EntriesIn(one, z) == EntriesIn(db, z) by {
        SameEntries(db, one);
      }
      PutEntriesEffect(one, lid, l.entries);
      ListAppears(db, o.db, l);
    }
  }

  lemma SameEntries(db: Db, after: Db)
    requires after.entries == db.entries
    ensures forall z: nat :: EntriesIn(after, z) == EntriesIn(db, z)
  {}

  lemma ListAppears(db: Db, after: Db, l: BackupList)
    requires StoreSound(db) && after.lists == Add(db.lists, 0, NormalList(l.head))
    requires EntriesIn(after, db.lists.nextId) == Surviving([], l.entries)
    requires forall z: nat :: z != db.lists.nextId ==> EntriesIn(after, z) == EntriesIn(db, z)
    ensures ListsOf(after) == ListsOf(db) + [RestoredList(l)]
  {
    hide Kept, Ids, UniqueKeys, Items, Add, EntriesIn, Surviving, NormalList;
    var items := Items(db.lists.rows, 0);
    ItemIds(db.lists, {0}, StoredList, 0);
    ReadListsSame(db, after, items);
    RulesSound(db);
    AddItems(db.lists, 0, NormalList(l.head), 0);
    var added := Item(db.lists.nextId, NormalList(l.head));
    assert ReadList(after, added) == RestoredList(l);
    assert ReadLists(after, items + [added]) == ReadLists(after, items) + [ReadList(after, added)];
  }

  lemma {:induction false} PutListsEffect(db: Db, ls: seq<BackupList>, taken: set<seq<string>>)
    requires StoreSound(db)
    requires forall k :: Taken(db.lists.rows, 0, ListKey, k) <==> k in taken
    ensures var o := PutLists(db, ls);
      && StoreSound(o.db) && o.db == db.(lists := o.db.lists, entries := o.db.entries)
      && (o.err.None? <==> FreshKeys(ListKeys(ls), taken) && forall i :: 0 <= i < |ls| ==> ValidList(ls[i].head))
      && (o.err.None? ==> ListsOf(o.db) == ListsOf(db) + RestoredLists(ls))
    decreases |ls|
  {
    hide StoreSound, Taken, FreshKeys, Add, ListsOf, PutList, RestoredList, ValidList, NormalList;
    if ls == [] {
      NoKeysFresh(taken);
      assert ListKeys(ls) == [];
      assert ListsOf(db) + RestoredLists(ls) == ListsOf(db);
    } else {
      var key := ListKey(NormalList(ls[0].head));
      PutListEffect(db, ls[0]);
      FreshKeysCons(ListKeys(ls), taken);
      assert ListKeys(ls)[1..] == ListKeys(ls[1..]);
      var one := PutList(db, ls[0]);
      if one.err.None? {
        forall k ensures Taken(one.db.lists.rows, 0, ListKey, k) <==> k in taken + {key} {
          AddTaken(db.lists, 0, NormalList(ls[0].head), 0, ListKey, k);
        }
        PutListsEffect(one.db, ls[1..], taken + {key});
        assert RestoredLists(ls) == [RestoredList(ls[0])] + RestoredLists(ls[1..]);
        Assoc(ListsOf(db), [RestoredList(ls[0])], RestoredLists(ls[1..]));
        assert forall i :: 1 <= i < |ls| ==> ls[i] == ls[1..][i - 1];
      }
    }
  }

  // ── Wiping ────────────────────────────────────────────────────────────────

  function ItemIdSet<T>(items: seq<Item<T>>): (ids: set<nat>) {
    set k | 0 <= k < |items| :: items[k].id
  }

  lemma ItemIdSetCons<T(!new)>(items: seq<Item<T>>)
    requires items != []
    ensures ItemIdSet(items) == {items[0].id} + ItemIdSet(items[1..])
  {
    var rest := items[1..];
    forall x ensures x in ItemIdSet(items) <==> x == items[0].id || x in ItemIdSet(rest) {
      if x in ItemIdSet(items) {
        var k :| 0 <= k < |items| && items[k].id == x;
        if k > 0 {
          assert rest[k - 1].id == x;
        }
      }
      if x in ItemIdSet(rest) {
        var k :| 0 <= k < |rest| && rest[k].id == x;
        assert items[k + 1].id == x;
      }
    }
  }

  lemma {:induction false} WipeTablesEffect(db: Db, items: seq<Item<Table>>)
    requires StoreSound(db)
    ensures var d := WipeTables(db, items);
      StoreSound(d) && d.lists == db.lists && d.entries == db.entries && Ids(d.tables.rows) == Ids(db.tables.rows) - ItemIdSet(items)
    decreases |items|
  {
    hide StoreSound, Ids;
    if items == [] {
      assert ItemIdSet(items) == {};
    } else {
      DeleteTableSound(db, items[0].id);
      ItemIdSetCons(items);
      WipeTablesEffect(DeleteTable(db, items[0].id), items[1..]);
    }
  }

  lemma {:induction false} WipeListsEffect(db: Db, items: seq<Item<ListHead>>)
    requires StoreSound(db) && db.rules.rows == []
    requires forall k :: 0 <= k < |items| ==> items[k].id in Ids(db.lists.rows)
    requires forall i, j :: 0 <= i < j < |items| ==> items[i].id != items[j].id
    ensures var o := WipeLists(db, items);
      && o.err.None? && StoreSound(o.db) && o.db == db.(lists := o.db.lists, entries := o.db.entries)
      && Ids(o.db.lists.rows) == Ids(db.lists.rows) - ItemIdSet(items)
    decreases |items|
  {
    hide StoreSound, Ids, RuleReferences;
    if items == [] {
      assert ItemIdSet(items) == {};
    } else {
      DeleteListSound(db, items[0].id);
      FoundById(db.lists.rows, items[0].id);
      ItemIdSetCons(items);
      assert DeleteList(db, items[0].id).err.None?;
      WipeListsEffect(DeleteList(db, items[0].id).db, items[1..]);
    }
  }

  lemma FoundById<T(!new)>(rows: seq<Row<T>>, id: nat)
    requires id in Ids(rows)
    ensures Find(rows, id).Some?
  {
    var i :| 0 <= i < |rows| && rows[i].id == id;
    assert rows[i] in rows;
  }

  // All rows of a one-scope table are listed.
  lemma AllListed<T(!new)>(s: State<T>, stored: T -> bool)
    requires Kept(s, {0}, stored)
    ensures ItemIdSet(Items(s.rows, 0)) == Ids(s.rows)
    ensures forall i, j :: 0 <= i < j < |Items(s.rows, 0)| ==> Items(s.rows, 0)[i].id != Items(s.rows, 0)[j].id
  {
    hide Listing;
    ListingSorted(s.rows, 0);
    ListingPositions(s.rows, s.nextId, 0);
    var l := Listing(s.rows, 0);
    forall x | x in Ids(s.rows) ensures x in ItemIdSet(Items(s.rows, 0)) {
      var i :| 0 <= i < |s.rows| && s.rows[i].id == x;
      assert s.rows[i] in l;
      var k :| 0 <= k < |l| && l[k] == s.rows[i];
      assert Items(s.rows, 0)[k].id == x;
    }
    forall x | x in ItemIdSet(Items(s.rows, 0)) ensures x in Ids(s.rows) {
      var k :| 0 <= k < |l| && l[k].id == x;
      assert l[k] in s.rows;
      var i :| 0 <= i < |s.rows| && s.rows[i] == l[k];
    }
  }

  lemma NoIdsNoRows<T(!new)>(rows: seq<Row<T>>)
    requires Ids(rows) == {}
    ensures rows == []
  {
    if rows != [] {
      SomeId(rows);
    }
  }

  lemma SomeId<T(!new)>(rows: seq<Row<T>>)
    requires rows != []
    ensures Ids(rows) != {}
  {
    assert rows[0].id in Ids(rows);
  }

  lemma NoParentsNoRows<T(!new)>(s: State<T>, stored: T -> bool)
    requires Kept(s, {}, stored)
    ensures s.rows == []
  {
    SameEmpty(s.rows, []);
  }

  // With its tables gone, a sound store has no chains, flowtables or rules either.
  lemma NoTablesNothing(db: Db)
    requires StoreSound(db) && Ids(db.tables.rows) == {}
    ensures db.tables.rows == [] && db.flowtables.rows == [] && db.chains.rows == [] && db.rules.rows == []
  {
    hide Kept, UniqueKeys, EntriesOk;
    NoIdsNoRows(db.tables.rows);
    NoParentsNoRows(db.flowtables, StoredFlowtable);
    NoParentsNoRows(db.chains, StoredChain);
    assert Ids(db.chains.rows) == {};
    NoParentsNoRows(db.rules, StoredRule);
  }

  // The store between the wipe and the rebuild.
  ghost predicate Emptied(db: Db) {
    StoreSound(db) && db.tables.rows == [] && db.lists.rows == [] && TablesOf(db) == [] && ListsOf(db) == []
  }

  lemma WipedIsEmpty(db: Db)
    requires StoreSound(db)
    ensures var bare := WipeTables(db, Items(db.tables.rows, 0));
      var empty := WipeLists(bare, Items(bare.lists.rows, 0));
      empty.err.None? && Emptied(empty.db)
  {
    hide StoreSound, Ids, ItemIdSet, WipeTables, WipeLists, Items;
    TopKept(db);
    AllListed(db.tables, StoredTable);
    WipeTablesEffect(db, Items(db.tables.rows, 0));
    var bare := WipeTables(db, Items(db.tables.rows, 0));
    NoTablesNothing(bare);
    TopKept(bare);
    var items := Items(bare.lists.rows, 0);
    AllListed(bare.lists, StoredList);
    ItemIds(bare.lists, {0}, StoredList, 0);
    WipeListsEffect(bare, items);
    var empty := WipeLists(bare, items).db;
    NoIdsNoRows(empty.lists.rows);
    EmptyItems<Table>(0);
    EmptyItems<ListHead>(0);
  }

  lemma TopKept(db: Db)
    requires StoreSound(db)
    ensures Kept(db.tables, {0}, StoredTable) && Kept(db.lists, {0}, StoredList)
  {
    hide Kept;
  }

  lemma EmptyItems<T(!new)>(z: nat)
    ensures Items<T>([], z) == []
  {}

  // ── The theorems ──────────────────────────────────────────────────────────

  /** After validation, the rebuild succeeds exactly on acceptable documents, and then building the
      document again gives the normal form of what was restored, whatever was stored before. Every
      outcome, failed or not, leaves a sound store. */
  lemma RebuildExactly(db: Db, doc: Document)
    requires StoreSound(db) && forall i :: 0 <= i < |doc.tables| ==> FlowtablesValid(doc.tables[i])
    ensures var o := Rebuild(db, doc);
      && StoreSound(o.db)
      && (o.err.None? <==> Acceptable(doc))
      && (o.err.None? ==> Build(o.db) == NormalDocument(doc))
  {
    hide StoreSound, Items, WipeTables, WipeLists, PutLists, PutTables, TablesOf, ListsOf, ValidList, FlowtablesValid, DistinctInside, FreshKeys, WrittenTables, RestoredLists;
    WipedIsEmpty(db);
    var bare := WipeTables(db, Items(db.tables.rows, 0));
    var empty := WipeLists(bare, Items(bare.lists.rows, 0)).db;
    PutListsEffect(empty, doc.lists, {});
    var listed := PutLists(empty, doc.lists);
    if listed.err.None? {
      PutTablesEffect(listed.db, doc.tables, {});
      var o := PutTables(listed.db, doc.tables);
      SameTables(empty, listed.db);
      if o.err.None? {
        SameLists(listed.db, o.db);
        assert [] + WrittenTables(doc.tables) == WrittenTables(doc.tables);
        assert [] + RestoredLists(doc.lists) == RestoredLists(doc.lists);
      }
    }
  }

  lemma SameTables(db: Db, after: Db)
    requires after == db.(lists := after.lists, entries := after.entries)
    ensures TablesOf(after) == TablesOf(db)
  {
    SameChains(db, after);
    ReadTablesSame(db, after, Items(db.tables.rows, 0));
  }

  lemma SameLists(db: Db, after: Db)
    requires after.lists == db.lists && after.entries == db.entries
    ensures ListsOf(after) == ListsOf(db)
  {
    SameEntries(db, after);
    ReadListsSame(db, after, Items(db.lists.rows, 0));
  }

  // ── A stored document is normal ───────────────────────────────────────────

  // Names read from a listing are distinct because the column is unique.
  lemma ListedKeys<T(!new)>(s: State<T>, scopes: set<nat>, stored: T -> bool, z: nat, key: T -> seq<string>)
    requires Kept(s, scopes, stored) && UniqueKeys(s.rows, key)
    ensures forall i, j :: 0 <= i < j < |Items(s.rows, z)| ==> key(Items(s.rows, z)[i].data) != key(Items(s.rows, z)[j].data)
  {
    hide Listing, UniqueKeys;
    ListingPositions(s.rows, s.nextId, z);
    var l := Listing(s.rows, z);
    forall i, j | 0 <= i < j < |l| ensures key(l[i].data) != key(l[j].data) {
      RowKeysDiffer(s.rows, key, l[i], l[j]);
    }
  }

  lemma RowKeysDiffer<T(!new)>(rows: seq<Row<T>>, key: T -> seq<string>, x: Row<T>, y: Row<T>)
    requires UniqueKeys(rows, key) && x in rows && y in rows && x.scope == y.scope && x.id != y.id
    ensures key(x.data) != key(y.data)
  {
    var i :| 0 <= i < |rows| && rows[i] == x;
    var j :| 0 <= j < |rows| && rows[j] == y;
    assert i != j;
  }

  lemma ReadChainNormal(db: Db, i: Item<Chain>)
    requires StoreSound(db) && StoredChain(i.data)
    ensures WrittenChain(ReadChain(db, i)) == ReadChain(db, i)
  {
    hide Kept, UniqueKeys, Items, EntriesOk, WrittenRule;
    ItemIds(db.rules, Ids(db.chains.rows), StoredRule, i.id);
    var rules := Values(db.rules, i.id);
    assert WrittenRules(rules) == rules;
  }

  lemma ReadTableNormal(db: Db, i: Item<Table>)
    requires StoreSound(db)
    ensures WrittenTable(ReadTable(db, i)) == ReadTable(db, i)
    ensures DistinctInside(ReadTable(db, i)) && FlowtablesValid(ReadTable(db, i))
  {
    hide Kept, UniqueKeys, EntriesOk, NormalFlowtable, ValidFlowtable, WrittenChain, ReadChain, Items, Ids;
    var parents := Ids(db.tables.rows);
    ItemIds(db.flowtables, parents, StoredFlowtable, i.id);
    ItemIds(db.chains, parents, StoredChain, i.id);
    ListedKeys(db.flowtables, parents, StoredFlowtable, i.id, FlowtableKey);
    ListedKeys(db.chains, parents, StoredChain, i.id, ChainKey);
    var t := ReadTable(db, i);
    assert WrittenFlowtables(t.flowtables) == t.flowtables;
    var items := Items(db.chains.rows, i.id);
    forall k | 0 <= k < |items| ensures WrittenChain(t.chains[k]) == t.chains[k] && ChainKey(t.chains[k]) == ChainKey(items[k].data) {
      ReadChainNormal(db, items[k]);
      ReadChainKey(db, items[k]);
    }
    assert WrittenChains(t.chains) == t.chains;
  }

  lemma ReadChainKey(db: Db, i: Item<Chain>)
    ensures ChainKey(ReadChain(db, i)) == ChainKey(i.data)
  {}

  lemma TablesNormal(db: Db)
    requires StoreSound(db)
    ensures var ts := TablesOf(db);
      && WrittenTables(ts) == ts && FreshKeys(TableKeys(ts), {})
      && forall k :: 0 <= k < |ts| ==> DistinctInside(ts[k]) && FlowtablesValid(ts[k])
  {
    hide Kept, UniqueKeys, EntriesOk, Items, WrittenTable, DistinctInside, FlowtablesValid, ChainsOf, Values;
    var items := Items(db.tables.rows, 0);
    var ts := TablesOf(db);
    ListedKeys(db.tables, {0}, StoredTable, 0, TableKey);
    forall k | 0 <= k < |ts| ensures WrittenTable(ts[k]) == ts[k] && DistinctInside(ts[k]) && FlowtablesValid(ts[k]) {
      ReadTableNormal(db, items[k]);
    }
    assert WrittenTables(ts) == ts;
  }

  // Entries that are stored survive, all of them, from any sound beginning.
  lemma {:induction false} StoredSurvive(kept: seq<BackupEntry>, es: seq<BackupEntry>)
    requires forall e :: e in es ==> Lists.Canonical(e.cidr) && StoredNote(e.note)
    requires forall i, j :: 0 <= i < j < |kept + es| ==> !Lists.Collide((kept + es)[i].cidr, (kept + es)[j].cidr)
    ensures Surviving(kept, es) == kept + es
    decreases |es|
  {
    hide Lists.Collide, Lists.CleanNote;
    if es == [] {
      assert kept + [] == kept;
    } else {
      var e := es[0];
      forall k | k in kept ensures !Lists.Collide(e.cidr, k.cidr) {
        var i :| 0 <= i < |kept| && kept[i] == k;
        assert (kept + es)[i] == k && (kept + es)[|kept|] == e;
        Lists.CollideSymmetric(k.cidr, e.cidr);
      }
      assert e in es && NormalEntry(e) == e;
      assert kept + [e] + es[1..] == kept + es;
      StoredSurvive(kept + [e], es[1..]);
    }
  }

  lemma ListNormal(db: Db, i: Item<ListHead>)
    requires StoreSound(db) && StoredList(i.data)
    ensures RestoredList(ReadList(db, i)) == ReadList(db, i)
  {
    hide Surviving, EntriesIn, NormalList, ValidList;
    StoredEntries(db, i.id);
    var docs := EntriesIn(db, i.id);
    assert [] + docs == docs;
    StoredSurvive([], docs);
  }

  lemma StoredEntries(db: Db, listId: nat)
    requires StoreSound(db)
    ensures var docs := EntriesIn(db, listId);
      && (forall e :: e in docs ==> Lists.Canonical(e.cidr) && StoredNote(e.note))
      && forall i, j :: 0 <= i < j < |docs| ==> !Lists.Collide(docs[i].cidr, docs[j].cidr)
  {
    hide Lists.Collide, Lists.Canonical, Lists.EntriesOf, StoredNote, Kept, UniqueKeys;
    var rows := db.entries.entries;
    var es := Lists.EntriesOf(rows, listId);
    Render.StoredListSound(rows, listId);
    forall e | e in EntryDocs(es) ensures Lists.Canonical(e.cidr) && StoredNote(e.note) {
      var k :| 0 <= k < |es| && e == EntryDocs(es)[k];
      assert es[k] in es;
    }
  }

  lemma ListsNormal(db: Db)
    requires StoreSound(db)
    ensures var ls := ListsOf(db);
      && RestoredLists(ls) == ls && FreshKeys(ListKeys(ls), {})
      && forall k :: 0 <= k < |ls| ==> ValidList(ls[k].head)
  {
    hide Kept, UniqueKeys, EntriesOk, Items, RestoredList, EntriesIn, NormalList, IsListName, IsHostname;
    var items := Items(db.lists.rows, 0);
    var ls := ListsOf(db);
    ListedKeys(db.lists, {0}, StoredList, 0, ListKey);
    ItemIds(db.lists, {0}, StoredList, 0);
    forall k | 0 <= k < |ls| ensures RestoredList(ls[k]) == ls[k] && ValidList(ls[k].head) && NormalList(ls[k].head) == ls[k].head {
      ListNormal(db, items[k]);
    }
    assert RestoredLists(ls) == ls;
  }

  /** A whole restore: a document that is not valid is refused and changes nothing. */
  ghost predicate Restores(db: Db, doc: Document, renders: (string, Rule) -> bool, o: Outcome) {
    if ValidDocument(doc, renders) then o == Rebuild(db, doc) else o.err.Some? && o.db == db
  }

  /** The round trip: the document built from any sound store, restored over any sound store, succeeds
      exactly when it passes the validation, and then it builds the same document again: the same
      tables, chains, rules, matches, lists and entries in the same order, no entry skipped.
      Otherwise nothing changes. */
  lemma BackupRoundTrip(source: Db, target: Db, renders: (string, Rule) -> bool, o: Outcome)
    requires StoreSound(source) && StoreSound(target) && Restores(target, Build(source), renders, o)
    ensures StoreSound(o.db)
    ensures o.err.None? <==> ValidDocument(Build(source), renders)
    ensures if o.err.None? then Build(o.db) == Build(source) else o.db == target
  {
    hide ValidDocument, StoreSound, Rebuild, Build;
    RebuildRoundTrip(source, target);
  }

  lemma RebuildRoundTrip(source: Db, target: Db)
    requires StoreSound(source) && StoreSound(target)
    ensures var o := Rebuild(target, Build(source));
      o.err.None? && Build(o.db) == Build(source) && StoreSound(o.db)
  {
    hide StoreSound, TablesOf, ListsOf, Rebuild, FreshKeys, ValidList, DistinctInside, FlowtablesValid, WrittenTables, RestoredLists;
    TablesNormal(source);
    ListsNormal(source);
    RebuildExactly(target, Build(source));
  }

  lemma {:induction false} SurvivingLength(kept: seq<BackupEntry>, es: seq<BackupEntry>)
    ensures |kept| <= |Surviving(kept, es)| <= |kept| + |es|
    decreases |es|
  {
    if es != [] {
      if Admits(kept, es[0]) {
        SurvivingLength(kept + [NormalEntry(es[0])], es[1..]);
      } else {
        SurvivingLength(kept, es[1..]);
      }
    }
  }

  predicate Listable(e: BackupEntry) {
    Lists.NormalizeCIDR(e.cidr).Ok? && |Lists.CleanNote(e.note)| <= 120
  }

  predicate Clash(e: BackupEntry, f: BackupEntry)
    requires Listable(e) && Listable(f)
  {
    Lists.Collide(NormalEntry(e).cidr, NormalEntry(f).cidr)
  }

  /** Every entry is listable and no two overlap. */
  predicate AllAdmitted(es: seq<BackupEntry>) {
    && (forall i :: 0 <= i < |es| ==> Listable(es[i]))
    && forall i, j :: 0 <= i < j < |es| ==> !Clash(es[j], es[i])
  }

  predicate ClearOf(kept: seq<BackupEntry>, es: seq<BackupEntry>) {
    forall i, k :: 0 <= i < |es| && k in kept && Listable(es[i]) ==> !Lists.Collide(NormalEntry(es[i]).cidr, k.cidr)
  }

  lemma AdmittedCons(kept: seq<BackupEntry>, es: seq<BackupEntry>)
    requires es != []
    ensures AllAdmitted(es) && ClearOf(kept, es) <==>
              Admits(kept, es[0]) && AllAdmitted(es[1..]) && ClearOf(kept + [NormalEntry(es[0])], es[1..])
  {
    hide Lists.Collide, Lists.NormalizeCIDR, Lists.CleanNote;
    var rest := es[1..];
    if Admits(kept, es[0]) && AllAdmitted(rest) && ClearOf(kept + [NormalEntry(es[0])], rest) {
      forall i | 0 <= i < |es| ensures Listable(es[i]) && forall k :: k in kept ==> !Lists.Collide(NormalEntry(es[i]).cidr, k.cidr) {
        if i > 0 {
          assert es[i] == rest[i - 1];
          assert forall k :: k in kept ==> k in kept + [NormalEntry(es[0])];
        }
      }
      forall i, j | 0 <= i < j < |es| ensures !Clash(es[j], es[i]) {
        assert es[j] == rest[j - 1];
        if i > 0 {
          assert es[i] == rest[i - 1];
        } else {
          assert NormalEntry(es[0]) in kept + [NormalEntry(es[0])];
        }
      }
    }
    if AllAdmitted(es) && ClearOf(kept, es) {
      assert forall i :: 0 <= i < |rest| ==> rest[i] == es[i + 1] && Listable(es[i + 1]) && !Clash(es[i + 1], es[0]);
      forall i, j | 0 <= i < j < |rest| ensures !Clash(rest[j], rest[i]) {
        assert !Clash(es[j + 1], es[i + 1]);
      }
    }
  }

  lemma {:induction false} SkippedExactlyFrom(kept: seq<BackupEntry>, es: seq<BackupEntry>)
    ensures |Surviving(kept, es)| == |kept| + |es| <==> AllAdmitted(es) && ClearOf(kept, es)
    decreases |es|
  {
    hide AllAdmitted, ClearOf;
    if es == [] {
      NothingAdmitted(kept);
    } else {
      AdmittedCons(kept, es);
      if Admits(kept, es[0]) {
        SkippedExactlyFrom(kept + [NormalEntry(es[0])], es[1..]);
      } else {
        SurvivingLength(kept, es[1..]);
      }
    }
  }

  lemma NothingAdmitted(kept: seq<BackupEntry>)
    ensures AllAdmitted([]) && ClearOf(kept, [])
  {}

  /** A restored list loses an entry exactly when some entry cannot be listed, has too long a note,
      or overlaps another. */
  lemma NothingSkippedExactly(es: seq<BackupEntry>)
    ensures |Surviving([], es)| == |es| <==> AllAdmitted(es)
  {
    hide AllAdmitted, Surviving;
    SkippedExactlyFrom([], es);
  }

  // ── What a restored document keeps ────────────────────────────────────────

  ghost predicate KeepsChain(c: Chain, d: Chain) {
    && StoresChain(c, d)
    && |d.rules| == |c.rules| && forall k :: 0 <= k < |c.rules| ==> StoresRule(c.rules[k], d.rules[k])
  }

  ghost predicate KeepsTable(t: Table, u: Table) {
    && StoresTable(t, u)
    && |u.flowtables| == |t.flowtables| && (forall k :: 0 <= k < |t.flowtables| ==> StoresFlowtable(t.flowtables[k], u.flowtables[k]))
    && |u.chains| == |t.chains| && forall k :: 0 <= k < |t.chains| ==> KeepsChain(t.chains[k], u.chains[k])
  }

  /** The entry's prefix with the host bits cleared, and its note on one line without outer blanks. */
  predicate StoresEntry(e: BackupEntry, f: BackupEntry) {
    && EntryPrefix(e.cidr).Some? && EntryPrefix(f.cidr) == Some(Addresses.Masked(EntryPrefix(e.cidr).value))
    && f.note == TrimSpace(NewlinesToSpaces(e.note))
  }

  // The i-th entry can be listed beside the places picked before it.
  predicate Fits(es: seq<BackupEntry>, idx: seq<nat>, i: nat)
    requires i < |es|
  {
    && Listable(es[i])
    && forall j :: j in idx && j < i ==> Listable(es[j]) && !Clash(es[i], es[j])
  }

  ghost predicate PicksEntries(es: seq<BackupEntry>, idx: seq<nat>) {
    Places(idx, |es|) && forall i :: 0 <= i < |es| ==> (i in idx <==> Fits(es, idx, i))
  }

  /** One entry after the other: it is kept exactly when it can be listed and clashes with none kept
      before it. */
  ghost predicate KeepsEntries(es: seq<BackupEntry>, out: seq<BackupEntry>) {
    exists idx :: PicksEntries(es, idx) && SameAt(es, out, idx, StoresEntry)
  }

  ghost predicate KeepsList(l: BackupList, r: BackupList) {
    StoresList(l.head, r.head) && KeepsEntries(l.entries, r.entries)
  }

  /** Nothing of the model is lost or changed but what storing normalises: tables, flowtables, chains,
      rules and lists one for one in order, and of a list's entries those that fit. */
  ghost predicate KeepsDocument(doc: Document, n: Document) {
    && doc.version == 1 && n.version == 1
    && |n.tables| == |doc.tables| && (forall k :: 0 <= k < |doc.tables| ==> KeepsTable(doc.tables[k], n.tables[k]))
    && |n.lists| == |doc.lists| && forall k :: 0 <= k < |doc.lists| ==> KeepsList(doc.lists[k], n.lists[k])
  }

  lemma {:induction false} SurvivingSnoc(kept: seq<BackupEntry>, es: seq<BackupEntry>, e: BackupEntry)
    ensures var s := Surviving(kept, es);
            Surviving(kept, es + [e]) == if Admits(s, e) then s + [NormalEntry(e)] else s
    decreases |es|
  {
    hide NormalEntry, Lists.NormalizeCIDR, Lists.CleanNote, Lists.Collide;
    if es == [] {
      assert ([] + [e])[1..] == [];
    } else {
      assert (es + [e])[1..] == es[1..] + [e];
      SurvivingSnoc(if Admits(kept, es[0]) then kept + [NormalEntry(es[0])] else kept, es[1..], e);
    }
  }

  lemma NormalEntryStored(e: BackupEntry)
    requires Listable(e)
    ensures StoresEntry(e, NormalEntry(e))
  {
    PrefixLiteralRoundTrip(Addresses.Masked(EntryPrefix(e.cidr).value));
  }

  // The places picked so far, and what stands at them.
  ghost predicate Survives(es: seq<BackupEntry>, out: seq<BackupEntry>, idx: seq<nat>) {
    && |idx| == |out| && PicksEntries(es, idx)
    && forall k :: 0 <= k < |out| ==> idx[k] < |es| && Listable(es[idx[k]]) && out[k] == NormalEntry(es[idx[k]])
  }

  lemma {:induction false} EntriesSurvive(es: seq<BackupEntry>) returns (idx: seq<nat>)
    ensures Survives(es, Surviving([], es), idx)
  {
    hide Survives, Admits, Fits, Surviving;
    if es == [] {
      idx := [];
      NoneSurvive();
    } else {
      var n := |es| - 1;
      assert es[..n] + [es[n]] == es;
      var earlier := EntriesSurvive(es[..n]);
      SurvivingSnoc([], es[..n], es[n]);
      SurvivesSnoc(es[..n], Surviving([], es[..n]), earlier, es[n]);
      idx := if Admits(Surviving([], es[..n]), es[n]) then earlier + [n] else earlier;
    }
  }

  lemma NoneSurvive()
    ensures Survives([], Surviving([], []), [])
  {}

  lemma SurvivesSnoc(es: seq<BackupEntry>, out: seq<BackupEntry>, idx: seq<nat>, e: BackupEntry)
    requires Survives(es, out, idx)
    ensures Survives(es + [e], if Admits(out, e) then out + [NormalEntry(e)] else out, if Admits(out, e) then idx + [|es|] else idx)
  {
    hide Lists.NormalizeCIDR, Lists.CleanNote, Lists.Collide, NormalEntry, Places, PicksEntries, Fits, Admits;
    var n := |es|;
    var next := if Admits(out, e) then idx + [n] else idx;
    AdmitsIsFits(es, out, idx, e);
    PicksSnoc(es, idx, e, Admits(out, e));
    forall k | 0 <= k < |next| ensures next[k] < |es + [e]| && Listable((es + [e])[next[k]])
      && (if Admits(out, e) then out + [NormalEntry(e)] else out)[k] == NormalEntry((es + [e])[next[k]])
    {
      if k < |idx| {
        assert next[k] == idx[k] && (es + [e])[idx[k]] == es[idx[k]];
      }
    }
  }

  lemma AdmitsIsFits(es: seq<BackupEntry>, out: seq<BackupEntry>, idx: seq<nat>, e: BackupEntry)
    requires Survives(es, out, idx)
    ensures Admits(out, e) <==> Fits(es + [e], idx, |es|)
    ensures Admits(out, e) ==> Listable(e)
  {
    hide Lists.NormalizeCIDR, Lists.CleanNote, Lists.Collide, PicksEntries, Places;
    var all := es + [e];
    assert all[|es|] == e;
    InRange(es, idx);
    if Listable(e) {
      if Admits(out, e) {
        forall j | j in idx && j < |es| ensures Listable(all[j]) && !Clash(e, all[j]) {
          var k :| 0 <= k < |idx| && idx[k] == j;
          assert out[k] in out && all[j] == es[j];
        }
      }
      if Fits(all, idx, |es|) {
        forall f | f in out ensures !Lists.Collide(NormalEntry(e).cidr, f.cidr) {
          var k :| 0 <= k < |out| && out[k] == f;
          assert idx[k] in idx && all[idx[k]] == es[idx[k]];
        }
      }
    }
  }

  lemma InRange(es: seq<BackupEntry>, idx: seq<nat>)
    requires PicksEntries(es, idx)
    ensures forall j :: j in idx ==> j < |es|
  {}

  lemma PicksSnoc(es: seq<BackupEntry>, idx: seq<nat>, e: BackupEntry, fits: bool)
    requires PicksEntries(es, idx) && (fits <==> Fits(es + [e], idx, |es|))
    ensures PicksEntries(es + [e], if fits then idx + [|es|] else idx)
  {
    hide Lists.NormalizeCIDR, Lists.CleanNote, Lists.Collide, NormalEntry, Listable, Clash;
    var all := es + [e];
    var next := if fits then idx + [|es|] else idx;
    InRange(es, idx);
    forall i | 0 <= i < |all| ensures i in next <==> Fits(all, next, i) {
      SameFits(es, idx, e, next, i);
    }
  }

  lemma SameFits(es: seq<BackupEntry>, idx: seq<nat>, e: BackupEntry, next: seq<nat>, i: nat)
    requires i <= |es| && (next == idx || next == idx + [|es|]) && forall j :: j in idx ==> j < |es|
    ensures Fits(es + [e], next, i) <==> if i < |es| then Fits(es, idx, i) else Fits(es + [e], idx, i)
  {
    hide Lists.NormalizeCIDR, Lists.CleanNote, Lists.Collide, NormalEntry;
    assert forall j :: 0 <= j < |es| ==> (es + [e])[j] == es[j];
    assert forall j :: j < i ==> (j in next <==> j in idx);
  }

  lemma EntriesKept(es: seq<BackupEntry>)
    ensures KeepsEntries(es, Surviving([], es))
  {
    hide PicksEntries, Surviving, NormalEntry, Listable, StoresEntry;
    var idx := EntriesSurvive(es);
    var out := Surviving([], es);
    forall k | 0 <= k < |out| ensures idx[k] < |es| && StoresEntry(es[idx[k]], out[k]) {
      NormalEntryStored(es[idx[k]]);
    }
    assert SameAt(es, out, idx, StoresEntry);
  }

  /** The normal form of a document keeps it. */
  lemma NormalDocumentKeeps(doc: Document)
    requires doc.version == 1
    ensures KeepsDocument(doc, NormalDocument(doc))
  {
    hide StoresRule, StoresFlowtable, StoresList, KeepsEntries, WrittenRule, NormalFlowtable, NormalList, Surviving;
    forall k | 0 <= k < |doc.tables| ensures KeepsTable(doc.tables[k], NormalDocument(doc).tables[k]) {
      TableKept(doc.tables[k]);
    }
    forall k | 0 <= k < |doc.lists| ensures KeepsList(doc.lists[k], NormalDocument(doc).lists[k]) {
      ListStored(doc.lists[k].head);
      EntriesKept(doc.lists[k].entries);
    }
  }

  lemma TableKept(t: Table)
    ensures KeepsTable(t, WrittenTable(t))
  {
    hide StoresRule, StoresFlowtable, WrittenRule, NormalFlowtable;
    forall k | 0 <= k < |t.flowtables| ensures StoresFlowtable(t.flowtables[k], WrittenTable(t).flowtables[k]) {
      FlowtableStored(t.flowtables[k]);
    }
    forall k | 0 <= k < |t.chains| ensures KeepsChain(t.chains[k], WrittenTable(t).chains[k]) {
      var c := t.chains[k];
      forall i | 0 <= i < |c.rules| ensures StoresRule(c.rules[i], WrittenChain(c).rules[i]) {
        RuleStored(c.rules[i]);
      }
    }
  }

  /** The validation takes a blank kind for base, but the kind is stored as given. */
  lemma BlankKindIsValid(c: Chain)
    ensures ValidChain(c.(kind := "")) <==> ValidChain(c.(kind := "base"))
    ensures !IsBase(c.(kind := ""))
  {
    assert TrimSpace("base") == "base" && TrimSpace("") == "" by {
      TrimmedAlready("base");
    }
    hide TrimSpace;
  }

  /** So of the chains validated as base, exactly those whose kind is base to the letter hook in after
      the restore. */
  lemma RestoredHooksExactly(doc: Document, n: Document, lists: seq<NamedList>, p: Matching.Packet, i: nat, k: nat)
    requires KeepsDocument(doc, n) && i < |doc.tables| && k < |doc.tables[i].chains|
    requires BaseToValidate(doc.tables[i].chains[k]) && doc.tables[i].chains[k].chainType != "nat"
    requires Simulation.Meets(doc.tables[i].family, p)
    ensures var c, trees := doc.tables[i].chains[k], Sets.LoadModel(n.tables, lists);
            && |trees| == |doc.tables| && |trees[i].table.chains| == |doc.tables[i].chains|
            && (Simulation.BaseChain(trees[i], trees[i].table.chains[k]) in Simulation.Candidates(trees, c.hook, p) <==> c.kind == "base")
  {
    hide StoresRule, StoresFlowtable, KeepsList, TrimSpace;
    var c, trees := doc.tables[i].chains[k], Sets.LoadModel(n.tables, lists);
    assert KeepsTable(doc.tables[i], n.tables[i]) && KeepsChain(c, n.tables[i].chains[k]);
    Simulation.CandidatesExactly(trees, c.hook, p, Simulation.BaseChain(trees[i], trees[i].table.chains[k]));
  }

  lemma LoadedTable(t: Table, lists: seq<NamedList>)
    ensures Sets.Loaded(t, lists).table == t
  {}

  // Where a stored chain comes from.
  lemma KeptChain(doc: Document, n: Document, u: Table, d: Chain) returns (t: Table, c: Chain)
    requires KeepsDocument(doc, n) && u in n.tables && d in u.chains
    ensures t in doc.tables && c in t.chains && StoresChain(c, d)
  {
    hide StoresRule, StoresFlowtable, KeepsList, StoresTable, StoresChain;
    var i :| 0 <= i < |n.tables| && n.tables[i] == u;
    var k :| 0 <= k < |u.chains| && u.chains[k] == d;
    t := doc.tables[i];
    assert KeepsTable(t, u);
    c := t.chains[k];
    assert KeepsChain(c, d);
  }

  /** And every chain that hooks in was validated as base: it has a priority that can be read and a
      policy that rules. */
  lemma RestoredChainsRule(doc: Document, n: Document, renders: (string, Rule) -> bool, lists: seq<NamedList>, hook: string, p: Matching.Packet, b: Simulation.BaseChain)
    requires ValidDocument(doc, renders) && KeepsDocument(doc, n)
    requires b in Simulation.Candidates(Sets.LoadModel(n.tables, lists), hook, p)
    ensures Simulation.ValidPolicy(b.chain.policy) && !b.chain.priority.Unreadable?
    ensures b.chain.hook in HOOKS && (b.chain.chainType == "filter" || b.chain.chainType == "route")
  {
    hide KeepsDocument, TrimSpace, ValidTable, ValidFlowtable, Sets.IsIdentifier;
    hide Sets.Loaded, Simulation.Meets;
    var trees := Sets.LoadModel(n.tables, lists);
    Simulation.CandidatesExactly(trees, hook, p, b);
    assert b.tree.table in n.tables by {
      var i :| 0 <= i < |trees| && trees[i] == b.tree;
      LoadedTable(n.tables[i], lists);
    }
    var t, c := KeptChain(doc, n, b.tree.table, b.chain);
    assert ValidTableDoc(t, renders) && ValidChain(c);
    assert TrimSpace("base") == "base" by {
      TrimmedAlready("base");
    }
  }

  /** A document may pass validation and still be refused half-way: the old model is gone by then
      and only the first of two equal tables is there. */
  lemma HalfRestored(db: Db, renders: (string, Rule) -> bool)
    requires StoreSound(db)
    ensures var t := Table("inet", "filter", "", [], []);
      var doc := Document(VERSION, [t, t], []);
      var o := Rebuild(db, doc);
      && ValidDocument(doc, renders) && o.err == Some(DuplicateTable)
      && Build(o.db) == Document(VERSION, [t], [])
  {
    hide StoreSound, WipeTables, WipeLists, TablesOf, ListsOf, Items, PutTables, ValidTable, TableHead, ValidDocument;
    var t := Table("inet", "filter", "", [], []);
    StarterValid(renders);
    WipedIsEmpty(db);
    var bare := WipeTables(db, Items(db.tables.rows, 0));
    var empty := WipeLists(bare, Items(bare.lists.rows, 0)).db;
    TwiceRefused(empty);
  }

  lemma StarterValid(renders: (string, Rule) -> bool)
    ensures var t := Table("inet", "filter", "", [], []); ValidDocument(Document(VERSION, [t, t], []), renders)
  {
    TrimmedAlready("inet");
    TrimmedAlready("filter");
    TrimmedAlready("");
  }

  lemma TwiceRefused(empty: Db)
    requires Emptied(empty)
    ensures var t := Table("inet", "filter", "", [], []);
      PutTables(empty, [t, t]).err == Some(DuplicateTable) && Build(PutTables(empty, [t, t]).db) == Document(VERSION, [t], [])
  {
    hide StoreSound, TablesOf, ListsOf, Items, Add, PutTable, Taken;
    var t := Table("inet", "filter", "", [], []);
    assert !Taken(empty.tables.rows, 0, TableKey, TableKey(t)) by {
      NoneTaken(empty, t);
    }
    PutTableEffect(empty, t);
    var one := PutTable(empty, t).db;
    AddTaken(empty.tables, 0, TableHead(t), 0, TableKey, TableKey(t));
    SameLists(empty, one);
    assert WrittenTable(t) == t;
    assert [] + [t] == [t];
    AgainRefused(one, t);
    assert [t, t][1..] == [t];
    assert PutTables(empty, [t, t]) == PutTables(one, [t]);
  }

  lemma NoneTaken(db: Db, t: Table)
    requires db.tables.rows == []
    ensures !Taken(db.tables.rows, 0, TableKey, TableKey(t))
  {}

  lemma AgainRefused(db: Db, t: Table)
    requires Taken(db.tables.rows, 0, TableKey, TableKey(t))
    ensures PutTables(db, [t]) == Outcome(db, Some(DuplicateTable))
  {
    hide Taken;
  }

  // ── The code ──────────────────────────────────────────────────────────────

  method ValidateRules(family: string, rules: seq<Rule>, renders: (string, Rule) -> bool) returns (ok: bool)
    ensures ok <==> forall r :: r in rules ==> renders(family, r)
  {
    for i := 0 to |rules|
      invariant forall k :: 0 <= k < i ==> renders(family, rules[k])
    {
      if !renders(family, rules[i]) {
        return false;
      }
    }
    ok := true;
  }

  method ValidateTable(t: Table, renders: (string, Rule) -> bool) returns (err: Option<Failure>)
    ensures err.None? <==> ValidTableDoc(t, renders)
  {
    hide ValidTable, ValidChain, ValidFlowtable;
    if !ValidTable(t) {
      return Some(BadTable);
    }
    for i := 0 to |t.flowtables|
      invariant forall k :: 0 <= k < i ==> ValidFlowtable(t.flowtables[k])
    {
      if !ValidFlowtable(t.flowtables[i]) {
        return Some(BadFlowtable);
      }
    }
    for i := 0 to |t.chains|
      invariant forall k :: 0 <= k < i ==> ValidChain(t.chains[k]) && forall r :: r in t.chains[k].rules ==> renders(t.family, r)
    {
      if !ValidChain(t.chains[i]) {
        return Some(BadChain);
      }
      var ok := ValidateRules(t.family, t.chains[i].rules, renders);
      if !ok {
        return Some(BadRule);
      }
    }
    err := None;
  }

  method ValidateDocument(doc: Document, renders: (string, Rule) -> bool) returns (err: Option<Failure>)
    ensures err.None? <==> ValidDocument(doc, renders)
  {
    hide ValidTableDoc;
    if doc.version != VERSION {
      return Some(BadVersion);
    }
    for i := 0 to |doc.tables|
      invariant forall k :: 0 <= k < i ==> ValidTableDoc(doc.tables[k], renders)
    {
      err := ValidateTable(doc.tables[i], renders);
      if err.Some? {
        return;
      }
    }
    err := None;
  }

  lemma ValidFlowtables(doc: Document, renders: (string, Rule) -> bool)
    requires ValidDocument(doc, renders)
    ensures forall i :: 0 <= i < |doc.tables| ==> FlowtablesValid(doc.tables[i])
  {
    hide ValidTable, ValidChain, ValidFlowtable;
    assert forall i :: 0 <= i < |doc.tables| ==> doc.tables[i] in doc.tables;
  }

  class Store {
    var db: Db

    constructor (db: Db)
      ensures this.db == db
    {
      this.db := db;
    }

    method InsertRules(chainId: nat, rules: seq<Rule>) returns (err: Option<Failure>)
      modifies this
      ensures Outcome(db, err) == PutRules(old(db), chainId, rules)
    {
      hide CreateRule;
      assert rules[0..] == rules;
      for i := 0 to |rules|
        invariant PutRules(db, chainId, rules[i..]) == PutRules(old(db), chainId, rules)
      {
        assert rules[i..][1..] == rules[i + 1..];
        var o := CreateRule(db, chainId, rules[i]);
        db := o.db;
        if o.err.Some? {
          return o.err;
        }
      }
      err := None;
    }

    method InsertChains(tableId: nat, chains: seq<Chain>) returns (err: Option<Failure>)
      modifies this
      ensures Outcome(db, err) == PutChains(old(db), tableId, chains)
    {
      hide CreateChain, PutRules;
      assert chains[0..] == chains;
      for i := 0 to |chains|
        invariant PutChains(db, tableId, chains[i..]) == PutChains(old(db), tableId, chains)
      {
        assert chains[i..][1..] == chains[i + 1..];
        var chainId := db.chains.nextId;
        var o := CreateChain(db, tableId, chains[i]);
        db := o.db;
        if o.err.Some? {
          return o.err;
        }
        err := InsertRules(chainId, chains[i].rules);
        if err.Some? {
          return;
        }
      }
      err := None;
    }

    method InsertFlowtables(tableId: nat, fs: seq<Flowtable>) returns (err: Option<Failure>)
      modifies this
      ensures Outcome(db, err) == PutFlowtables(old(db), tableId, fs)
    {
      hide CreateFlowtable;
      assert fs[0..] == fs;
      for i := 0 to |fs|
        invariant PutFlowtables(db, tableId, fs[i..]) == PutFlowtables(old(db), tableId, fs)
      {
        assert fs[i..][1..] == fs[i + 1..];
        var o := CreateFlowtable(db, tableId, fs[i]);
        db := o.db;
        if o.err.Some? {
          return o.err;
        }
      }
      err := None;
    }

    method InsertTables(tables: seq<Table>) returns (err: Option<Failure>)
      modifies this
      ensures Outcome(db, err) == PutTables(old(db), tables)
    {
      hide CreateTable, PutFlowtables, PutChains;
      assert tables[0..] == tables;
      for i := 0 to |tables|
        invariant PutTables(db, tables[i..]) == PutTables(old(db), tables)
      {
        assert tables[i..][1..] == tables[i + 1..];
        var tableId := db.tables.nextId;
        var o := CreateTable(db, tables[i]);
        db := o.db;
        if o.err.Some? {
          return o.err;
        }
        err := InsertFlowtables(tableId, tables[i].flowtables);
        if err.Some? {
          return;
        }
        err := InsertChains(tableId, tables[i].chains);
        if err.Some? {
          return;
        }
      }
      err := None;
    }

    method InsertLists(lists: seq<BackupList>) returns (err: Option<Failure>)
      modifies this
      ensures Outcome(db, err) == PutLists(old(db), lists)
    {
      hide CreateList, AddEntry, WithSource;
      assert lists[0..] == lists;
      for i := 0 to |lists|
        invariant PutLists(db, lists[i..]) == PutLists(old(db), lists)
      {
        assert lists[i..][1..] == lists[i + 1..];
        var listId := db.lists.nextId;
        var o := CreateList(db, WithSource(lists[i].head));
        db := o.db;
        if o.err.Some? {
          return o.err;
        }
        var es := lists[i].entries;
        assert es[0..] == es;
        for j := 0 to |es|
          invariant PutEntries(db, listId, es[j..]) == PutEntries(o.db, listId, es)
        {
          assert es[j..][1..] == es[j + 1..];
          db := AddEntry(db, listId, es[j].cidr, es[j].note);
        }
      }
      err := None;
    }

    method ResetTables()
      modifies this
      ensures db == WipeTables(old(db), Items(old(db).tables.rows, 0))
    {
      hide DeleteTable, Items;
      var items := Items(db.tables.rows, 0);
      assert items[0..] == items;
      for i := 0 to |items|
        invariant WipeTables(db, items[i..]) == WipeTables(old(db), items)
      {
        assert items[i..][1..] == items[i + 1..];
        db := DeleteTable(db, items[i].id);
      }
    }

    method ResetLists() returns (err: Option<Failure>)
      modifies this
      ensures Outcome(db, err) == WipeLists(old(db), Items(old(db).lists.rows, 0))
    {
      hide DeleteList, Items;
      var items := Items(db.lists.rows, 0);
      assert items[0..] == items;
      for i := 0 to |items|
        invariant WipeLists(db, items[i..]) == WipeLists(old(db), items)
      {
        assert items[i..][1..] == items[i + 1..];
        var o := DeleteList(db, items[i].id);
        db := o.db;
        if o.err.Some? {
          return o.err;
        }
      }
      err := None;
    }

    /** Nothing is touched unless the document passes validation; then the store is rebuilt, and the
        outcome is a success exactly when the document is acceptable. */
    method RestoreBackup(doc: Document, renders: (string, Rule) -> bool) returns (err: Option<Failure>)
      requires StoreSound(db)
      modifies this
      ensures StoreSound(db)
      ensures Restores(old(db), doc, renders, Outcome(db, err))
      ensures err.None? <==> ValidDocument(doc, renders) && Acceptable(doc)
      ensures err.None? ==> Build(db) == NormalDocument(doc) && KeepsDocument(doc, Build(db))
    {
      hide KeepsDocument;
      if doc.version == VERSION {
        NormalDocumentKeeps(doc);
      }
      hide WipeTables, WipeLists, PutLists, PutTables, StoreSound, Acceptable, Build, NormalDocument, Items;
      err := ValidateDocument(doc, renders);
      if err.Some? {
        return;
      }
      ValidFlowtables(doc, renders);
      RebuildExactly(db, doc);
      ResetTables();
      err := ResetLists();
      if err.Some? {
        return;
      }
      err := InsertLists(doc.lists);
      if err.Some? {
        return;
      }
      err := InsertTables(doc.tables);
    }

    method BuildChains(tableId: nat) returns (out: seq<Chain>)
      ensures out == ChainsOf(db, tableId)
    {
      hide Items, Values;
      out := [];
      var items := Items(db.chains.rows, tableId);
      for i := 0 to |items|
        invariant out == ReadChains(db, items)[..i]
      {
        var rules := Values(db.rules, items[i].id);
        out := out + [items[i].data.(rules := rules)];
      }
    }

    method BuildBackup() returns (doc: Document)
      ensures doc == Build(db)
    {
      hide Items, ChainsOf, Values, EntriesIn;
      var tables: seq<Table> := [];
      var items := Items(db.tables.rows, 0);
      for i := 0 to |items|
        invariant tables == ReadTables(db, items)[..i]
      {
        var flowtables := Values(db.flowtables, items[i].id);
        var chains := BuildChains(items[i].id);
        tables := tables + [items[i].data.(flowtables := flowtables, chains := chains)];
      }
      var lists: seq<BackupList> := [];
      var heads := Items(db.lists.rows, 0);
      for i := 0 to |heads|
        invariant lists == ReadLists(db, heads)[..i]
      {
        lists := lists + [BackupList(heads[i].data, EntriesIn(db, heads[i].id))];
      }
      doc := Document(VERSION, tables, lists);
    }
  }
}
