/** The stored model (internal/store): the position tables of nftables objects and of named lists,
    the list entries, and the operations that create and delete their rows. */
module Database {
  import opened Wrappers
  import opened Selection
  import opened Strings
  import opened Model
  import opened Positions
  import Lists
  import Sets

  datatype ListHead = ListHead(name: string, note: string, source: string, sourceArg: string, autoRefresh: bool)

  /** Scopes: 0 for tables and lists, the table's id for chains and flowtables, the chain's id for
      rules. A table row carries no chains of its own and a chain row no rules. */
  datatype Db = Db(
    tables: State<Table>,
    flowtables: State<Flowtable>,
    chains: State<Chain>,
    rules: State<Rule>,
    lists: State<ListHead>,
    entries: Lists.Rows)

  datatype Failure =
    | BadVersion | BadTable | BadFlowtable | BadChain | BadRule | BadList
    | DuplicateTable | DuplicateFlowtable | DuplicateChain | DuplicateList
    | StillReferenced | Missing

  datatype Outcome = Outcome(db: Db, err: Option<Failure>)

  // ── Validation ────────────────────────────────────────────────────────────

  const FAMILIES := {"inet", "ip", "ip6", "arp", "bridge", "netdev"}
  const HOOKS := {"input", "output", "forward", "prerouting", "postrouting", "ingress", "egress"}
  const DEVICE_HOOKS := {"ingress", "egress"}
  const CHAIN_TYPES := {"filter", "nat", "route"}
  const POLICIES := {"accept", "drop"}
  const PRIORITY_WORDS := {"raw", "mangle", "dstnat", "filter", "security", "srcnat", "out"}
  const SOURCES := {"manual", "geoip", "url", "dns"}

  predicate SafeComment(s: string) {
    forall c :: c in s ==> c != '"' && c != '\\' && c != '\n' && c != '\r'
  }

  predicate ValidTable(t: Table) {
    TrimSpace(t.family) in FAMILIES && Sets.IsIdentifier(TrimSpace(t.name)) && SafeComment(TrimSpace(t.comment))
  }

  // A keyword may only be offset with a plus sign.
  predicate ValidPriority(p: Priority) {
    match p
    case Absolute(_) => true
    case Keyword(word) => word in PRIORITY_WORDS
    case Offset(word, plus, _) => plus && word in PRIORITY_WORDS
    case Unreadable(_) => false
  }

  predicate IsInterfaceName(s: string) {
    && 1 <= |s| <= 64
    && forall i :: 0 <= i < |s| ==>
         'a' <= s[i] <= 'z' || 'A' <= s[i] <= 'Z' || '0' <= s[i] <= '9' || s[i] == '.' || s[i] == '_' || s[i] == '-'
  }

  predicate ValidChain(c: Chain) {
    var kind := if TrimSpace(c.kind) == "" then "base" else TrimSpace(c.kind);
    && Sets.IsIdentifier(TrimSpace(c.name))
    && (kind == "base" || kind == "regular")
    && (kind == "base" ==>
          && c.hook in HOOKS && c.chainType in CHAIN_TYPES && ValidPriority(c.priority)
          && (c.policy == "" || c.policy in POLICIES)
          && (c.hook in DEVICE_HOOKS ==> IsInterfaceName(TrimSpace(c.device))))
  }

  function CleanDevices(devices: seq<string>): (r: seq<string>) {
    if devices == [] then []
    else if TrimSpace(devices[0]) != "" then [TrimSpace(devices[0])] + CleanDevices(devices[1..])
    else CleanDevices(devices[1..])
  }

  // What CreateFlowtable stores.
  function NormalFlowtable(f: Flowtable): (g: Flowtable) {
    Flowtable(
      TrimSpace(f.name),
      if f.priority.Unreadable? && TrimSpace(f.priority.text) == "" then Keyword("filter") else f.priority,
      CleanDevices(f.devices),
      f.offload)
  }

  predicate ValidFlowtable(f: Flowtable) {
    var g := NormalFlowtable(f);
    && Sets.IsIdentifier(g.name) && ValidPriority(g.priority)
    && g.devices != [] && forall d :: d in g.devices ==> IsInterfaceName(d)
  }

  predicate IsListName(s: string) {
    && 1 <= |s| <= 24 && 'a' <= s[0] <= 'z'
    && forall i :: 0 <= i < |s| ==> 'a' <= s[i] <= 'z' || '0' <= s[i] <= '9' || s[i] == '_'
  }

  predicate IsLetter(c: char) {
    'a' <= c <= 'z' || 'A' <= c <= 'Z'
  }

  predicate IsHostLabel(s: string) {
    && 1 <= |s| <= 63 && s[0] != '-' && s[|s| - 1] != '-'
    && forall i :: 0 <= i < |s| ==> IsLetter(s[i]) || '0' <= s[i] <= '9' || s[i] == '-'
  }

  predicate IsHostname(s: string) {
    var labels := SplitOn(s, '.');
    |labels| >= 2 && forall l :: l in labels ==> IsHostLabel(l)
  }

  // validateList rewrites its argument before the insert.
  function NormalList(l: ListHead): (n: ListHead) {
    var source := if l.source == "" then "manual" else l.source;
    var arg := TrimSpace(l.sourceArg);
    ListHead(
      TrimSpace(l.name),
      TrimSpace(l.note),
      source,
      if source == "geoip" then ToUpper(arg) else if source == "dns" then ToLower(arg) else if source == "url" then arg else "",
      l.autoRefresh && (source == "geoip" || source == "dns" || source == "url"))
  }

  predicate ValidList(l: ListHead) {
    var n := NormalList(l);
    && IsListName(n.name) && n.source in SOURCES && |n.note| <= 200
    && (n.source == "geoip" ==> |n.sourceArg| == 2 && IsLetter(n.sourceArg[0]) && IsLetter(n.sourceArg[1]))
    && (n.source == "url" ==> "https://" <= n.sourceArg || "http://" <= n.sourceArg)
    && (n.source == "dns" ==> IsHostname(n.sourceArg))
  }

  lemma {:induction false} CleanDevicesIdempotent(devices: seq<string>)
    ensures CleanDevices(CleanDevices(devices)) == CleanDevices(devices)
  {
    if devices != [] {
      CleanDevicesIdempotent(devices[1..]);
      TrimSpaceIdempotent(devices[0]);
    }
  }

  /** Storing what is stored changes nothing, for flowtables and for lists. */
  lemma NormalFlowtableIdempotent(f: Flowtable)
    ensures NormalFlowtable(NormalFlowtable(f)) == NormalFlowtable(f)
  {
    CleanDevicesIdempotent(f.devices);
    TrimSpaceIdempotent(f.name);
  }

  lemma NormalListIdempotent(l: ListHead)
    ensures NormalList(NormalList(l)) == NormalList(l)
  {
    hide TrimSpace, ToUpper, ToLower;
    TrimSpaceIdempotent(l.name);
    TrimSpaceIdempotent(l.note);
    TrimSpaceIdempotent(l.sourceArg);
    CaseIdempotent(TrimSpace(l.sourceArg));
    TrimSpaceCase(TrimSpace(l.sourceArg));
    assert TrimSpace("") == "" by {
      TrimSpaceEmpty();
    }
  }

  lemma TrimSpaceEmpty()
    ensures TrimSpace("") == ""
  {}

  // ── Stored forms ──────────────────────────────────────────────────────────

  // writeChildren: a child without a key is left out, a match without an operator compares.
  function WrittenMatches(ms: seq<Match>): (r: seq<Match>) {
    if ms == [] then []
    else if TrimSpace(ms[0].key) == "" then WrittenMatches(ms[1..])
    else [if ms[0].op == "" then ms[0].(op := "==") else ms[0]] + WrittenMatches(ms[1..])
  }

  function WrittenStatements(sts: seq<Statement>): (r: seq<Statement>) {
    if sts == [] then []
    else if TrimSpace(sts[0].key) == "" then WrittenStatements(sts[1..])
    else [sts[0]] + WrittenStatements(sts[1..])
  }

  function WrittenRule(r: Rule): (q: Rule) {
    r.(matches := WrittenMatches(r.matches), statements := WrittenStatements(r.statements))
  }

  function TableHead(t: Table): (h: Table) {
    t.(flowtables := [], chains := [])
  }

  function ChainHead(c: Chain): (h: Chain) {
    c.(rules := [])
  }

  lemma {:induction false} WrittenMatchesIdempotent(ms: seq<Match>)
    ensures WrittenMatches(WrittenMatches(ms)) == WrittenMatches(ms)
  {
    if ms != [] {
      WrittenMatchesIdempotent(ms[1..]);
    }
  }

  lemma {:induction false} WrittenStatementsIdempotent(sts: seq<Statement>)
    ensures WrittenStatements(WrittenStatements(sts)) == WrittenStatements(sts)
  {
    if sts != [] {
      WrittenStatementsIdempotent(sts[1..]);
    }
  }

  lemma WrittenRuleIdempotent(r: Rule)
    ensures WrittenRule(WrittenRule(r)) == WrittenRule(r)
  {
    WrittenMatchesIdempotent(r.matches);
    WrittenStatementsIdempotent(r.statements);
  }

  // ── What a stored form keeps ──────────────────────────────────────────────

  predicate HasKey(m: Match) {
    !Blank(m.key)
  }

  predicate StoresMatch(m: Match, q: Match) {
    && q.key == m.key && q.value == m.value && q.number == m.number
    && q.op == if m.op == "" then "==" else m.op
  }

  predicate StatementHasKey(st: Statement) {
    !Blank(st.key)
  }

  predicate SameStatement(st: Statement, q: Statement) {
    q == st
  }

  /** The stored rule is the rule: every field as given, and of its conditions and statements exactly
      those with a key, in order, with a missing operator read as equality. */
  ghost predicate StoresRule(r: Rule, q: Rule) {
    && q.comment == r.comment && q.enabled == r.enabled && q.raw == r.raw && q.tags == r.tags
    && Filters(r.matches, q.matches, HasKey, StoresMatch)
    && Filters(r.statements, q.statements, StatementHasKey, SameStatement)
  }

  predicate StoresTable(t: Table, u: Table) {
    u.family == t.family && u.name == t.name && u.comment == t.comment
  }

  predicate StoresChain(c: Chain, d: Chain) {
    && d.name == c.name && d.kind == c.kind && d.hook == c.hook && d.chainType == c.chainType
    && d.priority == c.priority && d.policy == c.policy && d.device == c.device
  }

  predicate NotBlank(s: string) {
    !Blank(s)
  }

  predicate TrimsTo(s: string, t: string) {
    TrimSpace(s) == t
  }

  /** A blank priority is the filter hook's; of the devices exactly those that are not blank. */
  ghost predicate StoresFlowtable(f: Flowtable, g: Flowtable) {
    && TrimsTo(f.name, g.name) && g.offload == f.offload
    && g.priority == (if f.priority.Unreadable? && Blank(f.priority.text) then Keyword("filter") else f.priority)
    && Filters(f.devices, g.devices, NotBlank, TrimsTo)
  }

  /** A list without a source is a manual one; a manual list has no argument and never refreshes. */
  predicate StoresList(l: ListHead, n: ListHead) {
    && TrimsTo(l.name, n.name) && TrimsTo(l.note, n.note)
    && n.source == (if l.source == "" then "manual" else l.source)
    && (n.source == "url" ==> n.sourceArg == TrimSpace(l.sourceArg) && n.autoRefresh == l.autoRefresh)
    && (n.source == "geoip" ==> n.sourceArg == ToUpper(TrimSpace(l.sourceArg)) && n.autoRefresh == l.autoRefresh)
    && (n.source == "dns" ==> n.sourceArg == ToLower(TrimSpace(l.sourceArg)) && n.autoRefresh == l.autoRefresh)
    && (n.source == "manual" ==> n.sourceArg == "" && !n.autoRefresh)
  }

  lemma {:induction false} MatchesStored(ms: seq<Match>)
    ensures Filters(ms, WrittenMatches(ms), HasKey, StoresMatch)
    ensures |WrittenMatches(ms)| <= |ms|
    ensures WrittenMatches(ms) == ms <==> forall m :: m in ms ==> HasKey(m) && m.op != ""
  {
    hide Filters, TrimSpace, Blank;
    if ms == [] {
      FiltersNothing<Match, Match>(HasKey, StoresMatch);
    } else {
      MatchesStored(ms[1..]);
      TrimBlank(ms[0].key);
      var w := if ms[0].op == "" then ms[0].(op := "==") else ms[0];
      var rest := WrittenMatches(ms[1..]);
      FiltersCons(ms[0], ms[1..], if HasKey(ms[0]) then [w] else [], rest, HasKey, StoresMatch);
      assert [ms[0]] + ms[1..] == ms && ms[0] in ms && [] + rest == rest;
      if HasKey(ms[0]) {
        assert WrittenMatches(ms) == [w] + rest;
        assert ([w] + rest)[0] == w && ([w] + rest)[1..] == rest;
      }
    }
  }

  lemma {:induction false} StatementsStored(sts: seq<Statement>)
    ensures Filters(sts, WrittenStatements(sts), StatementHasKey, SameStatement)
    ensures |WrittenStatements(sts)| <= |sts|
  {
    hide Filters, TrimSpace, Blank;
    if sts == [] {
      FiltersNothing<Statement, Statement>(StatementHasKey, SameStatement);
    } else {
      StatementsStored(sts[1..]);
      TrimBlank(sts[0].key);
      var rest := WrittenStatements(sts[1..]);
      FiltersCons(sts[0], sts[1..], if StatementHasKey(sts[0]) then [sts[0]] else [], rest, StatementHasKey, SameStatement);
      assert [sts[0]] + sts[1..] == sts && [] + rest == rest;
    }
  }

  lemma {:induction false} AllStatementsStored(sts: seq<Statement>)
    ensures WrittenStatements(sts) == sts <==> forall st :: st in sts ==> StatementHasKey(st)
  {
    hide TrimSpace, Blank;
    if sts != [] {
      var st, rest := sts[0], sts[1..];
      AllStatementsStored(rest);
      TrimBlank(st.key);
      assert sts == [st] + rest;
      if StatementHasKey(st) {
        ConsSame(st, WrittenStatements(rest), rest);
      } else {
        StatementsStored(rest);
      }
    }
  }

  lemma ConsSame<T>(x: T, a: seq<T>, b: seq<T>)
    ensures [x] + a == [x] + b <==> a == b
  {
    assert ([x] + a)[1..] == a && ([x] + b)[1..] == b;
  }

  /** A rule is stored as it is, disabled ones included. */
  lemma RuleStored(r: Rule)
    ensures StoresRule(r, WrittenRule(r))
  {
    hide Filters, WrittenMatches, WrittenStatements;
    MatchesStored(r.matches);
    StatementsStored(r.statements);
  }

  lemma {:induction false} DevicesStored(devices: seq<string>)
    ensures Filters(devices, CleanDevices(devices), NotBlank, TrimsTo)
  {
    hide Filters, TrimSpace, Blank;
    if devices == [] {
      FiltersNothing<string, string>(NotBlank, TrimsTo);
    } else {
      DevicesStored(devices[1..]);
      TrimBlank(devices[0]);
      var rest := CleanDevices(devices[1..]);
      FiltersCons(devices[0], devices[1..], if NotBlank(devices[0]) then [TrimSpace(devices[0])] else [], rest, NotBlank, TrimsTo);
      assert [devices[0]] + devices[1..] == devices && [] + rest == rest;
    }
  }

  lemma FlowtableStored(f: Flowtable)
    ensures StoresFlowtable(f, NormalFlowtable(f))
  {
    hide Filters, TrimSpace, Blank;
    DevicesStored(f.devices);
    if f.priority.Unreadable? {
      TrimBlank(f.priority.text);
    }
  }

  lemma ListStored(l: ListHead)
    ensures StoresList(l, NormalList(l))
  {
    hide TrimSpace;
  }

  lemma HeadsStored(t: Table, c: Chain)
    ensures StoresTable(t, TableHead(t)) && TableHead(t).flowtables == [] && TableHead(t).chains == []
    ensures StoresChain(c, ChainHead(c)) && ChainHead(c).rules == []
  {}

  // The UNIQUE columns.
  function TableKey(t: Table): (k: seq<string>) {
    [t.family, t.name]
  }

  function FlowtableKey(f: Flowtable): (k: seq<string>) {
    [f.name]
  }

  function ChainKey(c: Chain): (k: seq<string>) {
    [c.name]
  }

  function ListKey(l: ListHead): (k: seq<string>) {
    [l.name]
  }

  predicate Taken<T(==)>(rows: seq<Row<T>>, scope: nat, key: T -> seq<string>, k: seq<string>) {
    exists i :: 0 <= i < |rows| && rows[i].scope == scope && key(rows[i].data) == k
  }

  // ── Operations ────────────────────────────────────────────────────────────

  function Add<T>(s: State<T>, scope: nat, data: T): (t: State<T>) {
    Step(s, CreateAtEnd(scope, data))
  }

  function Ids<T>(rows: seq<Row<T>>): (ids: set<nat>) {
    set i | 0 <= i < |rows| :: rows[i].id
  }

  function CreateTable(db: Db, t: Table): (o: Outcome) {
    if Taken(db.tables.rows, 0, TableKey, TableKey(t)) then Outcome(db, Some(DuplicateTable))
    else Outcome(db.(tables := Add(db.tables, 0, TableHead(t))), None)
  }

  function CreateFlowtable(db: Db, tableId: nat, f: Flowtable): (o: Outcome) {
    if !ValidFlowtable(f) then Outcome(db, Some(BadFlowtable))
    else if tableId !in Ids(db.tables.rows) then Outcome(db, Some(Missing))
    else if Taken(db.flowtables.rows, tableId, FlowtableKey, FlowtableKey(NormalFlowtable(f))) then Outcome(db, Some(DuplicateFlowtable))
    else Outcome(db.(flowtables := Add(db.flowtables, tableId, NormalFlowtable(f))), None)
  }

  function CreateChain(db: Db, tableId: nat, c: Chain): (o: Outcome) {
    if tableId !in Ids(db.tables.rows) then Outcome(db, Some(Missing))
    else if Taken(db.chains.rows, tableId, ChainKey, ChainKey(c)) then Outcome(db, Some(DuplicateChain))
    else Outcome(db.(chains := Add(db.chains, tableId, ChainHead(c))), None)
  }

  function CreateRule(db: Db, chainId: nat, r: Rule): (o: Outcome) {
    if chainId !in Ids(db.chains.rows) then Outcome(db, Some(Missing))
    else Outcome(db.(rules := Add(db.rules, chainId, WrittenRule(r))), None)
  }

  function CreateList(db: Db, l: ListHead): (o: Outcome) {
    if !ValidList(l) then Outcome(db, Some(BadList))
    else if Taken(db.lists.rows, 0, ListKey, ListKey(NormalList(l))) then Outcome(db, Some(DuplicateList))
    else Outcome(db.(lists := Add(db.lists, 0, NormalList(l))), None)
  }

  // AddListEntry; the caller that ignores its error sees only this.
  function AddEntry(db: Db, listId: nat, cidr: Literal, note: string): (d: Db) {
    db.(entries := Lists.Apply(Ids(db.lists.rows), db.entries, Lists.AddRow(listId, cidr, note)))
  }

  // ON DELETE CASCADE: the rows of the scopes that go.
  function OutOfScopes<T>(rows: seq<Row<T>>, gone: set<nat>): (r: seq<Row<T>>) {
    if rows == [] then []
    else if rows[0].scope in gone then OutOfScopes(rows[1..], gone)
    else [rows[0]] + OutOfScopes(rows[1..], gone)
  }

  function IdsInScope<T>(rows: seq<Row<T>>, scope: nat): (ids: set<nat>) {
    set i | 0 <= i < |rows| && rows[i].scope == scope :: rows[i].id
  }

  function DeleteTable(db: Db, id: nat): (d: Db) {
    db.(
      tables := db.tables.(rows := Deleted(db.tables.rows, id)),
      flowtables := db.flowtables.(rows := OutOfScopes(db.flowtables.rows, {id})),
      chains := db.chains.(rows := OutOfScopes(db.chains.rows, {id})),
      rules := db.rules.(rows := OutOfScopes(db.rules.rows, IdsInScope(db.chains.rows, id))))
  }

  // referencedBaseNames: the list a token points at, its family suffix taken off.
  function ReferencedList(tok: Token): (n: Option<string>) {
    if !HasAt(tok.text) || tok.text == "@" then None
    else
      var name := tok.text[1..];
      if name[|name| - 1] == '4' || name[|name| - 1] == '6' then Some(name[..|name| - 1]) else Some(name)
  }

  predicate RuleReferences(r: Rule, listName: string) {
    exists m, tok :: m in r.matches && tok in m.value && ReferencedList(tok) == Some(listName)
  }

  predicate Referenced(db: Db, listName: string) {
    exists i :: 0 <= i < |db.rules.rows| && RuleReferences(db.rules.rows[i].data, listName)
  }

  function DeleteList(db: Db, id: nat): (o: Outcome) {
    match Find(db.lists.rows, id)
    case None => Outcome(db, Some(Missing))
    case Some(row) =>
      if Referenced(db, row.data.name) then Outcome(db, Some(StillReferenced))
      else
        Outcome(
          db.(
            entries := db.entries.(entries := Lists.OtherLists(db.entries.entries, id)),
            lists := db.lists.(rows := Deleted(db.lists.rows, id))),
          None)
  }

  // ── What the operations keep ──────────────────────────────────────────────

  ghost predicate UniqueKeys<T(!new)>(rows: seq<Row<T>>, key: T -> seq<string>) {
    forall i, j :: 0 <= i < j < |rows| && rows[i].scope == rows[j].scope ==> key(rows[i].data) != key(rows[j].data)
  }

  /** Sound rows, each under a parent that exists and in its stored form. */
  ghost predicate Kept<T(!new)>(s: State<T>, scopes: set<nat>, stored: T -> bool) {
    && Sound(s.rows, s.nextId)
    && forall r :: r in s.rows ==> r.scope in scopes && stored(r.data)
  }

  predicate StoredTable(t: Table) {
    TableHead(t) == t
  }

  predicate StoredFlowtable(f: Flowtable) {
    NormalFlowtable(f) == f && ValidFlowtable(f)
  }

  predicate StoredChain(c: Chain) {
    ChainHead(c) == c
  }

  predicate StoredRule(r: Rule) {
    WrittenRule(r) == r
  }

  predicate StoredList(l: ListHead) {
    NormalList(l) == l && ValidList(l)
  }

  predicate StoredNote(n: string) {
    Lists.CleanNote(n) == n && |n| <= 120
  }

  ghost predicate EntriesOk(entries: Lists.Rows, nextList: nat) {
    && Lists.ListsSound(entries.entries)
    && forall e :: e in entries.entries ==> StoredNote(e.note) && e.listId < nextList
  }

  /** The database's own constraints: ids and positions, foreign keys, unique names, stored forms,
      and non-overlapping list entries. */
  ghost predicate StoreSound(db: Db) {
    && Kept(db.tables, {0}, StoredTable) && UniqueKeys(db.tables.rows, TableKey)
    && Kept(db.flowtables, Ids(db.tables.rows), StoredFlowtable) && UniqueKeys(db.flowtables.rows, FlowtableKey)
    && Kept(db.chains, Ids(db.tables.rows), StoredChain) && UniqueKeys(db.chains.rows, ChainKey)
    && Kept(db.rules, Ids(db.chains.rows), StoredRule)
    && Kept(db.lists, {0}, StoredList) && UniqueKeys(db.lists.rows, ListKey)
    && EntriesOk(db.entries, db.lists.nextId)
  }

  /** Which rows can be stored: a table or chain row is any without children, a rule is any whose
      conditions and statements have keys and whose conditions have operators. */
  lemma StoredExactly(t: Table, c: Chain, r: Rule)
    ensures StoredTable(t) <==> t.flowtables == [] && t.chains == []
    ensures StoredChain(c) <==> c.rules == []
    ensures StoredRule(r) <==>
              && (forall m :: m in r.matches ==> !Blank(m.key) && m.op != "")
              && forall st :: st in r.statements ==> !Blank(st.key)
  {
    hide WrittenMatches, WrittenStatements, Filters, Blank;
    MatchesStored(r.matches);
    AllStatementsStored(r.statements);
    assert forall m :: HasKey(m) <==> !Blank(m.key);
    assert forall st :: StatementHasKey(st) <==> !Blank(st.key);
  }

  lemma AddedRow<T(!new)>(s: State<T>, scope: nat, data: T)
    ensures var t := Add(s, scope, data);
      && |t.rows| == |s.rows| + 1 && t.rows[..|s.rows|] == s.rows && t.nextId == s.nextId + 1
      && t.rows[|s.rows|].id == s.nextId && t.rows[|s.rows|].scope == scope && t.rows[|s.rows|].data == data
      && t.rows == s.rows + [t.rows[|s.rows|]]
  {}

  lemma AddKept<T(!new)>(s: State<T>, scopes: set<nat>, stored: T -> bool, scope: nat, data: T)
    requires Kept(s, scopes, stored) && scope in scopes && stored(data)
    ensures Kept(Add(s, scope, data), scopes, stored)
  {
    hide Sound, Add;
    AddedRow(s, scope, data);
    AddSound(s, scope, data);
  }

  lemma AddSound<T(!new)>(s: State<T>, scope: nat, data: T)
    requires Sound(s.rows, s.nextId)
    ensures Sound(Add(s, scope, data).rows, Add(s, scope, data).nextId)
  {
    CreatedSound(s.rows, s.nextId, scope, data, false);
  }

  lemma AddUnique<T(!new)>(s: State<T>, key: T -> seq<string>, scope: nat, data: T)
    requires UniqueKeys(s.rows, key) && !Taken(s.rows, scope, key, key(data))
    ensures UniqueKeys(Add(s, scope, data).rows, key)
  {
    hide Add;
    AddedRow(s, scope, data);
    var t := Add(s, scope, data);
    forall i, j | 0 <= i < j < |t.rows| && t.rows[i].scope == t.rows[j].scope ensures key(t.rows[i].data) != key(t.rows[j].data) {
      assert t.rows[i] == s.rows[i];
    }
  }

  lemma AddIds<T(!new)>(s: State<T>, scope: nat, data: T)
    ensures Ids(Add(s, scope, data).rows) == Ids(s.rows) + {s.nextId}
  {
    hide Add;
    AddedRow(s, scope, data);
    var t := Add(s, scope, data);
    forall x ensures x in Ids(t.rows) <==> x in Ids(s.rows) || x == s.nextId {
      if x in Ids(s.rows) {
        var i :| 0 <= i < |s.rows| && s.rows[i].id == x;
        assert t.rows[i].id == x;
      }
    }
  }

  lemma KeptWider<T(!new)>(s: State<T>, scopes: set<nat>, wider: set<nat>, stored: T -> bool)
    requires Kept(s, scopes, stored) && scopes <= wider
    ensures Kept(s, wider, stored)
  {
    hide Sound;
  }

  lemma CreateTableSound(db: Db, t: Table)
    requires StoreSound(db)
    ensures StoreSound(CreateTable(db, t).db)
  {
    hide Kept, UniqueKeys, EntriesOk, Add, Taken, Ids;
    if !Taken(db.tables.rows, 0, TableKey, TableKey(t)) {
      var h := TableHead(t);
      AddKept(db.tables, {0}, StoredTable, 0, h);
      AddUnique(db.tables, TableKey, 0, h);
      AddIds(db.tables, 0, h);
      var wider := Ids(Add(db.tables, 0, h).rows);
      KeptWider(db.flowtables, Ids(db.tables.rows), wider, StoredFlowtable);
      KeptWider(db.chains, Ids(db.tables.rows), wider, StoredChain);
    }
  }

  lemma CreateFlowtableSound(db: Db, tableId: nat, f: Flowtable)
    requires StoreSound(db)
    ensures StoreSound(CreateFlowtable(db, tableId, f).db)
  {
    hide Kept, UniqueKeys, EntriesOk, Add, Taken, Ids, NormalFlowtable;
    if CreateFlowtable(db, tableId, f).err.None? {
      NormalFlowtableIdempotent(f);
      AddKept(db.flowtables, Ids(db.tables.rows), StoredFlowtable, tableId, NormalFlowtable(f));
      AddUnique(db.flowtables, FlowtableKey, tableId, NormalFlowtable(f));
    }
  }

  lemma CreateChainSound(db: Db, tableId: nat, c: Chain)
    requires StoreSound(db)
    ensures StoreSound(CreateChain(db, tableId, c).db)
  {
    hide Kept, UniqueKeys, EntriesOk, Add, Taken, Ids;
    if CreateChain(db, tableId, c).err.None? {
      var h := ChainHead(c);
      AddKept(db.chains, Ids(db.tables.rows), StoredChain, tableId, h);
      AddUnique(db.chains, ChainKey, tableId, h);
      AddIds(db.chains, tableId, h);
      KeptWider(db.rules, Ids(db.chains.rows), Ids(Add(db.chains, tableId, h).rows), StoredRule);
    }
  }

  lemma CreateRuleSound(db: Db, chainId: nat, r: Rule)
    requires StoreSound(db)
    ensures StoreSound(CreateRule(db, chainId, r).db)
  {
    hide Kept, UniqueKeys, EntriesOk, Add, Ids, WrittenRule;
    if CreateRule(db, chainId, r).err.None? {
      WrittenRuleIdempotent(r);
      AddKept(db.rules, Ids(db.chains.rows), StoredRule, chainId, WrittenRule(r));
    }
  }

  lemma CreateListSound(db: Db, l: ListHead)
    requires StoreSound(db)
    ensures StoreSound(CreateList(db, l).db)
  {
    hide Kept, UniqueKeys, Add, Taken, NormalList, StoredNote, Lists.ListsSound;
    if CreateList(db, l).err.None? {
      NormalListIdempotent(l);
      AddKept(db.lists, {0}, StoredList, 0, NormalList(l));
      AddUnique(db.lists, ListKey, 0, NormalList(l));
      AddedRow(db.lists, 0, NormalList(l));
    }
  }

  lemma CleanNoteIdempotent(n: string)
    ensures Lists.CleanNote(Lists.CleanNote(n)) == Lists.CleanNote(n)
  {
    hide TrimSpace;
    var s := NewlinesToSpaces(n);
    TrimSpaceCharacters(s);
    var t := TrimSpace(s);
    forall i | 0 <= i < |t| ensures t[i] != '\n' {
      assert t[i] in s;
    }
    assert NewlinesToSpaces(t) == t;
    TrimSpaceIdempotent(s);
  }

  lemma IdsBelow<T(!new)>(s: State<T>, scopes: set<nat>, stored: T -> bool, id: nat)
    requires Kept(s, scopes, stored) && id in Ids(s.rows)
    ensures id < s.nextId
  {
    var i :| 0 <= i < |s.rows| && s.rows[i].id == id;
    assert s.rows[i] in s.rows;
  }

  lemma AddEntrySound(db: Db, listId: nat, cidr: Literal, note: string)
    requires StoreSound(db)
    ensures StoreSound(AddEntry(db, listId, cidr, note))
  {
    hide Kept, UniqueKeys, Ids, Lists.ListsSound, Lists.NormalizeCIDR, Lists.CleanNote;
    var ids := Ids(db.lists.rows);
    Lists.OperationKeepsSound(ids, db.entries, Lists.AddRow(listId, cidr, note));
    if Lists.AddOutcome(ids, db.entries.entries, listId, cidr, note).Ok? {
      IdsBelow(db.lists, {0}, StoredList, listId);
      CleanNoteIdempotent(note);
    }
  }

  // ── Deleting keeps it too ─────────────────────────────────────────────────

  lemma {:induction false} OutOfScopesContent<T(!new)>(rows: seq<Row<T>>, gone: set<nat>)
    ensures forall r :: r in OutOfScopes(rows, gone) <==> r in rows && r.scope !in gone
  {
    if rows != [] {
      OutOfScopesContent(rows[1..], gone);
      assert rows == [rows[0]] + rows[1..];
    }
  }

  lemma {:induction false} OutOfScopesSound<T(!new)>(rows: seq<Row<T>>, nextId: nat, gone: set<nat>)
    requires Sound(rows, nextId)
    ensures Sound(OutOfScopes(rows, gone), nextId)
  {
    hide Sound;
    if rows != [] {
      SoundTail(rows, nextId);
      OutOfScopesSound(rows[1..], nextId, gone);
      OutOfScopesContent(rows[1..], gone);
      if rows[0].scope !in gone {
        SoundCons(rows[0], OutOfScopes(rows[1..], gone), nextId);
      }
    } else {
      assert Sound<T>([], nextId) by {
        NoRowsSound<T>(nextId);
      }
    }
  }

  lemma NoRowsSound<T(!new)>(nextId: nat)
    ensures Sound<T>([], nextId)
  {}

  // Unique keys over any selection of the rows.
  lemma UniqueSubset<T(!new)>(rows: seq<Row<T>>, some: seq<Row<T>>, key: T -> seq<string>)
    requires UniqueKeys(rows, key) && DistinctIds(some)
    requires forall r :: r in some ==> r in rows
    ensures UniqueKeys(some, key)
  {
    forall i, j | 0 <= i < j < |some| && some[i].scope == some[j].scope ensures key(some[i].data) != key(some[j].data) {
      assert some[i] in rows && some[j] in rows;
      var x :| 0 <= x < |rows| && rows[x] == some[i];
      var y :| 0 <= y < |rows| && rows[y] == some[j];
      assert x != y;
    }
  }

  lemma CascadeKept<T(!new)>(s: State<T>, scopes: set<nat>, stored: T -> bool, gone: set<nat>, left: set<nat>)
    requires Kept(s, scopes, stored) && scopes - gone <= left
    ensures Kept(s.(rows := OutOfScopes(s.rows, gone)), left, stored)
  {
    hide Sound, OutOfScopes;
    OutOfScopesSound(s.rows, s.nextId, gone);
    OutOfScopesContent(s.rows, gone);
  }

  lemma CascadeUnique<T(!new)>(s: State<T>, scopes: set<nat>, stored: T -> bool, gone: set<nat>, key: T -> seq<string>)
    requires Kept(s, scopes, stored) && UniqueKeys(s.rows, key)
    ensures UniqueKeys(OutOfScopes(s.rows, gone), key)
  {
    hide OutOfScopes, UniqueKeys;
    OutOfScopesSound(s.rows, s.nextId, gone);
    OutOfScopesContent(s.rows, gone);
    UniqueSubset(s.rows, OutOfScopes(s.rows, gone), key);
  }

  lemma DeletedKept<T(!new)>(s: State<T>, scopes: set<nat>, stored: T -> bool, id: nat, key: T -> seq<string>)
    requires Kept(s, scopes, stored) && UniqueKeys(s.rows, key)
    ensures Kept(s.(rows := Deleted(s.rows, id)), scopes, stored) && UniqueKeys(Deleted(s.rows, id), key)
    ensures Ids(Deleted(s.rows, id)) == Ids(s.rows) - {id}
  {
    hide UniqueKeys, Deleted;
    DeletedContent(s.rows, id);
    DeletedSound(s.rows, s.nextId, id);
    UniqueSubset(s.rows, Deleted(s.rows, id), key);
    IdsByContent(s.rows, Deleted(s.rows, id), id);
  }

  lemma IdsByContent<T(!new)>(rows: seq<Row<T>>, left: seq<Row<T>>, id: nat)
    requires forall r :: r in left <==> r in rows && r.id != id
    ensures Ids(left) == Ids(rows) - {id}
  {
    forall x ensures x in Ids(left) <==> x in Ids(rows) && x != id {
      if x in Ids(left) {
        var i :| 0 <= i < |left| && left[i].id == x;
        assert left[i] in left;
      }
      if x in Ids(rows) && x != id {
        var i :| 0 <= i < |rows| && rows[i].id == x;
        assert rows[i] in left;
      }
    }
  }

  // The chains that stay are those whose ids are not taken away.
  lemma CascadeIds<T(!new)>(rows: seq<Row<T>>, scope: nat)
    ensures Ids(rows) - IdsInScope(rows, scope) <= Ids(OutOfScopes(rows, {scope}))
  {
    hide OutOfScopes;
    OutOfScopesContent(rows, {scope});
    forall x | x in Ids(rows) - IdsInScope(rows, scope) ensures x in Ids(OutOfScopes(rows, {scope})) {
      var i :| 0 <= i < |rows| && rows[i].id == x;
      assert rows[i] in OutOfScopes(rows, {scope});
    }
  }

  lemma DeleteTableSound(db: Db, id: nat)
    requires StoreSound(db)
    ensures StoreSound(DeleteTable(db, id))
    ensures Ids(DeleteTable(db, id).tables.rows) == Ids(db.tables.rows) - {id}
  {
    hide Kept, UniqueKeys, EntriesOk, Ids, IdsInScope, OutOfScopes, Deleted;
    var d := DeleteTable(db, id);
    DeletedKept(db.tables, {0}, StoredTable, id, TableKey);
    CascadeKept(db.flowtables, Ids(db.tables.rows), StoredFlowtable, {id}, Ids(d.tables.rows));
    CascadeUnique(db.flowtables, Ids(db.tables.rows), StoredFlowtable, {id}, FlowtableKey);
    CascadeKept(db.chains, Ids(db.tables.rows), StoredChain, {id}, Ids(d.tables.rows));
    CascadeUnique(db.chains, Ids(db.tables.rows), StoredChain, {id}, ChainKey);
    CascadeIds(db.chains.rows, id);
    CascadeKept(db.rules, Ids(db.chains.rows), StoredRule, IdsInScope(db.chains.rows, id), Ids(d.chains.rows));
  }

  lemma DeleteListSound(db: Db, id: nat)
    requires StoreSound(db)
    ensures StoreSound(DeleteList(db, id).db)
    ensures DeleteList(db, id).err.None? ==> Ids(DeleteList(db, id).db.lists.rows) == Ids(db.lists.rows) - {id}
  {
    hide Kept, UniqueKeys, Ids, Deleted, Referenced, Lists.ListsSound, StoredNote;
    if DeleteList(db, id).err.None? {
      DeletedKept(db.lists, {0}, StoredList, id, ListKey);
      Lists.SubsetSound(db.entries.entries, id, 0);
    }
  }

  // ── What each operation does to the listings ──────────────────────────────

  lemma AddItems<T(!new)>(s: State<T>, scope: nat, data: T, z: nat)
    requires Sound(s.rows, s.nextId)
    ensures Items(Add(s, scope, data).rows, z) ==
              if z == scope then Items(s.rows, z) + [Item(s.nextId, data)] else Items(s.rows, z)
  {
    CreatedItems(s.rows, s.nextId, scope, data, false, z);
  }

  /** One row more, last in its scope, under the next id; every other scope as it was. */
  ghost predicate Appends<T(!new)>(s: State<T>, t: State<T>, scope: nat, data: T) {
    && t.nextId == s.nextId + 1
    && Items(t.rows, scope) == Items(s.rows, scope) + [Item(s.nextId, data)]
    && forall z :: z != scope ==> Items(t.rows, z) == Items(s.rows, z)
  }

  lemma AddAppends<T(!new)>(s: State<T>, scopes: set<nat>, stored: T -> bool, scope: nat, data: T)
    requires Kept(s, scopes, stored)
    ensures Appends(s, Add(s, scope, data), scope, data)
  {
    hide Items, Sound;
    AddedRow(s, scope, data);
    forall z ensures Items(Add(s, scope, data).rows, z) == if z == scope then Items(s.rows, z) + [Item(s.nextId, data)] else Items(s.rows, z) {
      AddItems(s, scope, data, z);
    }
  }

  /** Names are unique: a table's with its family, a chain's and a flowtable's within the table, a
      list's. A row is created exactly when its name is free and its parent exists; a flowtable and a
      list must be valid too. */
  lemma CreatesExactly(db: Db, parent: nat, t: Table, f: Flowtable, c: Chain, r: Rule, l: ListHead)
    requires StoreSound(db)
    ensures CreateTable(db, t).err.None? <==> forall x :: x in db.tables.rows ==> x.data.family != t.family || x.data.name != t.name
    ensures CreateFlowtable(db, parent, f).err.None? <==>
              && ValidFlowtable(f) && (exists x :: x in db.tables.rows && x.id == parent)
              && forall x :: x in db.flowtables.rows && x.scope == parent ==> x.data.name != TrimSpace(f.name)
    ensures CreateChain(db, parent, c).err.None? <==>
              && (exists x :: x in db.tables.rows && x.id == parent)
              && forall x :: x in db.chains.rows && x.scope == parent ==> x.data.name != c.name
    ensures CreateRule(db, parent, r).err.None? <==> exists x :: x in db.chains.rows && x.id == parent
    ensures CreateList(db, l).err.None? <==> ValidList(l) && forall x :: x in db.lists.rows ==> x.data.name != TrimSpace(l.name)
  {
    hide UniqueKeys, EntriesOk, Sound, Add, Taken, Ids, ValidFlowtable, ValidList, TrimSpace, StoredTable, StoredFlowtable, StoredChain, StoredRule, StoredList;
    hide CleanDevices, ToUpper, ToLower;
    IdsExactly(db.tables.rows, parent);
    IdsExactly(db.chains.rows, parent);
    TakenExactly(db.tables.rows, 0, TableKey, TableKey(t));
    TakenExactly(db.flowtables.rows, parent, FlowtableKey, FlowtableKey(NormalFlowtable(f)));
    TakenExactly(db.chains.rows, parent, ChainKey, ChainKey(c));
    TakenExactly(db.lists.rows, 0, ListKey, ListKey(NormalList(l)));
  }

  // Otherwise nothing changes.
  lemma RefusalsKeep(db: Db, parent: nat, t: Table, f: Flowtable, c: Chain, r: Rule, l: ListHead)
    ensures forall o :: o in {CreateTable(db, t), CreateFlowtable(db, parent, f), CreateChain(db, parent, c), CreateRule(db, parent, r), CreateList(db, l)} ==>
              o.err.Some? ==> o.db == db
  {}

  lemma TakenExactly<T>(rows: seq<Row<T>>, scope: nat, key: T -> seq<string>, k: seq<string>)
    ensures Taken(rows, scope, key, k) <==> exists x :: x in rows && x.scope == scope && key(x.data) == k
  {
    if x :| x in rows && x.scope == scope && key(x.data) == k {
      var i :| 0 <= i < |rows| && rows[i] == x;
    }
  }

  lemma IdsExactly<T>(rows: seq<Row<T>>, id: nat)
    ensures id in Ids(rows) <==> exists x :: x in rows && x.id == id
  {
    if x :| x in rows && x.id == id {
      var i :| 0 <= i < |rows| && rows[i] == x;
    }
  }

  /** A created table is listed last, as given, without children; nothing else changes. */
  lemma CreatedTable(db: Db, t: Table)
    requires StoreSound(db) && CreateTable(db, t).err.None?
    ensures var d := CreateTable(db, t).db;
            && d == db.(tables := d.tables)
            && exists u :: StoresTable(t, u) && StoredTable(u) && Appends(db.tables, d.tables, 0, u)
  {
    hide Kept, UniqueKeys, EntriesOk, Add, Appends, Taken;
    AddAppends(db.tables, {0}, StoredTable, 0, TableHead(t));
    HeadsStored(t, Chain("", "", "", "", Absolute(0), "", "", []));
  }

  lemma CreatedFlowtable(db: Db, tableId: nat, f: Flowtable)
    requires StoreSound(db) && CreateFlowtable(db, tableId, f).err.None?
    ensures var d := CreateFlowtable(db, tableId, f).db;
            && d == db.(flowtables := d.flowtables)
            && exists g :: StoresFlowtable(f, g) && Appends(db.flowtables, d.flowtables, tableId, g)
  {
    hide Kept, UniqueKeys, EntriesOk, Add, Appends, Taken, NormalFlowtable, StoresFlowtable, ValidFlowtable;
    AddAppends(db.flowtables, Ids(db.tables.rows), StoredFlowtable, tableId, NormalFlowtable(f));
    FlowtableStored(f);
  }

  lemma CreatedChain(db: Db, tableId: nat, c: Chain)
    requires StoreSound(db) && CreateChain(db, tableId, c).err.None?
    ensures var d := CreateChain(db, tableId, c).db;
            && d == db.(chains := d.chains)
            && exists e :: StoresChain(c, e) && StoredChain(e) && Appends(db.chains, d.chains, tableId, e)
  {
    hide Kept, UniqueKeys, EntriesOk, Add, Appends, Taken;
    AddAppends(db.chains, Ids(db.tables.rows), StoredChain, tableId, ChainHead(c));
    HeadsStored(Table("", "", "", [], []), c);
  }

  /** A created rule is listed last in its chain, and it is the rule that was given: comment, enabled
      flag, raw line and tags, and its conditions and statements. */
  lemma CreatedRule(db: Db, chainId: nat, r: Rule)
    requires StoreSound(db) && CreateRule(db, chainId, r).err.None?
    ensures var d := CreateRule(db, chainId, r).db;
            && d == db.(rules := d.rules)
            && exists q :: StoresRule(r, q) && Appends(db.rules, d.rules, chainId, q)
  {
    hide Kept, UniqueKeys, EntriesOk, Add, Appends, WrittenRule, StoresRule;
    AddAppends(db.rules, Ids(db.chains.rows), StoredRule, chainId, WrittenRule(r));
    RuleStored(r);
  }

  lemma CreatedList(db: Db, l: ListHead)
    requires StoreSound(db) && CreateList(db, l).err.None?
    ensures var d := CreateList(db, l).db;
            && d == db.(lists := d.lists)
            && exists n :: StoresList(l, n) && Appends(db.lists, d.lists, 0, n)
  {
    hide Kept, UniqueKeys, EntriesOk, Add, Appends, Taken, NormalList, ValidList, StoresList;
    AddAppends(db.lists, {0}, StoredList, 0, NormalList(l));
    ListStored(l);
  }

  // A scope that does not go keeps its listing.
  lemma CascadeItems<T(!new)>(rows: seq<Row<T>>, nextId: nat, gone: set<nat>, z: nat)
    requires Sound(rows, nextId)
    ensures Items(OutOfScopes(rows, gone), z) == if z in gone then [] else Items(rows, z)
  {
    hide OutOfScopes, Sorted;
    OutOfScopesSound(rows, nextId, gone);
    OutOfScopesContent(rows, gone);
    ListingSorted(rows, z);
    if z in gone {
      NothingSorted<T>();
      ListingIs(OutOfScopes(rows, gone), z, []);
    } else {
      ListingIs(OutOfScopes(rows, gone), z, Listing(rows, z));
    }
  }

  lemma NothingSorted<T(!new)>()
    ensures Sorted<T>([])
  {}

  predicate ChainOf(db: Db, chainId: nat, tableId: nat) {
    exists i :: 0 <= i < |db.chains.rows| && db.chains.rows[i].id == chainId && db.chains.rows[i].scope == tableId
  }

  lemma InScopeExactly(db: Db, tableId: nat)
    ensures forall c :: c in IdsInScope(db.chains.rows, tableId) <==> ChainOf(db, c, tableId)
  {}

  /** Deleting a table takes that table out of the listing with its flowtables, its chains and their
      rules, and leaves every other listing as it was. */
  lemma DeletedTable(db: Db, id: nat)
    requires StoreSound(db)
    ensures var d := DeleteTable(db, id);
            && d.lists == db.lists && d.entries == db.entries
            && Items(d.tables.rows, 0) == Without(Items(db.tables.rows, 0), id)
            && (forall z :: Items(d.flowtables.rows, z) == if z == id then [] else Items(db.flowtables.rows, z))
            && (forall z :: Items(d.chains.rows, z) == if z == id then [] else Items(db.chains.rows, z))
            && forall c :: Items(d.rules.rows, c) == if ChainOf(db, c, id) then [] else Items(db.rules.rows, c)
  {
    hide UniqueKeys, EntriesOk, Sound, Items, OutOfScopes, Deleted, IdsInScope, StoredFlowtable, StoredList;
    InScopeExactly(db, id);
    hide ChainOf;
    var d := DeleteTable(db, id);
    DeletedItems(db.tables.rows, db.tables.nextId, id, 0);
    forall z ensures Items(d.flowtables.rows, z) == if z == id then [] else Items(db.flowtables.rows, z) {
      CascadeItems(db.flowtables.rows, db.flowtables.nextId, {id}, z);
    }
    forall z ensures Items(d.chains.rows, z) == if z == id then [] else Items(db.chains.rows, z) {
      CascadeItems(db.chains.rows, db.chains.nextId, {id}, z);
    }
    forall c ensures Items(d.rules.rows, c) == if ChainOf(db, c, id) then [] else Items(db.rules.rows, c) {
      CascadeItems(db.rules.rows, db.rules.nextId, IdsInScope(db.chains.rows, id), c);
    }
  }

  /** The references that keep a list: its two set names, or its own name where that has no family
      suffix. */
  predicate PointsAt(tok: Token, name: string) {
    || tok.text == "@" + name + "4" || tok.text == "@" + name + "6"
    || (tok.text == "@" + name && name != "" && name[|name| - 1] != '4' && name[|name| - 1] != '6')
  }

  lemma ReferencedListExactly(tok: Token, name: string)
    ensures ReferencedList(tok) == Some(name) <==> PointsAt(tok, name)
  {
    if tok.text != "" {
      assert tok.text == [tok.text[0]] + tok.text[1..];
    }
    if |tok.text| > 1 {
      assert tok.text[1..] == tok.text[1..][..|tok.text| - 2] + [tok.text[|tok.text| - 1]];
    }
    assert ("@" + name)[1..] == name;
    assert ("@" + name + "4")[1..] == name + "4" && ("@" + name + "6")[1..] == name + "6";
  }

  /** Any rule's reference counts, a disabled one's too. */
  lemma ReferencedExactly(db: Db, name: string)
    ensures Referenced(db, name) <==>
              exists x, m, tok :: x in db.rules.rows && m in x.data.matches && tok in m.value && PointsAt(tok, name)
  {
    hide ReferencedList, PointsAt;
    forall tok {
      ReferencedListExactly(tok, name);
    }
    if x, m, tok :| x in db.rules.rows && m in x.data.matches && tok in m.value && PointsAt(tok, name) {
      var i :| 0 <= i < |db.rules.rows| && db.rules.rows[i] == x;
      assert RuleReferences(db.rules.rows[i].data, name);
    }
  }

  lemma FoundById<T(!new)>(rows: seq<Row<T>>, nextId: nat, id: nat)
    requires Sound(rows, nextId)
    ensures Find(rows, id).None? ==> forall i :: 0 <= i < |rows| ==> rows[i].id != id
    ensures Find(rows, id).Some? ==> exists i :: 0 <= i < |rows| && rows[i] == Find(rows, id).value && rows[i].id == id
    ensures Find(rows, id).Some? ==> forall i :: 0 <= i < |rows| && rows[i].id == id ==> rows[i] == Find(rows, id).value
  {}

  /** A list is deleted exactly when it exists and no rule references it; then it leaves the listing
      with its entries, and nothing else changes. */
  lemma DeletedList(db: Db, id: nat)
    requires StoreSound(db)
    ensures var o := DeleteList(db, id);
            && (o.err.None? <==> exists i :: 0 <= i < |db.lists.rows| && db.lists.rows[i].id == id && !Referenced(db, db.lists.rows[i].data.name))
            && (o.err.Some? ==> o.db == db)
            && (o.err.None? ==>
                  && o.db == db.(lists := o.db.lists, entries := o.db.entries)
                  && Items(o.db.lists.rows, 0) == Without(Items(db.lists.rows, 0), id)
                  && forall l :: Lists.EntriesOf(o.db.entries.entries, l) == if l == id then [] else Lists.EntriesOf(db.entries.entries, l))
  {
    hide UniqueKeys, EntriesOk, Sound, Items, Deleted, Referenced, StoredList, Lists.EntriesOf, Lists.OtherLists;
    var o := DeleteList(db, id);
    FoundById(db.lists.rows, db.lists.nextId, id);
    if o.err.None? {
      DeletedItems(db.lists.rows, db.lists.nextId, id, 0);
      forall l ensures Lists.EntriesOf(o.db.entries.entries, l) == if l == id then [] else Lists.EntriesOf(db.entries.entries, l) {
        Lists.NoneOfOthers(db.entries.entries, id);
        if l != id {
          Lists.OthersStay(db.entries.entries, id, l);
        }
      }
    }
  }
}
