/**
 * The assembler `FlatDataInventory.load`
 * (nornir_table_inventory/plugins/inventory/table.py): defaults first, then
 * the groups, inserted by name and then resolved against one another, then
 * the hosts, inserted by name and resolved against the groups.
 */
module Inventory {
  import opened Wrappers
  import opened Cells
  import opened Dicts
  import opened Fields
  import opened Records

  /** Nornir's Inventory, holding its constructor arguments. */
  datatype Inventory = Inventory(
    hosts: OrderedMap<Cell, Element>, groups: OrderedMap<Cell, Element>, defaults: Defaults)

  /** A Hosts or Groups dictionary, keyed by the raw `name` cell of each row. */
  type Table = OrderedMap<Cell, Element>

  const EmptyTable: Table := OrderedMap([], map[])

  /** Every element of the table still holds the group names split from its row. */
  predicate Unresolved(t: Table) {
    forall k :: k in t.entries ==> t.entries[k].groups.Names?
  }

  /**
   * One row of the insertion loop: `row['name']` must exist and must not be
   * empty; the row is stored under that raw cell.
   */
  function NamedElement(kind: Kind, row: Row, d: Defaults): (r: Result<Entry<Cell, Element>, LoadError>)
    ensures "name" !in Keys(row) ==> r == Err(MissingKey("name"))
    ensures "name" in Keys(row) && Empty(Get(row, "name")) ==> r == Err(EmptyName)
    ensures r.Ok? ==> ("name" in Keys(row) && r.value.key == Get(row, "name") && !Empty(r.value.key)
      && ElementOf(kind, row, d) == Ok(r.value.value))
  {
    LookupLast(row, "name");
    match Lookup(row, "name")
    case None => Err(MissingKey("name"))
    case Some(name) =>
      if Empty(name) then Err(EmptyName)
      else
        var e :- ElementOf(kind, row, d);
        Ok(Entry(name, e))
  }

  /** The outcome of each row of the insertion loop. */
  function NamedRows(kind: Kind, rows: seq<Row>, d: Defaults): (rs: seq<Result<Entry<Cell, Element>, LoadError>>)
    ensures |rs| == |rows| && forall i :: 0 <= i < |rows| ==> rs[i] == NamedElement(kind, rows[i], d)
    decreases |rows|
  {
    if rows == [] then []
    else
      var init := rows[..|rows| - 1];
      assert forall i :: 0 <= i < |init| ==> init[i] == rows[i];
      NamedRows(kind, init, d) + [NamedElement(kind, rows[|rows| - 1], d)]
  }

  /** The insertions of the loop, row by row; the first row that fails aborts it. */
  function BuildAll(kind: Kind, rows: seq<Row>, d: Defaults): Result<seq<Entry<Cell, Element>>, LoadError> {
    Sequence(NamedRows(kind, rows, d))
  }

  /** The dictionary the insertion loop fills. */
  function TableOf(kind: Kind, rows: seq<Row>, d: Defaults): (r: Result<Table, LoadError>)
    ensures r.Ok? ==> r.value.Valid()
  {
    var entries :- BuildAll(kind, rows, d);
    Ok(FromEntries(entries))
  }

  /** `[groups[g] for g in names]`: every name must be a key of the groups dictionary. */
  function ResolveNames(names: seq<string>, keys: set<Cell>): (r: Result<seq<Cell>, LoadError>)
    ensures r.Ok? <==> forall i :: 0 <= i < |names| ==> Str(names[i]) in keys
    ensures r.Ok? ==> |r.value| == |names| && forall i :: 0 <= i < |names| ==> r.value[i] == Str(names[i])
    decreases |names|
  {
    if names == [] then Ok([])
    else
      var prev :- ResolveNames(names[..|names| - 1], keys);
      var n := names[|names| - 1];
      if Str(n) in keys then Ok(prev + [Str(n)]) else Err(UnknownGroup(n))
  }

  /** `e.groups = ParentGroups([groups[g] for g in e.groups])`. */
  function ResolveElement(e: Element, keys: set<Cell>): (r: Result<Element, LoadError>)
    requires e.groups.Names?
    ensures r.Ok? <==> ResolveNames(e.groups.names, keys).Ok?
    ensures r.Ok? ==> r.value == e.(groups := Refs(ResolveNames(e.groups.names, keys).value))
    ensures r.Err? ==> r.error == ResolveNames(e.groups.names, keys).error
  {
    var refs :- ResolveNames(e.groups.names, keys);
    Ok(e.(groups := Refs(refs)))
  }

  /** Resolving the elements stored under the listed keys, one after the other. */
  function ResolveOrder(order: seq<Cell>, entries: map<Cell, Element>, keys: set<Cell>): (r: Result<map<Cell, Element>, LoadError>)
    requires forall i :: 0 <= i < |order| ==> order[i] in entries && entries[order[i]].groups.Names?
    ensures r.Ok? <==> forall i :: 0 <= i < |order| ==> ResolveElement(entries[order[i]], keys).Ok?
    ensures r.Ok? ==> r.value.Keys == entries.Keys
    decreases |order|
  {
    if order == [] then Ok(entries)
    else
      var k := order[|order| - 1];
      var init := order[..|order| - 1];
      assert forall i :: 0 <= i < |init| ==> init[i] == order[i];
      var prev :- ResolveOrder(init, entries, keys);
      var e :- ResolveElement(entries[k], keys);
      Ok(prev[k := e])
  }

  /** The second pass: every element of the table, in insertion order, gets its group references. */
  function ResolveTable(t: Table, keys: set<Cell>): (r: Result<Table, LoadError>)
    requires t.Valid() && Unresolved(t)
    ensures r.Ok? ==> r.value.Valid() && r.value.order == t.order && r.value.entries.Keys == t.entries.Keys
  {
    var m :- ResolveOrder(t.order, t.entries, keys);
    Ok(OrderedMap(t.order, m))
  }

  /** The groups: inserted row by row, then resolved against their own dictionary. */
  function GroupsOf(rows: seq<Row>, d: Defaults): (r: Result<Table, LoadError>) {
    var built :- TableOf(GroupKind, rows, d);
    TableOfUnresolved(GroupKind, rows, d);
    ResolveTable(built, built.entries.Keys)
  }

  /** The defaults every element of a successful load shares. */
  function DefaultsFor(defaultsData: Row): Result<Defaults, LoadError> {
    if |defaultsData| > 0 then DefaultsOf(defaultsData) else Ok(EmptyDefaults)
  }

  /** The groups dictionary: empty without group rows. */
  function GroupsFor(groupsData: seq<Row>, d: Defaults): Result<Table, LoadError> {
    if |groupsData| > 0 then GroupsOf(groupsData, d) else Ok(EmptyTable)
  }

  /** The hosts: inserted row by row, then resolved against the groups' keys. */
  function HostsOf(hostsData: seq<Row>, d: Defaults, keys: set<Cell>): Result<Table, LoadError> {
    var built :- TableOf(HostKind, hostsData, d);
    TableOfUnresolved(HostKind, hostsData, d);
    ResolveTable(built, keys)
  }

  /** What `load` returns, or the error that aborts it. */
  function Assemble(hostsData: seq<Row>, groupsData: seq<Row>, defaultsData: Row): (r: Result<Inventory, LoadError>) {
    var defaults :- DefaultsFor(defaultsData);
    var groups :- GroupsFor(groupsData, defaults);
    var hosts :- HostsOf(hostsData, defaults, groups.entries.Keys);
    Ok(Inventory(hosts, groups, defaults))
  }

  /**
   * The table holds one element per distinct name, under the raw name cell;
   * each is the element built from the LAST row with that name.
   */
  lemma TableOfContents(kind: Kind, rows: seq<Row>, d: Defaults)
    requires TableOf(kind, rows, d).Ok?
    ensures forall k :: k in TableOf(kind, rows, d).value.entries ==>
      exists i :: (0 <= i < |rows| && Get(rows[i], "name") == k
        && ElementOf(kind, rows[i], d) == Ok(TableOf(kind, rows, d).value.entries[k])
        && forall j :: i < j < |rows| ==> Get(rows[j], "name") != k)
    ensures forall i :: 0 <= i < |rows| ==> Get(rows[i], "name") in TableOf(kind, rows, d).value.entries
  {
    var t := TableOf(kind, rows, d).value;
    forall k | k in t.entries
      ensures exists i :: (0 <= i < |rows| && Get(rows[i], "name") == k
        && ElementOf(kind, rows[i], d) == Ok(t.entries[k])
        && forall j :: i < j < |rows| ==> Get(rows[j], "name") != k)
    {
      var i := LastRow(kind, rows, d, k);
    }
    forall i | 0 <= i < |rows|
      ensures Get(rows[i], "name") in t.entries
    {
      RowStored(kind, rows, d, i);
    }
  }

  /** Every row of a successful insertion loop is stored under its name. */
  lemma RowStored(kind: Kind, rows: seq<Row>, d: Defaults, i: nat)
    requires TableOf(kind, rows, d).Ok? && i < |rows|
    ensures Get(rows[i], "name") in TableOf(kind, rows, d).value.entries
  {
    var es := BuildAll(kind, rows, d).value;
    FromEntriesContents(es);
    BuildAllAt(kind, rows, d, i);
    KeysIndex(es, es[i].key);
  }

  /** The last row named `k` is the row whose element the table holds under `k`. */
  lemma LastRow(kind: Kind, rows: seq<Row>, d: Defaults, k: Cell) returns (i: nat)
    requires TableOf(kind, rows, d).Ok? && k in TableOf(kind, rows, d).value.entries
    ensures i < |rows| && Get(rows[i], "name") == k
    ensures ElementOf(kind, rows[i], d) == Ok(TableOf(kind, rows, d).value.entries[k])
    ensures forall j :: i < j < |rows| ==> Get(rows[j], "name") != k
  {
    var es := BuildAll(kind, rows, d).value;
    FromEntriesContents(es);
    i := LastIndex(es, k);
    BuildAllAt(kind, rows, d, i);
    forall j | i < j < |rows|
      ensures Get(rows[j], "name") != k
    {
      BuildAllAt(kind, rows, d, j);
    }
  }

  /** Row `i` of a successful insertion loop: named, not empty, and stored with the element built from it. */
  lemma BuildAllAt(kind: Kind, rows: seq<Row>, d: Defaults, i: nat)
    requires BuildAll(kind, rows, d).Ok? && i < |rows|
    ensures var e := BuildAll(kind, rows, d).value[i];
      "name" in Keys(rows[i]) && e.key == Get(rows[i], "name") && !Empty(e.key)
      && ElementOf(kind, rows[i], d) == Ok(e.value)
  {
    assert NamedRows(kind, rows, d)[i].Ok?;
  }

  lemma TableOfUnresolved(kind: Kind, rows: seq<Row>, d: Defaults)
    ensures TableOf(kind, rows, d).Ok? ==> Unresolved(TableOf(kind, rows, d).value)
  {
    if TableOf(kind, rows, d).Ok? {
      TableOfContents(kind, rows, d);
    }
  }

  /** The error of the name resolution is the first name missing from the dictionary. */
  lemma {:induction false} ResolveNamesFirstMissing(names: seq<string>, keys: set<Cell>, i: nat)
    requires i < |names| && Str(names[i]) !in keys && forall j :: 0 <= j < i ==> Str(names[j]) in keys
    ensures ResolveNames(names, keys) == Err(UnknownGroup(names[i]))
    decreases |names|
  {
    var init := names[..|names| - 1];
    if i < |names| - 1 {
      assert init[i] == names[i];
      assert forall j :: 0 <= j < i ==> init[j] == names[j];
      ResolveNamesFirstMissing(init, keys, i);
    } else {
      assert forall j :: 0 <= j < |init| ==> init[j] == names[j];
    }
  }

  /** The error of the second pass is the error of the first element whose names do not resolve. */
  lemma {:induction false} ResolveOrderFirstError(order: seq<Cell>, entries: map<Cell, Element>, keys: set<Cell>, i: nat)
    requires forall j :: 0 <= j < |order| ==> order[j] in entries && entries[order[j]].groups.Names?
    requires i < |order| && ResolveElement(entries[order[i]], keys).Err?
    requires forall j :: 0 <= j < i ==> ResolveElement(entries[order[j]], keys).Ok?
    ensures ResolveOrder(order, entries, keys) == Err(ResolveElement(entries[order[i]], keys).error)
    decreases |order|
  {
    var init := order[..|order| - 1];
    if i < |order| - 1 {
      assert init[i] == order[i];
      assert forall j :: 0 <= j < i ==> init[j] == order[j];
      ResolveOrderFirstError(init, entries, keys, i);
    } else {
      assert forall j :: 0 <= j < |init| ==> init[j] == order[j];
    }
  }

  /** A failure on a prefix of the rows is the failure of the whole insertion loop. */
  lemma {:induction false} BuildAllPrefix(kind: Kind, rows: seq<Row>, d: Defaults, n: nat)
    requires n <= |rows|
    ensures BuildAll(kind, rows[..n], d).Err? ==> BuildAll(kind, rows, d) == BuildAll(kind, rows[..n], d)
    decreases |rows| - n
  {
    if n < |rows| {
      BuildAllPrefix(kind, rows, d, n + 1);
      BuildAllStep(kind, rows, d, n);
    } else {
      assert rows[..n] == rows;
    }
  }

  /** The insertion loop after one more row. */
  lemma BuildAllStep(kind: Kind, rows: seq<Row>, d: Defaults, i: nat)
    requires i < |rows|
    ensures BuildAll(kind, rows[..i + 1], d) ==
      if BuildAll(kind, rows[..i], d).Err? then BuildAll(kind, rows[..i], d)
      else if NamedElement(kind, rows[i], d).Err? then Err(NamedElement(kind, rows[i], d).error)
      else Ok(BuildAll(kind, rows[..i], d).value + [NamedElement(kind, rows[i], d).value])
  {
    assert rows[..i + 1][..i] == rows[..i];
    SequenceSnoc(NamedRows(kind, rows[..i], d), NamedElement(kind, rows[i], d));
  }

  /** A failure on a prefix of the names is the failure of the whole resolution. */
  lemma {:induction false} ResolveNamesPrefix(names: seq<string>, keys: set<Cell>, n: nat)
    requires n <= |names|
    ensures ResolveNames(names[..n], keys).Err? ==> ResolveNames(names, keys) == ResolveNames(names[..n], keys)
    decreases |names| - n
  {
    if n < |names| {
      assert names[..n + 1][..n] == names[..n];
      ResolveNamesPrefix(names, keys, n + 1);
    } else {
      assert names[..n] == names;
    }
  }

  /** `[groups[g] for g in names]`, name by name. */
  method ResolveGroupNames(names: seq<string>, keys: set<Cell>) returns (r: Result<seq<Cell>, LoadError>)
    ensures r == ResolveNames(names, keys)
  {
    var refs: seq<Cell> := [];
    for i := 0 to |names|
      invariant ResolveNames(names[..i], keys) == Ok(refs)
    {
      assert names[..i + 1][..i] == names[..i];
      if Str(names[i]) !in keys {
        ResolveNamesPrefix(names, keys, i + 1);
        return Err(UnknownGroup(names[i]));
      }
      refs := refs + [Str(names[i])];
    }
    assert names[..|names|] == names;
    r := Ok(refs);
  }

  /** The keys of a dict are listed once each. */
  predicate Distinct(order: seq<Cell>) {
    forall a, b :: 0 <= a < b < |order| ==> order[a] != order[b]
  }

  /**
   * The second pass after one more key: that key's element is still the one
   * inserted, and it is replaced by its resolved copy.
   */
  lemma ResolveOrderStep(order: seq<Cell>, entries: map<Cell, Element>, keys: set<Cell>, j: nat)
    requires forall i :: 0 <= i < |order| ==> order[i] in entries && entries[order[i]].groups.Names?
    requires Distinct(order) && j < |order| && ResolveOrder(order[..j], entries, keys).Ok?
    ensures ResolveOrder(order[..j], entries, keys).value[order[j]] == entries[order[j]]
    ensures ResolveOrder(order[..j + 1], entries, keys) ==
      if ResolveElement(entries[order[j]], keys).Err? then Err(ResolveElement(entries[order[j]], keys).error)
      else Ok(ResolveOrder(order[..j], entries, keys).value[order[j] := ResolveElement(entries[order[j]], keys).value])
  {
    assert order[..j + 1][..j] == order[..j];
    assert order[j] !in order[..j];
    ResolveOrderKeeps(order[..j], entries, keys, order[j]);
  }

  /** Every listed key ends up holding the resolved copy of its element. */
  lemma {:induction false} ResolveOrderValues(order: seq<Cell>, entries: map<Cell, Element>, keys: set<Cell>, i: nat)
    requires forall j :: 0 <= j < |order| ==> order[j] in entries && entries[order[j]].groups.Names?
    requires ResolveOrder(order, entries, keys).Ok? && i < |order|
    ensures ResolveElement(entries[order[i]], keys) == Ok(ResolveOrder(order, entries, keys).value[order[i]])
    decreases |order|
  {
    var init := order[..|order| - 1];
    assert forall j :: 0 <= j < |init| ==> init[j] == order[j];
    if i < |order| - 1 && order[i] != order[|order| - 1] {
      ResolveOrderValues(init, entries, keys, i);
    }
  }

  /** A key the second pass does not list keeps the element it was given. */
  lemma {:induction false} ResolveOrderKeeps(order: seq<Cell>, entries: map<Cell, Element>, keys: set<Cell>, k: Cell)
    requires forall i :: 0 <= i < |order| ==> order[i] in entries && entries[order[i]].groups.Names?
    requires ResolveOrder(order, entries, keys).Ok? && k in entries && k !in order
    ensures ResolveOrder(order, entries, keys).value[k] == entries[k]
    decreases |order|
  {
    if order != [] {
      var init := order[..|order| - 1];
      assert forall i :: 0 <= i < |init| ==> init[i] == order[i];
      ResolveOrderKeeps(init, entries, keys, k);
    }
  }

  /** A failure on a prefix of the keys is the failure of the whole second pass. */
  lemma {:induction false} ResolveOrderPrefix(order: seq<Cell>, entries: map<Cell, Element>, keys: set<Cell>, n: nat)
    requires forall i :: 0 <= i < |order| ==> order[i] in entries && entries[order[i]].groups.Names?
    requires n <= |order|
    ensures ResolveOrder(order[..n], entries, keys).Err? ==>
      ResolveOrder(order, entries, keys) == ResolveOrder(order[..n], entries, keys)
    decreases |order| - n
  {
    if n < |order| {
      assert order[..n + 1][..n] == order[..n];
      ResolveOrderPrefix(order, entries, keys, n + 1);
    } else {
      assert order[..n] == order;
    }
  }

  /** The second pass over a Hosts or Groups dictionary: each element's names are replaced by references. */
  method ResolveParents(t: Table, keys: set<Cell>) returns (r: Result<Table, LoadError>)
    requires t.Valid() && Unresolved(t)
    ensures r == ResolveTable(t, keys)
  {
    var entries := t.entries;
    for j := 0 to |t.order|
      invariant ResolveOrder(t.order[..j], t.entries, keys) == Ok(entries)
    {
      var k := t.order[j];
      ResolveOrderStep(t.order, t.entries, keys, j);
      var e := entries[k];
      var refs := ResolveGroupNames(e.groups.names, keys);
      if refs.Err? {
        ResolveOrderPrefix(t.order, t.entries, keys, j + 1);
        return Err(refs.error);
      }
      entries := entries[k := e.(groups := Refs(refs.value))];
    }
    assert t.order[..|t.order|] == t.order;
    r := Ok(OrderedMap(t.order, entries));
  }

  /** One row of the insertion loop: `row['name']`, the emptiness check, then the element. */
  method InsertRow(kind: Kind, row: Row, d: Defaults) returns (r: Result<Entry<Cell, Element>, LoadError>)
    ensures r == NamedElement(kind, row, d)
  {
    var name := Lookup(row, "name");
    if name.None? {
      return Err(MissingKey("name"));
    }
    if Empty(name.value) {
      return Err(EmptyName);
    }
    var e := GetInventoryElement(kind, row, d);
    if e.Err? {
      return Err(e.error);
    }
    r := Ok(Entry(name.value, e.value));
  }

  /** The insertion loop: `table[row['name']] = element`, row by row. */
  method InsertRows(kind: Kind, rows: seq<Row>, d: Defaults) returns (r: Result<Table, LoadError>)
    ensures r == TableOf(kind, rows, d)
  {
    var table := EmptyTable;
    ghost var es: seq<Entry<Cell, Element>> := [];
    for i := 0 to |rows|
      invariant BuildAll(kind, rows[..i], d) == Ok(es)
      invariant table == FromEntries(es)
    {
      var entry := InsertRow(kind, rows[i], d);
      BuildAllStep(kind, rows, d, i);
      if entry.Err? {
        BuildAllPrefix(kind, rows, d, i + 1);
        return Err(entry.error);
      }
      FromEntriesSnoc(es, entry.value);
      table := table.Put(entry.value.key, entry.value.value);
      es := es + [entry.value];
    }
    assert rows[..|rows|] == rows;
    r := Ok(table);
  }

  /** After the second pass the table holds the same keys, each element with its names resolved. */
  lemma ResolveTableContents(t: Table, keys: set<Cell>)
    requires t.Valid() && Unresolved(t) && ResolveTable(t, keys).Ok?
    ensures ResolveTable(t, keys).value.entries.Keys == t.entries.Keys
    ensures forall k :: k in t.entries ==> ResolveElement(t.entries[k], keys) == Ok(ResolveTable(t, keys).value.entries[k])
  {
    forall k | k in t.entries
      ensures ResolveElement(t.entries[k], keys) == Ok(ResolveTable(t, keys).value.entries[k])
    {
      ResolveTableAt(t, keys, k);
    }
  }

  /** After the second pass the element under `k` is the resolved copy of the one inserted. */
  lemma ResolveTableAt(t: Table, keys: set<Cell>, k: Cell)
    requires t.Valid() && Unresolved(t) && ResolveTable(t, keys).Ok? && k in t.entries
    ensures k in ResolveTable(t, keys).value.entries
    ensures ResolveElement(t.entries[k], keys) == Ok(ResolveTable(t, keys).value.entries[k])
  {
    assert k in (set x | x in t.order);
    var i :| 0 <= i < |t.order| && t.order[i] == k;
    ResolveOrderValues(t.order, t.entries, keys, i);
  }

  /** A resolved element refers only to keys of the dictionary it was resolved against, one per name, in order. */
  lemma ResolvedRefs(e: Element, keys: set<Cell>)
    requires e.groups.Names? && ResolveElement(e, keys).Ok?
    ensures var g := ResolveElement(e, keys).value.groups;
      g.Refs? && |g.refs| == |e.groups.names|
      && (forall i :: 0 <= i < |g.refs| ==> g.refs[i] == Str(e.groups.names[i]))
      && forall i :: 0 <= i < |g.refs| ==> g.refs[i] in keys
  {
  }

  /**
   * The steps of a successful load: the defaults built (or left empty), the
   * groups (or none without group rows), and the hosts resolved against the
   * groups' keys.
   */
  lemma AssembleSteps(hostsData: seq<Row>, groupsData: seq<Row>, defaultsData: Row)
    requires Assemble(hostsData, groupsData, defaultsData).Ok?
    ensures var inv := Assemble(hostsData, groupsData, defaultsData).value;
      && DefaultsFor(defaultsData) == Ok(inv.defaults)
      && (|groupsData| > 0 ==> GroupsOf(groupsData, inv.defaults) == Ok(inv.groups))
      && (|groupsData| == 0 ==> inv.groups == EmptyTable)
      && TableOf(HostKind, hostsData, inv.defaults).Ok?
      && Unresolved(TableOf(HostKind, hostsData, inv.defaults).value)
      && ResolveTable(TableOf(HostKind, hostsData, inv.defaults).value, inv.groups.entries.Keys) == Ok(inv.hosts)
  {
    var inv := Assemble(hostsData, groupsData, defaultsData).value;
    AssembleParts(hostsData, groupsData, defaultsData);
    HostsOfSteps(hostsData, inv.defaults, inv.groups.entries.Keys);
  }

  /** A successful load is made of its three successful parts. */
  lemma AssembleParts(hostsData: seq<Row>, groupsData: seq<Row>, defaultsData: Row)
    requires Assemble(hostsData, groupsData, defaultsData).Ok?
    ensures var inv := Assemble(hostsData, groupsData, defaultsData).value;
      && DefaultsFor(defaultsData) == Ok(inv.defaults)
      && GroupsFor(groupsData, inv.defaults) == Ok(inv.groups)
      && HostsOf(hostsData, inv.defaults, inv.groups.entries.Keys) == Ok(inv.hosts)
  {
  }

  /** The hosts of a successful load: inserted without error, then resolved. */
  lemma HostsOfSteps(rows: seq<Row>, d: Defaults, keys: set<Cell>)
    requires HostsOf(rows, d, keys).Ok?
    ensures TableOf(HostKind, rows, d).Ok? && Unresolved(TableOf(HostKind, rows, d).value)
    ensures ResolveTable(TableOf(HostKind, rows, d).value, keys) == HostsOf(rows, d, keys)
  {
    TableOfUnresolved(HostKind, rows, d);
  }

  /**
   * The table `t` was filled from `rows`: every row has a non-empty name and is
   * stored under it, and the element stored under a name is the one built from
   * the LAST row with that name, its group names resolved against `keys`.
   */
  predicate Built(kind: Kind, rows: seq<Row>, d: Defaults, keys: set<Cell>, t: Table) {
    && (forall i :: 0 <= i < |rows| ==> "name" in Keys(rows[i]) && !Empty(Get(rows[i], "name")))
    && (forall i :: 0 <= i < |rows| ==> Get(rows[i], "name") in t.entries)
    && forall k :: k in t.entries ==> exists i :: 0 <= i < |rows| && StoredFrom(kind, rows, d, keys, k, t.entries[k], i)
  }

  /**
   * Element `e`, stored under `k`, comes from row `i`: the last row named `k`,
   * built and then resolved against `keys`.
   */
  predicate StoredFrom(kind: Kind, rows: seq<Row>, d: Defaults, keys: set<Cell>, k: Cell, e: Element, i: int) {
    && 0 <= i < |rows| && Get(rows[i], "name") == k
    && (forall j :: i < j < |rows| ==> Get(rows[j], "name") != k)
    && ElementOf(kind, rows[i], d).Ok?
    && ElementOf(kind, rows[i], d).value.groups.Names?
    && ResolveElement(ElementOf(kind, rows[i], d).value, keys) == Ok(e)
  }

  /**
   * A table of a successful load, row by row: every row has a non-empty name
   * and is stored under it, and the element stored under a name is the one
   * built from the LAST row with that name, its group names resolved.
   */
  lemma LoadedTable(kind: Kind, rows: seq<Row>, d: Defaults, keys: set<Cell>)
    requires TableOf(kind, rows, d).Ok?
    requires Unresolved(TableOf(kind, rows, d).value)
    requires ResolveTable(TableOf(kind, rows, d).value, keys).Ok?
    ensures Built(kind, rows, d, keys, ResolveTable(TableOf(kind, rows, d).value, keys).value)
  {
    var built := TableOf(kind, rows, d).value;
    var t := ResolveTable(built, keys).value;
    forall i | 0 <= i < |rows|
      ensures "name" in Keys(rows[i]) && !Empty(Get(rows[i], "name"))
      ensures Get(rows[i], "name") in t.entries
    {
      BuildAllAt(kind, rows, d, i);
      RowStored(kind, rows, d, i);
    }
    forall k | k in t.entries
      ensures exists i :: 0 <= i < |rows| && StoredFrom(kind, rows, d, keys, k, t.entries[k], i)
    {
      var i := LastRow(kind, rows, d, k);
      ResolveTableAt(built, keys, k);
      assert StoredFrom(kind, rows, d, keys, k, t.entries[k], i);
    }
  }

  /** Every element of the table holds references, each one a key of `keys`. */
  predicate RefersTo(t: Table, keys: set<Cell>) {
    forall k :: k in t.entries ==>
      (t.entries[k].groups.Refs? && forall i :: 0 <= i < |t.entries[k].groups.refs| ==> t.entries[k].groups.refs[i] in keys)
  }

  /**
   * Every group reference of a successful load names a group of the
   * inventory: hosts and groups alike refer only to keys of the groups
   * dictionary, one reference per name split from the row.
   */
  lemma LoadedReferences(hostsData: seq<Row>, groupsData: seq<Row>, defaultsData: Row)
    requires Assemble(hostsData, groupsData, defaultsData).Ok?
    ensures var inv := Assemble(hostsData, groupsData, defaultsData).value;
      RefersTo(inv.hosts, inv.groups.entries.Keys) && RefersTo(inv.groups, inv.groups.entries.Keys)
  {
    var inv := Assemble(hostsData, groupsData, defaultsData).value;
    AssembleSteps(hostsData, groupsData, defaultsData);
    var hostTable := TableOf(HostKind, hostsData, inv.defaults).value;
    ResolveTableContents(hostTable, inv.groups.entries.Keys);
    forall k | k in inv.hosts.entries
      ensures inv.hosts.entries[k].groups.Refs?
      ensures forall i :: 0 <= i < |inv.hosts.entries[k].groups.refs| ==> inv.hosts.entries[k].groups.refs[i] in inv.groups.entries
    {
      ResolvedRefs(hostTable.entries[k], inv.groups.entries.Keys);
    }
    if |groupsData| > 0 {
      var groupTable := TableOf(GroupKind, groupsData, inv.defaults).value;
      TableOfUnresolved(GroupKind, groupsData, inv.defaults);
      ResolveTableContents(groupTable, groupTable.entries.Keys);
      forall k | k in inv.groups.entries
        ensures inv.groups.entries[k].groups.Refs?
        ensures forall i :: 0 <= i < |inv.groups.entries[k].groups.refs| ==> inv.groups.entries[k].groups.refs[i] in inv.groups.entries
      {
        ResolvedRefs(groupTable.entries[k], groupTable.entries.Keys);
      }
    }
  }

  /**
   * The hosts and groups of a successful load, row by row: no row had a
   * missing or empty name, a duplicate name keeps the last row's element,
   * and every element's names were resolved against the groups dictionary.
   */
  lemma LoadedHostsAndGroups(hostsData: seq<Row>, groupsData: seq<Row>, defaultsData: Row)
    requires Assemble(hostsData, groupsData, defaultsData).Ok?
    ensures var inv := Assemble(hostsData, groupsData, defaultsData).value;
      && Built(HostKind, hostsData, inv.defaults, inv.groups.entries.Keys, inv.hosts)
      && (|groupsData| > 0 ==> Built(GroupKind, groupsData, inv.defaults, inv.groups.entries.Keys, inv.groups))
  {
    var inv := Assemble(hostsData, groupsData, defaultsData).value;
    AssembleSteps(hostsData, groupsData, defaultsData);
    LoadedTable(HostKind, hostsData, inv.defaults, inv.groups.entries.Keys);
    if |groupsData| > 0 {
      TableOfUnresolved(GroupKind, groupsData, inv.defaults);
      var groupTable := TableOf(GroupKind, groupsData, inv.defaults).value;
      LoadedTable(GroupKind, groupsData, inv.defaults, groupTable.entries.Keys);
      ResolveTableContents(groupTable, groupTable.entries.Keys);
    }
  }

  /**
   * Without group rows there are no groups, so a successful load has hosts
   * with no group references at all.
   */
  lemma NoGroupRows(hostsData: seq<Row>, defaultsData: Row)
    requires Assemble(hostsData, [], defaultsData).Ok?
    ensures Assemble(hostsData, [], defaultsData).value.groups == EmptyTable
    ensures var hosts := Assemble(hostsData, [], defaultsData).value.hosts;
      forall k :: k in hosts.entries ==> hosts.entries[k].groups == Refs([])
  {
    var inv := Assemble(hostsData, [], defaultsData).value;
    AssembleSteps(hostsData, [], defaultsData);
    LoadedReferences(hostsData, [], defaultsData);
    assert inv.groups.entries.Keys == {};
    forall k | k in inv.hosts.entries
      ensures inv.hosts.entries[k].groups == Refs([])
    {
      NoKeysNoRefs(inv.hosts.entries[k].groups.refs, inv.groups.entries.Keys);
    }
  }

  /** References into an empty dictionary: there are none. */
  lemma NoKeysNoRefs(refs: seq<Cell>, keys: set<Cell>)
    ensures keys == {} && (forall i :: 0 <= i < |refs| ==> refs[i] in keys) ==> refs == []
  {
    if refs != [] {
      assert keys == {} ==> refs[0] !in keys;
    }
  }

  /**
   * Every host and group of a successful load shares the inventory's
   * defaults: the defaults row as `_get_defaults` builds it, or `Defaults()`
   * when there is no defaults row.
   */
  lemma LoadedDefaults(hostsData: seq<Row>, groupsData: seq<Row>, defaultsData: Row)
    requires Assemble(hostsData, groupsData, defaultsData).Ok?
    ensures var inv := Assemble(hostsData, groupsData, defaultsData).value;
      && DefaultsFor(defaultsData) == Ok(inv.defaults)
      && (|defaultsData| == 0 ==> inv.defaults == EmptyDefaults)
      && (forall k :: k in inv.hosts.entries ==> inv.hosts.entries[k].defaults == inv.defaults)
      && (forall k :: k in inv.groups.entries ==> inv.groups.entries[k].defaults == inv.defaults)
  {
    var inv := Assemble(hostsData, groupsData, defaultsData).value;
    LoadedHostsAndGroups(hostsData, groupsData, defaultsData);
    AssembleSteps(hostsData, groupsData, defaultsData);
    BuiltShares(HostKind, hostsData, inv.defaults, inv.groups.entries.Keys, inv.hosts);
    if |groupsData| > 0 {
      BuiltShares(GroupKind, groupsData, inv.defaults, inv.groups.entries.Keys, inv.groups);
    }
  }

  /** Every element of a filled table holds the defaults it was built with. */
  lemma BuiltShares(kind: Kind, rows: seq<Row>, d: Defaults, keys: set<Cell>, t: Table)
    requires Built(kind, rows, d, keys, t)
    ensures forall k :: k in t.entries ==> t.entries[k].defaults == d
  {
    forall k | k in t.entries
      ensures t.entries[k].defaults == d
    {
      var i :| StoredFrom(kind, rows, d, keys, k, t.entries[k], i);
      StoredKeepsDefaults(kind, rows, d, keys, k, t.entries[k], i);
    }
  }

  lemma StoredKeepsDefaults(kind: Kind, rows: seq<Row>, d: Defaults, keys: set<Cell>, k: Cell, e: Element, i: int)
    requires StoredFrom(kind, rows, d, keys, k, e, i)
    ensures e.defaults == d && e.kind == kind
  {
  }

  /**
   * `order` lists names by their first row: of two listed names, the first
   * one listed appears in an earlier row than any row of the second.
   */
  predicate FirstSeenOrder(rows: seq<Row>, order: seq<Cell>) {
    forall a, b, i :: 0 <= a < b < |order| && 0 <= i < |rows| && Get(rows[i], "name") == order[b] ==>
      exists j :: 0 <= j < i && Get(rows[j], "name") == order[a]
  }

  /** The insertion loop lists each name once, where its first row put it; later duplicates keep that place. */
  lemma TableOfOrder(kind: Kind, rows: seq<Row>, d: Defaults)
    requires TableOf(kind, rows, d).Ok?
    ensures FirstSeenOrder(rows, TableOf(kind, rows, d).value.order)
  {
    var order := TableOf(kind, rows, d).value.order;
    forall a, b, i | 0 <= a < b < |order| && 0 <= i < |rows| && Get(rows[i], "name") == order[b]
      ensures exists j :: 0 <= j < i && Get(rows[j], "name") == order[a]
    {
      var j := EarlierRow(kind, rows, d, a, b, i);
    }
  }

  /** A row named by the `b`-th listed key has an earlier row named by the `a`-th. */
  lemma EarlierRow(kind: Kind, rows: seq<Row>, d: Defaults, a: nat, b: nat, i: nat) returns (j: nat)
    requires TableOf(kind, rows, d).Ok?
    requires a < b < |TableOf(kind, rows, d).value.order| && i < |rows|
    requires Get(rows[i], "name") == TableOf(kind, rows, d).value.order[b]
    ensures j < i && Get(rows[j], "name") == TableOf(kind, rows, d).value.order[a]
  {
    var es := BuildAll(kind, rows, d).value;
    var order := TableOf(kind, rows, d).value.order;
    FromEntriesOrderPair(es, a, b);
    var fb := FirstIndex(es, order[b]);
    j := FirstIndex(es, order[a]);
    BuildAllAt(kind, rows, d, i);
    BuildAllAt(kind, rows, d, j);
  }

  /** The hosts and groups of a successful load keep the order of their first rows. */
  lemma LoadedOrder(hostsData: seq<Row>, groupsData: seq<Row>, defaultsData: Row)
    requires Assemble(hostsData, groupsData, defaultsData).Ok?
    ensures var inv := Assemble(hostsData, groupsData, defaultsData).value;
      && inv.hosts.Valid() && inv.groups.Valid()
      && FirstSeenOrder(hostsData, inv.hosts.order) && FirstSeenOrder(groupsData, inv.groups.order)
  {
    var inv := Assemble(hostsData, groupsData, defaultsData).value;
    AssembleSteps(hostsData, groupsData, defaultsData);
    TableOfOrder(HostKind, hostsData, inv.defaults);
    if |groupsData| > 0 {
      TableOfOrder(GroupKind, groupsData, inv.defaults);
    }
  }

  /** A host or group row without a name, or with an empty one, aborts the load: no inventory is returned. */
  lemma BadNameAborts(hostsData: seq<Row>, groupsData: seq<Row>, defaultsData: Row)
    requires (exists i :: 0 <= i < |hostsData| && ("name" !in Keys(hostsData[i]) || Empty(Get(hostsData[i], "name"))))
      || (exists i :: 0 <= i < |groupsData| && ("name" !in Keys(groupsData[i]) || Empty(Get(groupsData[i], "name"))))
    ensures Assemble(hostsData, groupsData, defaultsData).Err?
  {
    if Assemble(hostsData, groupsData, defaultsData).Ok? {
      LoadedHostsAndGroups(hostsData, groupsData, defaultsData);
    }
  }

  /** `FlatDataInventory`: the rows it was given, and `load`. */
  class FlatDataInventory {
    const hostsData: seq<Row>
    const groupsData: seq<Row>
    const defaultsData: Row

    constructor(hostsData: seq<Row>, groupsData: seq<Row>, defaultsData: Row)
      ensures this.hostsData == hostsData && this.groupsData == groupsData && this.defaultsData == defaultsData
    {
      this.hostsData := hostsData;
      this.groupsData := groupsData;
      this.defaultsData := defaultsData;
    }

    /** `load`: defaults, then groups and their resolution, then hosts and theirs. */
    method Load() returns (r: Result<Inventory, LoadError>)
      ensures r == Assemble(hostsData, groupsData, defaultsData)
    {
      var defaults := EmptyDefaults;
      var groups := EmptyTable;
      var hosts := EmptyTable;

      if |defaultsData| > 0 {
        var built := GetDefaults(defaultsData);
        if built.Err? {
          return Err(built.error);
        }
        defaults := built.value;
      }

      if |groupsData| > 0 {
        var built := InsertRows(GroupKind, groupsData, defaults);
        if built.Err? {
          return Err(built.error);
        }
        TableOfUnresolved(GroupKind, groupsData, defaults);
        var resolved := ResolveParents(built.value, built.value.entries.Keys);
        if resolved.Err? {
          return Err(resolved.error);
        }
        groups := resolved.value;
      }

      var built := InsertRows(HostKind, hostsData, defaults);
      if built.Err? {
        return Err(built.error);
      }
      TableOfUnresolved(HostKind, hostsData, defaults);
      var resolved := ResolveParents(built.value, groups.entries.Keys);
      if resolved.Err? {
        return Err(resolved.error);
      }
      hosts := resolved.value;
      r := Ok(Inventory(hosts, groups, defaults));
    }
  }
}
