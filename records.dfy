/**
 * The record builders of nornir_table_inventory/plugins/inventory/table.py:
 * `_get_inventory_element`, which turns one row into a host or a group, and
 * `_get_defaults`, which turns the defaults row into the inventory defaults.
 * Nornir's Host, Group and Defaults are records holding their constructor
 * arguments.
 */
module Records {
  import opened Wrappers
  import opened Text
  import opened Cells
  import opened Dicts
  import opened Fields
  import opened Connection

  datatype Kind = HostKind | GroupKind

  /**
   * The `groups` of an element: the names split from the row, or, once the
   * inventory is assembled, references to groups, written as keys of the
   * groups dictionary.
   */
  datatype Parents = Names(names: seq<string>) | Refs(refs: seq<Cell>)

  /** Nornir's Defaults, holding its constructor arguments. */
  datatype Defaults = Defaults(
    hostname: Cell, port: Cell, username: Cell, password: Cell, platform: Cell,
    data: map<string, Cell>, connectionOptions: map<string, ConnectionOptions>)

  /** `Defaults()`: nothing set. */
  const EmptyDefaults: Defaults := Defaults(Null, Null, Null, Null, Null, map[], map[])

  /** A Nornir Host or Group, holding its constructor arguments. */
  datatype Element = Element(
    kind: Kind, name: Cell,
    hostname: Cell, port: Cell, username: Cell, password: Cell, platform: Cell,
    groups: Parents, data: map<string, Cell>,
    connectionOptions: map<string, ConnectionOptions>, defaults: Defaults)

  /** `if name: name = str(name)`. */
  function CoerceName(c: Cell): (r: Cell)
    ensures Truthy(c) ==> r.Str? && r.s != "" && r.s == PyStr(c)
    ensures !Truthy(c) ==> r == c
  {
    PyStrOfTruthy(c);
    if Truthy(c) then Str(PyStr(c)) else c
  }

  /** `if x: x = str(x) if not _empty(x) else None`, for hostname, username, password and platform. */
  function CoerceText(c: Cell): (r: Cell)
    ensures c == NaN ==> r == Null
    ensures Truthy(c) && !Empty(c) ==> r.Str? && r.s != "" && r.s == PyStr(c)
    ensures !Truthy(c) ==> r == c
    ensures r != NaN
  {
    PyStrOfTruthy(c);
    if Truthy(c) then (if Empty(c) then Null else Str(PyStr(c))) else c
  }

  /** `if port: port = int(port) if not _empty(port) else None`; `int()` may refuse the value. */
  function CoercePort(c: Cell): (r: Result<Cell, LoadError>)
    ensures r.Err? <==> Truthy(c) && !Empty(c) && PyInt(c).Err?
    ensures r.Err? ==> r.error == ConversionError
    ensures r.Ok? && Truthy(c) && !Empty(c) ==> r.value == Int(PyInt(c).value)
    ensures r.Ok? && c == NaN ==> r.value == Null
    ensures !Truthy(c) ==> r == Ok(c)
  {
    if Truthy(c) then
      if Empty(c) then Ok(Null)
      else
        var n :- PyInt(c);
        Ok(Int(n))
    else Ok(c)
  }

  /**
   * `if groups: groups = [x for x in groups.split(",")]`, followed by Nornir's
   * `groups or ParentGroups()`: a falsy cell gives no parents, and `.split`
   * exists only on strings.
   */
  function ParentNames(c: Cell): (r: Result<Parents, LoadError>)
    ensures r.Err? <==> Truthy(c) && !c.Str?
    ensures r.Err? ==> r.error == NotText("groups")
    ensures r.Ok? ==> r.value.Names?
    ensures !Truthy(c) ==> r == Ok(Names([]))
  {
    if Truthy(c) then
      if c.Str? then Ok(Names(Split(c.s, ','))) else Err(NotText("groups"))
    else Ok(Names([]))
  }

  /**
   * The host or group `_get_inventory_element` builds from a row, or the error
   * that aborts it: `int(port)` is tried first, then `groups.split`, then the
   * netmiko options.
   */
  function ElementOf(kind: Kind, row: Row, d: Defaults): (r: Result<Element, LoadError>)
    ensures r.Ok? ==> r.value.kind == kind && r.value.defaults == d && r.value.groups.Names?
    ensures r.Ok? ==> r.value.data == DataOf(row, false)
    ensures r.Err? ==> r.error == ConversionError || r.error == NotText("groups")
  {
    var port :- CoercePort(GetOr(row, "port", Int(22)));
    var groups :- ParentNames(Get(row, "groups"));
    var connectionOptions :- NetmikoOptionsOf(row);
    Ok(Element(kind, CoerceName(Get(row, "name")),
      CoerceText(Get(row, "hostname")), port, CoerceText(Get(row, "username")),
      CoerceText(Get(row, "password")), CoerceText(Get(row, "platform")),
      groups, DataOf(row, false), connectionOptions, d))
  }

  /** `if x: x = str(x) if not _empty(x) else None`, one identity column. */
  method TextStep(x: Cell) returns (r: Cell)
    ensures r == CoerceText(x)
  {
    r := x;
    if Truthy(x) {
      r := if !Empty(x) then Str(PyStr(x)) else Null;
    }
  }

  /** `if port: port = int(port) if not _empty(port) else None`. */
  method PortStep(x: Cell) returns (r: Result<Cell, LoadError>)
    ensures r == CoercePort(x)
  {
    r := Ok(x);
    if Truthy(x) {
      if !Empty(x) {
        var n := PyInt(x);
        if n.Err? {
          return Err(n.error);
        }
        r := Ok(Int(n.value));
      } else {
        r := Ok(Null);
      }
    }
  }

  /** `_get_inventory_element`: read the identity columns, coerce them one by one, then build the element. */
  method GetInventoryElement(kind: Kind, data: Row, defaults: Defaults) returns (r: Result<Element, LoadError>)
    ensures r == ElementOf(kind, data, defaults)
  {
    var name := Get(data, "name");
    var hostname := Get(data, "hostname");
    var port := GetOr(data, "port", Int(22));
    var username := Get(data, "username");
    var password := Get(data, "password");
    var platform := Get(data, "platform");
    var groupsCell := Get(data, "groups");

    if Truthy(name) {
      name := Str(PyStr(name));
    }
    hostname := TextStep(hostname);
    var p := PortStep(port);
    if p.Err? {
      return Err(p.error);
    }
    port := p.value;
    username := TextStep(username);
    password := TextStep(password);
    platform := TextStep(platform);
    // Nornir keeps `groups or ParentGroups()`
    var groups := Names([]);
    if Truthy(groupsCell) {
      if !groupsCell.Str? {
        return Err(NotText("groups"));
      }
      groups := Names(Split(groupsCell.s, ','));
    }
    assert ParentNames(Get(data, "groups")) == Ok(groups);

    var elementData := GetData(data, false);
    var connectionOptions := GetHostNetmikoOptions(data);
    if connectionOptions.Err? {
      return Err(connectionOptions.error);
    }
    r := Ok(Element(kind, name, hostname, port, username, password, platform,
      groups, elementData, connectionOptions.value, defaults));
  }

  /**
   * The Defaults `_get_defaults` builds: the raw cells of the identity columns,
   * with no port default; the coercions it computes are discarded, yet
   * `int(port)` can still abort it.
   */
  function DefaultsOf(row: Row): (r: Result<Defaults, LoadError>)
    ensures r.Ok? ==> r.value.data == DataOf(row, false)
    ensures r.Err? ==> r.error == ConversionError
  {
    var _ :- CoercePort(Get(row, "port"));
    var connectionOptions :- NetmikoOptionsOf(row);
    Ok(Defaults(Get(row, "hostname"), Get(row, "port"), Get(row, "username"),
      Get(row, "password"), Get(row, "platform"), DataOf(row, false), connectionOptions))
  }

  /** `_get_defaults`: the same reading and coercion steps as for an element, whose results go unused. */
  method GetDefaults(data: Row) returns (r: Result<Defaults, LoadError>)
    ensures r == DefaultsOf(data)
  {
    var name := Get(data, "name");
    var hostname := Get(data, "hostname");
    var port := Get(data, "port");
    var username := Get(data, "username");
    var password := Get(data, "password");
    var platform := Get(data, "platform");

    if Truthy(name) {
      name := Str(PyStr(name));
    }
    hostname := TextStep(hostname);
    var p := PortStep(port);
    if p.Err? {
      return Err(p.error);
    }
    port := p.value;
    username := TextStep(username);
    password := TextStep(password);
    platform := TextStep(platform);

    var defaultsData := GetData(data, false);
    var connectionOptions := GetHostNetmikoOptions(data);
    if connectionOptions.Err? {
      return Err(connectionOptions.error);
    }
    r := Ok(Defaults(Get(data, "hostname"), Get(data, "port"), Get(data, "username"),
      Get(data, "password"), Get(data, "platform"), defaultsData, connectionOptions.value));
  }

  /**
   * Coercing twice changes nothing more: a coerced identity field is already
   * in its final form.
   */
  lemma CoercionIdempotent(c: Cell)
    ensures CoerceName(CoerceName(c)) == CoerceName(c)
    ensures CoerceText(CoerceText(c)) == CoerceText(c)
    ensures CoercePort(c).Ok? ==> CoercePort(CoercePort(c).value) == CoercePort(c)
  {
    PyStrOfTruthy(c);
  }

  /** `str(n)` and the int n become n; "" and None stay as they are; NaN becomes None. */
  lemma PortCoercion(n: int)
    ensures CoercePort(Str(IntToString(n))) == Ok(Int(n))
    ensures CoercePort(Int(n)) == Ok(Int(n))
    ensures CoercePort(Str("")) == Ok(Str(""))
    ensures CoercePort(NaN) == Ok(Null)
    ensures CoercePort(Null) == Ok(Null)
  {
    PyIntOfDecimal(n);
    IntToStringShape(n);
  }

  /**
   * Every port string goes through `int()`: a run of decimal digits, unsigned or
   * with one leading sign, becomes its value ("022" and "+22" give 22), and any
   * other non-empty string aborts the load.
   */
  lemma {:induction false} PortStrings(s: string)
    ensures IsDigits(s) ==> CoercePort(Str(s)) == Ok(Int(DigitsValue(s)))
    ensures |s| > 1 && s[0] == '+' && IsDigits(s[1..]) ==> CoercePort(Str(s)) == Ok(Int(DigitsValue(s[1..])))
    ensures |s| > 1 && s[0] == '-' && IsDigits(s[1..]) ==> CoercePort(Str(s)) == Ok(Int(-(DigitsValue(s[1..]) as int)))
    ensures (exists i :: 0 <= i < |s| && !IsDigit(s[i]) && !(i == 0 && (s[0] == '-' || s[0] == '+') && |s| > 1))
      ==> CoercePort(Str(s)) == Err(ConversionError)
  {
    ParseIntDecimal(s);
    if ParseInt(s).Some? {
      ParseIntNeedsDigits(s);
    }
  }

  /**
   * The port of an element is 22 when the row has no `port` column; otherwise
   * it is the coerced port cell, 22 exactly when `int()` of that cell is 22,
   * and None stays None.
   */
  lemma {:induction false} PortDefault(kind: Kind, row: Row, d: Defaults)
    requires ElementOf(kind, row, d).Ok?
    ensures "port" !in Keys(row) ==> ElementOf(kind, row, d).value.port == Int(22)
    ensures "port" in Keys(row) ==> ElementOf(kind, row, d).value.port == CoercePort(Get(row, "port")).value
  {
    ElementFields(kind, row, d);
    LookupLast(row, "port");
  }

  /**
   * A groups string becomes its comma-separated parts, in order and untrimmed:
   * n commas give n + 1 names, none holding a comma, and joining them gives the
   * string back.
   */
  lemma GroupsSplit(s: string)
    requires s != ""
    ensures ParentNames(Str(s)).Ok?
    ensures var names := ParentNames(Str(s)).value.names;
      |names| == Count(s, ',') + 1 && Join(names, ',') == s
      && forall i :: 0 <= i < |names| ==> ',' !in names[i]
    ensures ',' !in s ==> ParentNames(Str(s)) == Ok(Names([s]))
  {
    SplitJoin(s, ',');
    SplitCount(s, ',');
    SplitParts(s, ',');
    if ',' !in s {
      SplitWithoutSeparator(s, ',');
    }
  }

  /**
   * What `_get_inventory_element` yields, field by field: the identity fields
   * coerced from the row's cells (port defaulting to 22), the groups split,
   * the free-form data and netmiko options of the row, and the error of the
   * first step that fails.
   */
  lemma ElementFields(kind: Kind, row: Row, d: Defaults)
    ensures ElementOf(kind, row, d).Ok? <==>
      CoercePort(GetOr(row, "port", Int(22))).Ok? && ParentNames(Get(row, "groups")).Ok?
      && NetmikoOptionsOf(row).Ok?
    ensures CoercePort(GetOr(row, "port", Int(22))).Err? ==> ElementOf(kind, row, d) == Err(ConversionError)
    ensures CoercePort(GetOr(row, "port", Int(22))).Ok? && ParentNames(Get(row, "groups")).Err? ==>
      ElementOf(kind, row, d) == Err(NotText("groups"))
    ensures ElementOf(kind, row, d).Ok? ==>
      var e := ElementOf(kind, row, d).value;
      && e.name == CoerceName(Get(row, "name"))
      && e.hostname == CoerceText(Get(row, "hostname"))
      && e.username == CoerceText(Get(row, "username"))
      && e.password == CoerceText(Get(row, "password"))
      && e.platform == CoerceText(Get(row, "platform"))
      && e.port == CoercePort(GetOr(row, "port", Int(22))).value
      && e.groups == ParentNames(Get(row, "groups")).value
      && e.connectionOptions == NetmikoOptionsOf(row).value
  {
  }

  /**
   * The defaults keep the row's raw cells: a port of "2222" stays the string
   * "2222", an empty port stays "", and no port gives None, never 22.
   */
  lemma DefaultsKeepRawCells(row: Row)
    ensures DefaultsOf(row).Ok? <==> CoercePort(Get(row, "port")).Ok? && NetmikoOptionsOf(row).Ok?
    ensures DefaultsOf(row).Ok? ==>
      var d := DefaultsOf(row).value;
      && d.hostname == Get(row, "hostname") && d.port == Get(row, "port")
      && d.username == Get(row, "username") && d.password == Get(row, "password")
      && d.platform == Get(row, "platform")
      && d.connectionOptions == NetmikoOptionsOf(row).value
    ensures "port" !in Keys(row) ==> DefaultsOf(row).Ok? ==> DefaultsOf(row).value.port == Null
  {
    LookupLast(row, "port");
  }
}
