# nornir_table_inventory — a Dafny model of the flat-table inventory plugin

The plugin turns flat tables into a Nornir inventory. It works on a list of host
rows, a list of group rows and at most one defaults row. Each row maps column
names to loosely typed cells. This project models that transformation in
Dafny 4.11 and proves properties of it. The transformation lives in
`nornir_table_inventory/plugins/inventory/table.py`.

The model is split into these modules:

- `Cells` (cells.dfy) models a cell. A cell is a string, an int, a float NaN,
  Python's None or a bool. The module also defines `_empty`, Python truthiness,
  `str()` and `int()` on cells.
- `Text` (text.dfy) holds the Python string operations the plugin uses:
  substring `in`, `str.replace(p, '')`, `str.split(',')`, ASCII `str.lower`,
  `str(int)` and `int(str)`.
- `Dicts` (dicts.dfy) models dictionaries that are filled by assignment, with
  the last write winning. `OrderedMap` models a Python dict, meaning insertion
  order plus contents. It is used for the Hosts and Groups dictionaries.
- `Fields` (fields.dfy) holds rows and `_get_data`.
- `Connection` (connection.dfy) holds `_get_host_netmiko_options` and
  `_get_connection_options`.
- `Records` (records.dfy) holds `_get_inventory_element` and `_get_defaults`.
  Host, Group and Defaults are records that hold their constructor arguments.
- `Inventory` (inventory.dfy) holds `FlatDataInventory` and its `load`.
- `Wrappers` (wrappers.dfy) holds `Option` and `Result`, plus `Sequence`.
  `Sequence` runs steps in order, and the first step that fails aborts the run.

Each operation that the source writes as a loop or as step-by-step
reassignment is a `method`, and each such method is proved equal to a
specification function:

- `GetData`
- `GetHostNetmikoOptions`, with its loop in `CollectExtras` and the
  per-column `if`/`elif`/`else` in `CoerceColumn`
- `GetConnectionOptions`
- `GetInventoryElement` and `GetDefaults`, which share `TextStep` (the
  `str(x) if not _empty(x) else None` guard) and `PortStep` (the `int(port)`
  guard)
- `InsertRows`, with one row in `InsertRow`
- `ResolveParents`
- `ResolveGroupNames`
- `FlatDataInventory.Load`

Lemmas state what those functions promise.

Every exception that aborts a load is a `LoadError`:

- `ConversionError`: `int()` refused a value.
- `NotText`: `.split` was called on a cell that is not a string.
- `MissingKey`: the row has no `name` column, so `row['name']` fails.
- `EmptyName`: the row's name is empty.
- `UnknownGroup`: a group name is not a key of the Groups dictionary.

Hosts and groups are stored under the raw `name` cell of their row, as in
`groups[g['name']] = ...`. A group reference is the key it resolved to.

A `Row` is a list of column entries. It stands for a Python dict only when its
column names are distinct, which every row read from a table has. The
operations accept any list: a lookup takes the last entry for a name, while
the netmiko loop visits every entry, so a repeated netmiko column that fails
`int()` aborts the load even when a later entry for it would convert.

Some behaviours of the code are easy to miss. The model keeps each of them:

- **A host row without a `port` column gets port 22, not an unset port.**
  `data.get("port", 22)` supplies 22 when the column is absent.
  `Records.PortDefault` states this.
- **A group whose port cell is `""` keeps `""`, not an unset port.** `if port:`
  is false for `""`, so the raw cell is kept. `Records.CoercePort` states this.
- **Only a str `groups` cell can be split.** A truthy `groups` cell that is not
  a str (a number, NaN or True) makes `.split` raise, so this is a second error
  of the record builder besides a failed `int()`. The model reports it as
  `NotText("groups")`. A truthy str cell is split into names.
- **Defaults keep the raw cells.** `_get_defaults` computes coerced identity
  fields and then passes the raw row values to `Defaults`, so only the failing
  `int(port)` of the coercion has an effect: it can still abort the load.
  `Records.DefaultsKeepRawCells` states this.

## Model

| member | source | states |
|---|---|---|
| Cells.EmptyExactly | nornir_table_inventory/plugins/inventory/table.py:23-25 | A cell is empty exactly when it is None, NaN or ""; 0, False and a blank " " are not empty |
| Cells.EmptyVersusTruthy | nornir_table_inventory/plugins/inventory/table.py:116-127 | The truthiness guards and `_empty` disagree exactly on NaN (empty yet truthy) and on 0 and False (falsy yet not empty) |
| Cells.PyStrOfTruthy | nornir_table_inventory/plugins/inventory/table.py:117 | `str()` of a truthy cell is never "" |
| Cells.PyIntOfDecimal | nornir_table_inventory/plugins/inventory/table.py:121 | `int(str(n)) == n`; `int()` of an int is itself; of True/False is 1/0; of NaN, None and "" is a conversion error |
| Text.ContainsNeedsRoom | nornir_table_inventory/plugins/inventory/table.py:53 | A pattern longer than the string is never `in` it |
| Text.ReplaceAllWithoutMatch | nornir_table_inventory/plugins/inventory/table.py:82 | `replace` leaves a string without the pattern unchanged |
| Text.ReplaceAllShortens | nornir_table_inventory/plugins/inventory/table.py:82 | `replace` never lengthens a string, and removes at least one full copy when the pattern occurs |
| Text.SplitJoin | nornir_table_inventory/plugins/inventory/table.py:129 | Joining the parts of `split(sep)` with sep gives the string back |
| Text.SplitCount | nornir_table_inventory/plugins/inventory/table.py:129 | n separators give n+1 parts |
| Text.SplitParts | nornir_table_inventory/plugins/inventory/table.py:129 | No part of `split(sep)` holds the separator |
| Text.SplitWithoutSeparator | nornir_table_inventory/plugins/inventory/table.py:129 | A string without the separator splits into itself alone |
| Text.NatToStringDigits | nornir_table_inventory/plugins/inventory/table.py:87 | The decimal spelling of n is all digits, has value n, and is one character exactly when n < 10 |
| Text.ParseIntRoundTrip | nornir_table_inventory/plugins/inventory/table.py:85 | `int(str(i)) == i` for every integer |
| Text.ParseIntNeedsDigits | nornir_table_inventory/plugins/inventory/table.py:85 | A string `int()` accepts is non-empty and holds only digits after its first character, which is a digit or a sign followed by more |
| Text.ParseIntDecimal | nornir_table_inventory/plugins/inventory/table.py:85 | `int()` accepts every run of decimal digits, unsigned or with one leading `+` or `-`, and gives its value |
| Text.IntToStringShape | nornir_table_inventory/plugins/inventory/table.py:87 | `str(i)` is already lower case, non-empty, starts with a digit or '-', and is "0" only for 0 |
| Wrappers.Sequence | nornir_table_inventory/plugins/inventory/table.py:195-200 | A row loop succeeds iff every step succeeds, and then yields each step's value in order |
| Wrappers.SequenceFirstError | nornir_table_inventory/plugins/inventory/table.py:195-200 | A failing row loop fails with the error of its first failing step |
| Dicts.LookupLast | nornir_table_inventory/plugins/inventory/table.py:108-114 | `data.get(k)` finds a value iff k is a column, and it is the value of the last entry with that key |
| Dicts.ToMapLookup | nornir_table_inventory/plugins/inventory/table.py:52-54 | The dict filled by assignments holds exactly the assigned keys, each with its last assigned value |
| Dicts.KeysIndex | nornir_table_inventory/plugins/inventory/table.py:52-54 | A key is assigned iff some entry carries it |
| Dicts.OrderedMap.Put | nornir_table_inventory/plugins/inventory/table.py:197 | `d[k] = v` keeps the dict well formed; a new key goes last, an existing key keeps its place and takes the new value |
| Dicts.FromEntries | nornir_table_inventory/plugins/inventory/table.py:195-197 | The dict filled by a sequence of assignments is well formed |
| Dicts.FromEntriesContents | nornir_table_inventory/plugins/inventory/table.py:195-197 | Its contents are those of the plain assignment map: last write wins |
| Dicts.FromEntriesOrder | nornir_table_inventory/plugins/inventory/table.py:195-197 | Its keys are listed in the order of their first assignment |
| Dicts.FromEntriesOrderPair | nornir_table_inventory/plugins/inventory/table.py:195-197 | Of two listed keys, the one listed first was first assigned earlier |
| Dicts.LastIndex | nornir_table_inventory/plugins/inventory/table.py:195-197 | The value kept under a key is that of its last assignment, which no later entry overrides |
| Fields.GetData | nornir_table_inventory/plugins/inventory/table.py:41-55 | The loop of `_get_data` builds exactly the data map of the specification `DataOf` |
| Fields.DataOfSpec | nornir_table_inventory/plugins/inventory/table.py:45-55 | Data keys are exactly the columns that are not identity columns, not `groups` for a defaults row, and not netmiko columns; each holds its cell, or None when the cell is empty |
| Fields.DataIsNormalised | nornir_table_inventory/plugins/inventory/table.py:54 | A data value is never NaN or "", and it is None exactly when the cell was empty |
| Connection.GetConnectionOptions | nornir_table_inventory/plugins/inventory/table.py:28-39 | One ConnectionOptions per connection name, each field read from the raw dict with None for a missing one |
| Connection.Coerce | nornir_table_inventory/plugins/inventory/table.py:84-96 | A netmiko value's coercion fails only with a conversion error |
| Connection.CoerceAll | nornir_table_inventory/plugins/inventory/table.py:80-96 | Coercing the netmiko columns succeeds iff each coerces; names and order are kept and each value is coerced by its stripped name |
| Connection.GetHostNetmikoOptions | nornir_table_inventory/plugins/inventory/table.py:58-102 | The collection and wrapping return exactly `NetmikoOptionsOf(row)`, the conversion error included |
| Connection.CollectExtras | nornir_table_inventory/plugins/inventory/table.py:80-96 | The loop over the row's items returns exactly `ExtrasOf(row)`, aborting on the first column that does not coerce |
| Connection.CoerceColumn | nornir_table_inventory/plugins/inventory/table.py:84-96 | The `if`/`elif`/`else` on the stripped name computes exactly `Coerce` |
| Connection.ExtrasOfSnoc | nornir_table_inventory/plugins/inventory/table.py:80-96 | One more column: a netmiko column overwrites its stripped name with its coerced value, or aborts; another column changes nothing |
| Connection.ExtrasOfOk | nornir_table_inventory/plugins/inventory/table.py:84-85 | The options are collected iff every netmiko column's value coerces |
| Connection.ExtrasOfPrefix | nornir_table_inventory/plugins/inventory/table.py:84-85 | A column that fails to coerce aborts the collection whatever follows it |
| Connection.ExtrasOfKeys | nornir_table_inventory/plugins/inventory/table.py:80-82 | The collected option names are exactly the stripped names of the netmiko columns |
| Connection.ExtrasOfKeySource | nornir_table_inventory/plugins/inventory/table.py:80-82 | Each collected option name is the stripped name of some netmiko column |
| Connection.ExtrasOfHasKey | nornir_table_inventory/plugins/inventory/table.py:80-82 | The stripped name of every netmiko column is collected |
| Connection.ExtrasOfValueAt | nornir_table_inventory/plugins/inventory/table.py:80-96 | An option holds the coerced value of the last netmiko column with that stripped name |
| Connection.FastCliCoercion | nornir_table_inventory/plugins/inventory/table.py:86-90 | fast_cli is False exactly for None, False, 0 and strings lowering to "0", "false" or "none"; everything else, NaN included, gives True |
| Connection.FastCliExamples | nornir_table_inventory/plugins/inventory/table.py:86-90 | An empty string gives True; "FALSE" gives False |
| Connection.TimeoutCoercion | nornir_table_inventory/plugins/inventory/table.py:84-85 | The six timeout options take `int(v)`: `str(n)` and the int n convert to n; NaN, None, "" and "fast" abort |
| Connection.TimeoutDecimalStrings | nornir_table_inventory/plugins/inventory/table.py:84-85 | Every string of decimal digits, with or without one leading `+` or `-`, converts to its value, so "022" and "+22" give 22 |
| Connection.TimeoutRejectsText | nornir_table_inventory/plugins/inventory/table.py:84-85 | Every other string aborts the load with a conversion error: "", and any string with a non-digit that is not a leading sign |
| Connection.OtherCoercion | nornir_table_inventory/plugins/inventory/table.py:91-96 | Any other option keeps its value, an empty one becoming None |
| Connection.StripLeadingMarker | nornir_table_inventory/plugins/inventory/table.py:81-82 | `netmiko_timeout` is a netmiko column named `timeout` |
| Connection.MarkerAnywhere | nornir_table_inventory/plugins/inventory/table.py:81 | A column holding the marker anywhere in its name is a netmiko column |
| Connection.StripLeading | nornir_table_inventory/plugins/inventory/table.py:82 | A leading marker is removed and the rest of the name is stripped in turn |
| Connection.StripAround | nornir_table_inventory/plugins/inventory/table.py:82 | Every copy of the marker is removed: for all names, a marker splits the name into two sides that are stripped on their own |
| Connection.StripEveryMarker | nornir_table_inventory/plugins/inventory/table.py:81-82 | Both copies in `netmiko_netmiko_timeout` are removed; `netmiko` alone is not a netmiko column |
| Connection.NetmikoOptionsShape | nornir_table_inventory/plugins/inventory/table.py:98-102 | No netmiko column gives {}; otherwise exactly one `netmiko` entry with None overrides and the coerced extras |
| Records.CoerceName | nornir_table_inventory/plugins/inventory/table.py:116-117 | A truthy name becomes its non-empty `str()`; a falsy one is kept |
| Records.CoerceText | nornir_table_inventory/plugins/inventory/table.py:118-127 | A truthy non-empty field becomes its non-empty `str()`, NaN becomes None, a falsy one is kept; never NaN |
| Records.CoercePort | nornir_table_inventory/plugins/inventory/table.py:120-121 | Fails iff the port is truthy, non-empty and refused by `int()`; otherwise int of it, None for NaN, falsy kept |
| Records.ParentNames | nornir_table_inventory/plugins/inventory/table.py:128-129 | A falsy groups cell gives no names; a truthy non-string fails; a string is split |
| Records.ElementOf | nornir_table_inventory/plugins/inventory/table.py:104-142 | The built element has the requested kind, the given defaults, unresolved group names and the row's data; it fails only by conversion or a non-string groups |
| Records.GetInventoryElement | nornir_table_inventory/plugins/inventory/table.py:104-142 | The step-by-step coercion returns exactly `ElementOf` |
| Records.TextStep | nornir_table_inventory/plugins/inventory/table.py:118-127 | `if x: x = str(x) if not _empty(x) else None` computes exactly `CoerceText` |
| Records.PortStep | nornir_table_inventory/plugins/inventory/table.py:120-121 | `if port: port = int(port) if not _empty(port) else None` computes exactly `CoercePort`, the conversion error included |
| Records.DefaultsOf | nornir_table_inventory/plugins/inventory/table.py:144-173 | The defaults hold the row's data; they fail only with a conversion error |
| Records.GetDefaults | nornir_table_inventory/plugins/inventory/table.py:144-173 | The step-by-step construction returns exactly `DefaultsOf` |
| Records.CoercionIdempotent | nornir_table_inventory/plugins/inventory/table.py:116-127 | Coercing a coerced identity field again changes nothing |
| Records.PortCoercion | nornir_table_inventory/plugins/inventory/table.py:120-121 | `str(n)` and the int n become n; "" and None stay; NaN becomes None |
| Records.PortStrings | nornir_table_inventory/plugins/inventory/table.py:120-121 | Every string of decimal digits, unsigned or with one leading `+` or `-`, becomes its value ("022" gives 22); every other non-empty string aborts the load |
| Records.PortDefault | nornir_table_inventory/plugins/inventory/table.py:110 | The port is 22 when the row has no port column, and otherwise the coerced port cell |
| Records.GroupsSplit | nornir_table_inventory/plugins/inventory/table.py:128-129 | A groups string gives Count(',')+1 names, untrimmed, in order, comma-free, joining back to the string |
| Records.ElementFields | nornir_table_inventory/plugins/inventory/table.py:108-142 | Success iff port, groups and netmiko options succeed, with port errors first, then groups; every field is the coercion of its cell |
| Records.DefaultsKeepRawCells | nornir_table_inventory/plugins/inventory/table.py:165-170 | Defaults hold the raw identity cells, with a missing port giving None and never 22 |
| Inventory.NamedElement | nornir_table_inventory/plugins/inventory/table.py:196-200 | A row without `name` raises the key error, an empty name aborts, otherwise the element is stored under the raw name |
| Inventory.TableOf | nornir_table_inventory/plugins/inventory/table.py:194-200 | The insertion loop fills a well-formed dictionary |
| Inventory.ResolveNames | nornir_table_inventory/plugins/inventory/table.py:203 | Names resolve iff each is a key of the dictionary; the references keep order and length |
| Inventory.ResolveElement | nornir_table_inventory/plugins/inventory/table.py:203 | Only the element's groups change, from names to their references |
| Inventory.ResolveOrder | nornir_table_inventory/plugins/inventory/table.py:202-203 | The second pass succeeds iff each listed element resolves, and it keeps the keys |
| Inventory.ResolveOrderValues | nornir_table_inventory/plugins/inventory/table.py:202-203 | Each listed key ends up holding the resolved copy of its element |
| Inventory.ResolveOrderKeeps | nornir_table_inventory/plugins/inventory/table.py:202-203 | A key the pass does not list keeps its element |
| Inventory.ResolveTable | nornir_table_inventory/plugins/inventory/table.py:202-203 | The second pass keeps the dictionary well formed and its order unchanged |
| Inventory.TableOfContents | nornir_table_inventory/plugins/inventory/table.py:195-200 | Each row's name is a key; the element under a name comes from the last row with that name |
| Inventory.LastRow | nornir_table_inventory/plugins/inventory/table.py:195-197 | The element under a name is the one built from the last row with that name |
| Inventory.BuildAllAt | nornir_table_inventory/plugins/inventory/table.py:195-197 | Each row of a successful insertion loop has a present, non-empty name and is stored under it with the element built from it |
| Inventory.RowStored | nornir_table_inventory/plugins/inventory/table.py:195-197 | Every row of a successful insertion loop is a key of the dictionary |
| Inventory.TableOfUnresolved | nornir_table_inventory/plugins/inventory/table.py:197 | Freshly inserted elements hold group names |
| Inventory.ResolveNamesFirstMissing | nornir_table_inventory/plugins/inventory/table.py:203 | The resolution fails with the first name missing from the dictionary |
| Inventory.ResolveOrderFirstError | nornir_table_inventory/plugins/inventory/table.py:202-203 | The second pass fails with the error of the first element that does not resolve |
| Inventory.ResolveGroupNames | nornir_table_inventory/plugins/inventory/table.py:203 | The comprehension, name by name, returns exactly `ResolveNames` |
| Inventory.ResolveParents | nornir_table_inventory/plugins/inventory/table.py:202-203 | The second pass, element by element, returns exactly `ResolveTable` |
| Inventory.InsertRows | nornir_table_inventory/plugins/inventory/table.py:195-200 | The insertion loop, row by row, returns exactly `TableOf` |
| Inventory.InsertRow | nornir_table_inventory/plugins/inventory/table.py:195-200 | One row: a missing `name` raises the key error, an empty one aborts, otherwise the element and its name; exactly `NamedElement` |
| Inventory.ResolveTableContents | nornir_table_inventory/plugins/inventory/table.py:202-203 | After the second pass the keys are the same and each element is its resolved copy |
| Inventory.ResolveTableAt | nornir_table_inventory/plugins/inventory/table.py:202-203 | The element under a key after the second pass is the resolved copy of the one inserted |
| Inventory.ResolvedRefs | nornir_table_inventory/plugins/inventory/table.py:203 | A resolved element has one reference per name, in order, each a key of the dictionary |
| Inventory.AssembleSteps | nornir_table_inventory/plugins/inventory/table.py:186-215 | A successful load built its defaults, its groups (none without group rows) and its hosts resolved against the groups' keys |
| Inventory.AssembleParts | nornir_table_inventory/plugins/inventory/table.py:186-215 | A successful load is its defaults, its groups and its hosts, each built successfully |
| Inventory.HostsOfSteps | nornir_table_inventory/plugins/inventory/table.py:205-213 | Successful hosts were inserted without error and then resolved against the groups' keys |
| Inventory.LoadedTable | nornir_table_inventory/plugins/inventory/table.py:194-213 | Every row has a present, non-empty name and is stored under it; the element under a name is the last such row's, resolved |
| Inventory.LoadedReferences | nornir_table_inventory/plugins/inventory/table.py:194-213 | Every reference of every host and group is a key of the Groups dictionary |
| Inventory.LoadedHostsAndGroups | nornir_table_inventory/plugins/inventory/table.py:194-213 | Hosts and groups of a successful load are filled from their rows with last-write-wins and resolved against the groups |
| Inventory.NoGroupRows | nornir_table_inventory/plugins/inventory/table.py:205-213 | Without group rows the groups are empty and every host has no group references |
| Inventory.LoadedDefaults | nornir_table_inventory/plugins/inventory/table.py:187-207 | The inventory defaults come from the defaults row or are `Defaults()`, and every host and group holds them |
| Inventory.TableOfOrder | nornir_table_inventory/plugins/inventory/table.py:195-197 | The dictionary lists names in the order of their first rows |
| Inventory.EarlierRow | nornir_table_inventory/plugins/inventory/table.py:195-197 | A row named by a later-listed key has an earlier row named by each earlier-listed key |
| Inventory.LoadedOrder | nornir_table_inventory/plugins/inventory/table.py:194-213 | Hosts and groups are well formed and keep the order of their first rows |
| Inventory.BadNameAborts | nornir_table_inventory/plugins/inventory/table.py:194-210 | A host or group row with a missing or empty name makes the load fail |
| Inventory.FlatDataInventory.constructor | nornir_table_inventory/plugins/inventory/table.py:176-184 | The three row lists are stored as given |
| Inventory.FlatDataInventory.Load | nornir_table_inventory/plugins/inventory/table.py:186-215 | `load` returns exactly `Assemble` of the stored rows: the inventory or the first error raised |

## Left out

- The CSV and Excel readers (`CSVInventory`, `ExcelInventory`) are file I/O and are not modelled. The model takes their output, a list of rows plus one defaults row, as parameters. An empty defaults row stands for "no defaults".
- The `logger.error` calls before the two exceptions are diagnostics and are left out.
- Host, Group, Defaults, ConnectionOptions, ParentGroups and Inventory are Nornir classes. They are records that hold their constructor arguments. The one behaviour kept is `groups or ParentGroups()`.
- Object identity is not modelled. A resolved group reference is the group's key, not the Group object. The defaults are a value copied into every element rather than one shared object.
- Inheritance resolution at use time (falling back to groups and defaults) happens outside this code and is left out.
- Floats are modelled only as NaN. `str()` of a float other than NaN and `int()` of a float are not modelled.
- `int()` parsing covers an optional ASCII sign followed by ASCII decimal digits, in base 10 as `int(v)` uses. Python's `int()` also accepts surrounding whitespace, `_` separators between digits and non-ASCII Unicode decimal digits. The model rejects these with a conversion error.
- Python treats `True` and `1` (and `False` and `0`) as the same dict key. The model keys Hosts and Groups by the raw `name` cell, so `Bool(true)` and `Int(1)` are two keys. In Python, `hosts_data=[{"name": True}, {"name": 1}]` gives one host: the key stays `True` and the element comes from the second row. The model gives two hosts.
- Column names are strings in the model (`Row` has `string` keys). A non-string column name is not modelled. Examples are the `None` key that `csv.DictReader` gives the extra fields of an over-long row, or a numeric spreadsheet header. For such a column, `netmiko_prefix not in k` (table.py:53) and `netmiko_prefix in k` (table.py:81) raise `TypeError` and abort the load.
- `str.lower` is modelled on ASCII letters only.
- The data and extras dictionaries are plain maps, so their key order is not tracked. The Hosts and Groups dictionaries do keep insertion order.
- The Excel reader can pass a list where a defaults dict is expected. That path belongs to the reader and is not modelled.
- The `isDefaults=True` branch of `_get_data` is modelled and proved, but `load` never uses it. `_get_defaults` calls `_get_data(data)` with the default `False`.
