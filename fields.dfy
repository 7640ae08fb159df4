/**
 * Rows as the plugin receives them, and the field classifier `_get_data`
 * (nornir_table_inventory/plugins/inventory/table.py): everything that is not
 * an identity column and not a netmiko column becomes free-form host data.
 */
module Fields {
  import opened Wrappers
  import opened Text
  import opened Cells
  import opened Dicts

  /** A raw row: the `(column, cell)` items of one record, in column order. */
  type Row = seq<Entry<string, Cell>>

  /** The marker that sends a column to the netmiko connection options. */
  const Marker: string := "netmiko_"

  /** The columns `_get_data` never copies into `data`. */
  const IdentityFields: seq<string> := ["name", "hostname", "port", "username", "password", "platform"]

  /** `data.get(k)`: the cell, or None when the column is absent. */
  function Get(row: Row, k: string): Cell {
    match Lookup(row, k)
    case Some(c) => c
    case None => Null
  }

  /** `data.get(k, default)`. */
  function GetOr(row: Row, k: string, default: Cell): Cell {
    match Lookup(row, k)
    case Some(c) => c
    case None => default
  }

  /** Whether `_get_data` keeps column `k`; `groups` is dropped only for a defaults row. */
  predicate IsDataKey(k: string, isDefaults: bool) {
    && k !in IdentityFields
    && !(isDefaults && k == "groups")
    && !Contains(k, Marker)
  }

  /** The kept columns, in row order, with empty cells replaced by None. */
  function DataFields(row: Row, isDefaults: bool): Row
    decreases |row|
  {
    if row == [] then []
    else
      var f := row[|row| - 1];
      DataFields(row[..|row| - 1], isDefaults)
        + if IsDataKey(f.key, isDefaults) then [Entry(f.key, NullIfEmpty(f.value))] else []
  }

  /** The `data` dictionary `_get_data` returns. */
  function DataOf(row: Row, isDefaults: bool): map<string, Cell> {
    ToMap(DataFields(row, isDefaults))
  }

  /** `_get_data`: one pass over the row's items, filling the result dictionary. */
  method GetData(data: Row, isDefaults: bool) returns (respData: map<string, Cell>)
    ensures respData == DataOf(data, isDefaults)
  {
    var noDataFields := IdentityFields;
    if isDefaults {
      noDataFields := noDataFields + ["groups"];
    }
    respData := map[];
    for i := 0 to |data|
      invariant respData == DataOf(data[..i], isDefaults)
    {
      var k, v := data[i].key, data[i].value;
      assert data[..i + 1][..i] == data[..i];
      assert (k !in noDataFields && !Contains(k, Marker)) == IsDataKey(k, isDefaults);
      if k !in noDataFields && !Contains(k, Marker) {
        Snoc(DataFields(data[..i], isDefaults), Entry(k, NullIfEmpty(v)));
        respData := respData[k := if Empty(v) then Null else v];
      } else {
        assert DataFields(data[..i + 1], isDefaults) == DataFields(data[..i], isDefaults);
      }
    }
    assert data[..|data|] == data;
  }

  /**
   * What `_get_data` returns: exactly the row's columns that are neither identity
   * columns, nor (for defaults) `groups`, nor netmiko columns; each holding its
   * cell, or None when the cell is empty. Nothing else is added.
   */
  lemma {:induction false} DataOfSpec(row: Row, isDefaults: bool)
    ensures forall k :: k in DataOf(row, isDefaults) <==> k in Keys(row) && IsDataKey(k, isDefaults)
    ensures forall k :: k in DataOf(row, isDefaults) ==> DataOf(row, isDefaults)[k] == NullIfEmpty(Get(row, k))
    decreases |row|
  {
    if row != [] {
      var init, f := row[..|row| - 1], row[|row| - 1];
      DataOfSpec(init, isDefaults);
      if IsDataKey(f.key, isDefaults) {
        Snoc(DataFields(init, isDefaults), Entry(f.key, NullIfEmpty(f.value)));
      } else {
        assert DataFields(row, isDefaults) == DataFields(init, isDefaults);
      }
    }
  }

  /** A stored data value is never NaN or "": emptiness is always normalised to None. */
  lemma DataIsNormalised(row: Row, isDefaults: bool, k: string)
    requires k in DataOf(row, isDefaults)
    ensures DataOf(row, isDefaults)[k] != NaN && DataOf(row, isDefaults)[k] != Str("")
    ensures Empty(Get(row, k)) <==> DataOf(row, isDefaults)[k] == Null
  {
    DataOfSpec(row, isDefaults);
  }
}
