/**
 * The connection-option builder: `_get_host_netmiko_options` and
 * `_get_connection_options` (nornir_table_inventory/plugins/inventory/table.py).
 * Every column whose name contains `netmiko_` loses that marker and becomes an
 * entry of the `extras` of a single `netmiko` connection, its value coerced by
 * the stripped name.
 */
module Connection {
  import opened Wrappers
  import opened Text
  import opened Cells
  import opened Dicts
  import opened Fields

  /** Nornir's ConnectionOptions record, holding its constructor arguments. */
  datatype ConnectionOptions = ConnectionOptions(
    hostname: Cell, port: Cell, username: Cell, password: Cell, platform: Cell,
    extras: Option<map<string, Cell>>)

  /**
   * One value of the dictionary `_get_connection_options` receives: a dict
   * holding some of hostname, port, username, password and platform (`params`)
   * and perhaps an `extras` dict.
   */
  datatype RawConnection = RawConnection(params: map<string, Cell>, extras: Option<map<string, Cell>>)

  /** `c.get(k)` on the raw connection dict. */
  function Param(params: map<string, Cell>, k: string): Cell {
    if k in params then params[k] else Null
  }

  function ToConnectionOptions(c: RawConnection): ConnectionOptions {
    ConnectionOptions(
      Param(c.params, "hostname"), Param(c.params, "port"), Param(c.params, "username"),
      Param(c.params, "password"), Param(c.params, "platform"), c.extras)
  }

  /**
   * `_get_connection_options`: one ConnectionOptions per connection name, every
   * field taken from the raw dict, None where the raw dict lacks it.
   */
  method GetConnectionOptions(data: map<string, RawConnection>) returns (cp: map<string, ConnectionOptions>)
    ensures cp.Keys == data.Keys
    ensures forall cn :: cn in data ==> cp[cn] == ToConnectionOptions(data[cn])
  {
    cp := map[];
    var todo := data.Keys;
    while todo != {}
      invariant todo <= data.Keys
      invariant cp.Keys == data.Keys - todo
      invariant forall cn :: cn in cp ==> cp[cn] == ToConnectionOptions(data[cn])
      decreases |todo|
    {
      var cn :| cn in todo;
      cp := cp[cn := ToConnectionOptions(data[cn])];
      todo := todo - {cn};
    }
  }

  /** Stripped names whose value goes through `int()`. */
  const IntKeys: seq<string> :=
    ["timeout", "conn_timeout", "auth_timeout", "banner_timeout", "blocking_timeout", "session_timeout"]

  /** Stripped names whose value becomes a bool. */
  const BoolKeys: seq<string> := ["fast_cli"]

  /** Lower-cased spellings that make a bool option False. */
  const FalseWords: seq<string> := ["0", "false", "none"]

  predicate IsNetmikoKey(k: string) {
    Contains(k, Marker)
  }

  /** `k.replace('netmiko_', '')`. */
  function Strip(k: string): string {
    ReplaceAll(k, Marker)
  }

  /** The coercion applied to a netmiko column, chosen by its stripped name. */
  function Coerce(key: string, v: Cell): (r: Result<Cell, LoadError>)
    ensures r.Err? ==> r.error == ConversionError
  {
    if key in IntKeys then
      var n :- PyInt(v);
      Ok(Int(n))
    else if key in BoolKeys then
      Ok(Bool(Lower(PyStr(v)) !in FalseWords))
    else
      Ok(NullIfEmpty(v))
  }

  /** The netmiko columns of a row, in row order, renamed to their stripped names. */
  function NetmikoFields(row: Row): Row
    decreases |row|
  {
    if row == [] then []
    else
      var f := row[|row| - 1];
      NetmikoFields(row[..|row| - 1]) + if IsNetmikoKey(f.key) then [Entry(Strip(f.key), f.value)] else []
  }

  /**
   * Coercing a list of columns one by one: it succeeds when every column coerces,
   * keeps names and order, and fails with the conversion error otherwise.
   */
  function CoerceAll(fields: Row): (r: Result<Row, LoadError>)
    ensures r.Ok? <==> forall i :: 0 <= i < |fields| ==> Coerce(fields[i].key, fields[i].value).Ok?
    ensures r.Ok? ==> |r.value| == |fields| && forall i :: 0 <= i < |fields| ==>
      r.value[i] == Entry(fields[i].key, Coerce(fields[i].key, fields[i].value).value)
    ensures r.Err? ==> r.error == ConversionError
    decreases |fields|
  {
    if fields == [] then Ok([])
    else
      var f := fields[|fields| - 1];
      var prev :- CoerceAll(fields[..|fields| - 1]);
      var v :- Coerce(f.key, f.value);
      Ok(prev + [Entry(f.key, v)])
  }

  /** The `extra_opts` dictionary the loop of `_get_host_netmiko_options` fills, or the error it raises. */
  function ExtrasOf(row: Row): Result<map<string, Cell>, LoadError> {
    var fields :- CoerceAll(NetmikoFields(row));
    Ok(ToMap(fields))
  }

  function NetmikoEntry(extras: map<string, Cell>): ConnectionOptions {
    ToConnectionOptions(RawConnection(map[], Some(extras)))
  }

  /** What `_get_host_netmiko_options` returns: no entry at all, or the single `netmiko` entry. */
  function NetmikoOptionsOf(row: Row): Result<map<string, ConnectionOptions>, LoadError> {
    var extras :- ExtrasOf(row);
    if extras == map[] then Ok(map[]) else Ok(map["netmiko" := NetmikoEntry(extras)])
  }

  /** The `if`/`elif`/`else` on the stripped name: `int(v)`, the bool test, or `None` for an empty value. */
  method CoerceColumn(newK: string, v: Cell) returns (r: Result<Cell, LoadError>)
    ensures r == Coerce(newK, v)
  {
    if newK in IntKeys {
      var n := PyInt(v);
      if n.Err? {
        return Err(ConversionError);
      }
      r := Ok(Int(n.value));
    } else if newK in BoolKeys {
      r := Ok(Bool(Lower(PyStr(v)) !in FalseWords));
    } else {
      r := Ok(if Empty(v) then Null else v);
    }
  }

  /** The loop of `_get_host_netmiko_options`: `extra_opts[new_k] = ...` for every netmiko column. */
  method CollectExtras(data: Row) returns (r: Result<map<string, Cell>, LoadError>)
    ensures r == ExtrasOf(data)
  {
    var extraOpts: map<string, Cell> := map[];
    for i := 0 to |data|
      invariant ExtrasOf(data[..i]).Ok?
      invariant extraOpts == ExtrasOf(data[..i]).value
    {
      var k, v := data[i].key, data[i].value;
      ExtrasOfSnoc(data[..i + 1]);
      assert data[..i + 1][..i] == data[..i];
      if Contains(k, Marker) {
        var newK := ReplaceAll(k, Marker);
        var c := CoerceColumn(newK, v);
        if c.Err? {
          ExtrasOfPrefix(data, i + 1);
          return Err(ConversionError);
        }
        extraOpts := extraOpts[newK := c.value];
      }
    }
    assert data[..|data|] == data;
    r := Ok(extraOpts);
  }

  /** `_get_host_netmiko_options`: the options collected, then `{}` or the single `netmiko` entry. */
  method GetHostNetmikoOptions(data: Row) returns (r: Result<map<string, ConnectionOptions>, LoadError>)
    ensures r == NetmikoOptionsOf(data)
  {
    var extraOpts := CollectExtras(data);
    if extraOpts.Err? {
      return Err(extraOpts.error);
    }
    if extraOpts.value != map[] {
      var cp := GetConnectionOptions(map["netmiko" := RawConnection(map[], Some(extraOpts.value))]);
      assert cp.Keys == {"netmiko"} && cp["netmiko"] == NetmikoEntry(extraOpts.value);
      assert cp == map["netmiko" := NetmikoEntry(extraOpts.value)];
      r := Ok(cp);
    } else {
      r := Ok(map[]);
    }
  }

  /** One more column: a netmiko column is coerced and overwrites its stripped name; any other is ignored. */
  lemma ExtrasOfSnoc(row: Row)
    requires row != []
    ensures var init, f := row[..|row| - 1], row[|row| - 1];
      ExtrasOf(row) ==
        if !IsNetmikoKey(f.key) then ExtrasOf(init)
        else if ExtrasOf(init).Err? then ExtrasOf(init)
        else if Coerce(Strip(f.key), f.value).Err? then Err(ConversionError)
        else Ok(ExtrasOf(init).value[Strip(f.key) := Coerce(Strip(f.key), f.value).value])
  {
    var init, f := row[..|row| - 1], row[|row| - 1];
    var fs := NetmikoFields(init);
    if IsNetmikoKey(f.key) {
      var e := Entry(Strip(f.key), f.value);
      assert NetmikoFields(row) == fs + [e];
      assert (fs + [e])[..|fs|] == fs;
      if CoerceAll(fs).Ok? && Coerce(e.key, e.value).Ok? {
        Snoc(CoerceAll(fs).value, Entry(e.key, Coerce(e.key, e.value).value));
      }
    } else {
      assert NetmikoFields(row) == fs;
    }
  }

  /** A column that fails to coerce aborts the collection: later columns change nothing. */
  lemma {:induction false} ExtrasOfPrefix(row: Row, n: nat)
    requires n <= |row|
    ensures ExtrasOf(row[..n]).Err? ==> ExtrasOf(row) == ExtrasOf(row[..n])
    decreases |row| - n
  {
    if n < |row| {
      ExtrasOfSnoc(row[..n + 1]);
      assert row[..n + 1][..n] == row[..n];
      ExtrasOfPrefix(row, n + 1);
    } else {
      assert row[..n] == row;
    }
  }

  /** Every netmiko column of the row holds a value its coercion accepts. */
  predicate AllCoerce(row: Row) {
    forall i :: 0 <= i < |row| && IsNetmikoKey(row[i].key) ==> Coerce(Strip(row[i].key), row[i].value).Ok?
  }

  /** A netmiko column that does not coerce makes the whole collection fail, and only such a column does. */
  lemma {:induction false} ExtrasOfOk(row: Row)
    ensures ExtrasOf(row).Ok? <==> AllCoerce(row)
    decreases |row|
  {
    if row != [] {
      var init, f := row[..|row| - 1], row[|row| - 1];
      ExtrasOfOk(init);
      ExtrasOfSnoc(row);
      AllCoerceSnoc(row);
    }
  }

  lemma AllCoerceSnoc(row: Row)
    requires row != []
    ensures var init, f := row[..|row| - 1], row[|row| - 1];
      AllCoerce(row) <==> AllCoerce(init) && (IsNetmikoKey(f.key) ==> Coerce(Strip(f.key), f.value).Ok?)
  {
    var init := row[..|row| - 1];
    assert forall i :: 0 <= i < |init| ==> row[i] == init[i];
  }

  /** The collected options are named exactly by the stripped names of the netmiko columns. */
  lemma ExtrasOfKeys(row: Row)
    requires ExtrasOf(row).Ok?
    ensures forall nk :: nk in ExtrasOf(row).value <==>
      (exists i :: 0 <= i < |row| && IsNetmikoKey(row[i].key) && Strip(row[i].key) == nk)
  {
    forall nk
      ensures nk in ExtrasOf(row).value <==>
        (exists i :: 0 <= i < |row| && IsNetmikoKey(row[i].key) && Strip(row[i].key) == nk)
    {
      if nk in ExtrasOf(row).value {
        var i := ExtrasOfKeySource(row, nk);
      }
      if exists i :: 0 <= i < |row| && IsNetmikoKey(row[i].key) && Strip(row[i].key) == nk {
        var i :| 0 <= i < |row| && IsNetmikoKey(row[i].key) && Strip(row[i].key) == nk;
        ExtrasOfHasKey(row, i);
      }
    }
  }

  /** Each collected option comes from a netmiko column with that stripped name. */
  lemma {:induction false} ExtrasOfKeySource(row: Row, nk: string) returns (i: nat)
    requires ExtrasOf(row).Ok? && nk in ExtrasOf(row).value
    ensures i < |row| && IsNetmikoKey(row[i].key) && Strip(row[i].key) == nk
    decreases |row|
  {
    var init, f := row[..|row| - 1], row[|row| - 1];
    ExtrasOfSnoc(row);
    if IsNetmikoKey(f.key) && Strip(f.key) == nk {
      i := |row| - 1;
    } else {
      i := ExtrasOfKeySource(init, nk);
      assert init[i] == row[i];
    }
  }

  /** Each netmiko column's stripped name is collected. */
  lemma {:induction false} ExtrasOfHasKey(row: Row, i: nat)
    requires ExtrasOf(row).Ok? && i < |row| && IsNetmikoKey(row[i].key)
    ensures Strip(row[i].key) in ExtrasOf(row).value
    decreases |row|
  {
    var init := row[..|row| - 1];
    ExtrasOfSnoc(row);
    if i < |row| - 1 {
      assert init[i] == row[i];
      ExtrasOfHasKey(init, i);
    }
  }

  /**
   * A netmiko column that no later netmiko column overrides supplies its option:
   * the stripped name is collected and holds that column's coerced value (last write wins).
   */
  lemma {:induction false} ExtrasOfValueAt(row: Row, i: nat)
    requires ExtrasOf(row).Ok? && i < |row| && IsNetmikoKey(row[i].key)
    requires forall j :: i < j < |row| && IsNetmikoKey(row[j].key) ==> Strip(row[j].key) != Strip(row[i].key)
    ensures Strip(row[i].key) in ExtrasOf(row).value
    ensures Ok(ExtrasOf(row).value[Strip(row[i].key)]) == Coerce(Strip(row[i].key), row[i].value)
    decreases |row|
  {
    var init := row[..|row| - 1];
    ExtrasOfSnoc(row);
    if i < |row| - 1 {
      assert init[i] == row[i];
      forall j | i < j < |init| && IsNetmikoKey(init[j].key)
        ensures Strip(init[j].key) != Strip(init[i].key)
      {
        assert init[j] == row[j];
      }
      ExtrasOfValueAt(init, i);
    }
  }

  /**
   * The bool option: False exactly when `str(v).lower()` is "0", "false" or
   * "none" — that is, for None, False, 0 and such strings in any case — and
   * True for everything else, the empty string and NaN included.
   */
  lemma FastCliCoercion(v: Cell)
    ensures Coerce("fast_cli", v) ==
      Ok(Bool(!(v == Null || v == Bool(false) || v == Int(0) || (v.Str? && Lower(v.s) in FalseWords))))
  {
    match v
    case Int(i) =>
      IntToStringShape(i);
      var s := IntToString(i);
      assert s != "false" && s != "none" by {
        assert s[0] != 'f' && s[0] != 'n';
      }
    case Bool(b) =>
      if b {
        assert Lower("True") == "true";
      } else {
        assert Lower("False") == "false";
      }
    case NaN =>
      assert Lower("nan") == "nan";
    case Null =>
      assert Lower("None") == "none";
    case Str(s) =>
  }

  /** An empty string counts as True; "FALSE" counts as False, whatever its case. */
  lemma FastCliExamples()
    ensures Coerce("fast_cli", Str("")) == Ok(Bool(true))
    ensures Coerce("fast_cli", Str("FALSE")) == Ok(Bool(false))
  {
    assert Lower("") == "";
    assert Lower("FALSE") == "false";
  }

  /**
   * The six timeout options go through `int()`: a decimal string or an int gives
   * that integer, while NaN, None and a non-numeric string abort the load.
   */
  lemma TimeoutCoercion(key: string, n: int)
    requires key in IntKeys
    ensures Coerce(key, Str(IntToString(n))) == Ok(Int(n))
    ensures Coerce(key, Int(n)) == Ok(Int(n))
    ensures Coerce(key, NaN) == Err(ConversionError)
    ensures Coerce(key, Null) == Err(ConversionError)
    ensures Coerce(key, Str("")) == Err(ConversionError)
    ensures Coerce(key, Str("fast")) == Err(ConversionError)
  {
    PyIntOfDecimal(n);
    assert !IsDigit("fast"[0]);
  }

  /**
   * Every string spelling of a decimal integer converts, leading zeros and a
   * `+` or `-` sign included: "022" and "+22" give 22.
   */
  lemma {:induction false} TimeoutDecimalStrings(key: string, s: string)
    requires key in IntKeys
    ensures IsDigits(s) ==> Coerce(key, Str(s)) == Ok(Int(DigitsValue(s)))
    ensures |s| > 1 && s[0] == '+' && IsDigits(s[1..]) ==> Coerce(key, Str(s)) == Ok(Int(DigitsValue(s[1..])))
    ensures |s| > 1 && s[0] == '-' && IsDigits(s[1..]) ==> Coerce(key, Str(s)) == Ok(Int(-(DigitsValue(s[1..]) as int)))
  {
    ParseIntDecimal(s);
  }


  /** Every other string aborts the load: the empty string, and any string with a non-digit other than a leading sign. */
  lemma TimeoutRejectsText(key: string, s: string)
    requires key in IntKeys
    ensures (|s| == 0 || exists i :: 0 <= i < |s| && !IsDigit(s[i]) && !(i == 0 && (s[0] == '-' || s[0] == '+') && |s| > 1))
      ==> Coerce(key, Str(s)) == Err(ConversionError)
  {
    if ParseInt(s).Some? {
      ParseIntNeedsDigits(s);
    }
  }

  /** Any other option keeps its value, with an empty one turned into None. */
  lemma OtherCoercion(key: string, v: Cell)
    requires key !in IntKeys && key !in BoolKeys
    ensures Coerce(key, v) == Ok(if Empty(v) then Null else v)
  {
  }

  /** A column named with the marker in front loses the marker. */
  lemma StripLeadingMarker()
    ensures IsNetmikoKey("netmiko_timeout") && Strip("netmiko_timeout") == "timeout"
  {
    assert Marker <= "netmiko_timeout";
    assert "netmiko_timeout"[8..] == "timeout";
    ContainsNeedsRoom("timeout", Marker);
    ReplaceAllWithoutMatch("timeout", Marker);
  }

  /** The marker is found anywhere in a column name, not only at its start. */
  lemma {:induction false} MarkerAnywhere(pre: string, rest: string)
    ensures IsNetmikoKey(pre + Marker + rest)
    decreases |pre|
  {
    var k := pre + Marker + rest;
    if pre == [] {
      assert k == Marker + rest;
    } else {
      assert k[1..] == pre[1..] + Marker + rest;
      MarkerAnywhere(pre[1..], rest);
    }
  }

  /** A leading marker is dropped and the rest of the name is stripped in turn. */
  lemma StripLeading(rest: string)
    ensures Strip(Marker + rest) == Strip(rest)
  {
    assert (Marker + rest)[|Marker|..] == rest;
  }

  /**
   * Every copy of the marker is removed: the marker splits a name into the text
   * before and after it, and each side is stripped on its own.
   */
  lemma {:induction false} StripAround(a: string, b: string)
    ensures Strip(a + Marker + b) == Strip(a) + Strip(b)
    decreases |a|
  {
    var k := a + Marker + b;
    if a == [] {
      assert k == Marker + b;
      StripLeading(b);
    } else if Marker <= a {
      assert k[|Marker|..] == a[|Marker|..] + Marker + b;
      StripAround(a[|Marker|..], b);
    } else {
      if |a| >= |Marker| {
        assert k[..|Marker|] == a[..|Marker|];
      } else {
        // The marker cannot overlap itself: only its first character is 'n'.
        assert k[|a|] == Marker[0];
      }
      assert !(Marker <= k);
      assert k[0] == a[0];
      assert k[1..] == a[1..] + Marker + b;
      StripAround(a[1..], b);
    }
  }

  /** Both copies in `netmiko_netmiko_timeout` are removed, and `netmiko` alone, without `_`, is no netmiko column. */
  lemma StripEveryMarker()
    ensures Strip("netmiko_netmiko_timeout") == "timeout"
    ensures !IsNetmikoKey("netmiko")
  {
    assert "netmiko_netmiko_timeout" == Marker + "netmiko_timeout";
    StripLeading("netmiko_timeout");
    StripLeadingMarker();
    ContainsNeedsRoom("netmiko", Marker);
  }

  /**
   * The shape `_get_host_netmiko_options` returns: nothing when no column holds
   * the marker; otherwise exactly one entry, `netmiko`, whose five identity
   * overrides are None and whose extras are the coerced options.
   */
  lemma NetmikoOptionsShape(row: Row)
    ensures NetmikoOptionsOf(row).Ok? <==> ExtrasOf(row).Ok?
    ensures (forall i :: 0 <= i < |row| ==> !IsNetmikoKey(row[i].key)) ==> NetmikoOptionsOf(row) == Ok(map[])
    ensures NetmikoOptionsOf(row).Ok? && (exists i :: 0 <= i < |row| && IsNetmikoKey(row[i].key)) ==>
      NetmikoOptionsOf(row) == Ok(map["netmiko" := ConnectionOptions(Null, Null, Null, Null, Null, Some(ExtrasOf(row).value))])
  {
    ExtrasOfOk(row);
    if ExtrasOf(row).Ok? {
      ExtrasOfKeys(row);
      if exists i :: 0 <= i < |row| && IsNetmikoKey(row[i].key) {
        var i :| 0 <= i < |row| && IsNetmikoKey(row[i].key);
        assert Strip(row[i].key) in ExtrasOf(row).value;
      }
    }
  }
}
