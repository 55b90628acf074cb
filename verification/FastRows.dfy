/** Rows with shared column metadata (`ColumnInfo`, `PyFastRow`, src/types.rs). */
module FastRows {
  import opened Common

  datatype ColumnInfo = ColumnInfo(names: seq<string>, index: map<string, nat>)

  datatype FastRow<V> = FastRow(values: seq<V>, info: ColumnInfo)

  /** A subscript: a string, an integer that fits isize, or anything else. */
  datatype RowKey = ByName(name: string) | ByIndex(index: int) | OtherRowKey

  datatype RowError = ColumnNotFound | ColumnOutOfRange | RowKeyType

  /** Among the first `count` columns, `i` is the last one called `name`. */
  predicate LastNamed(names: seq<string>, count: nat, name: string, i: nat) {
    i < count <= |names| && names[i] == name && forall j :: i < j < count ==> names[j] != name
  }

  /** The map finds every name, and for a repeated name its last column. */
  predicate InfoValid(info: ColumnInfo) {
    && (forall i :: 0 <= i < |info.names| ==> info.names[i] in info.index)
    && (forall name :: name in info.index ==> LastNamed(info.names, |info.names|, name, info.index[name]))
  }

  predicate RowValid<V>(row: FastRow<V>) {
    InfoValid(row.info) && |row.values| == |row.info.names|
  }

  method BuildColumnInfo(columns: seq<string>) returns (info: ColumnInfo)
    ensures info.names == columns && InfoValid(info)
  {
    var names: seq<string> := [];
    for i := 0 to |columns|
      invariant names == columns[..i]
    {
      names := names + [columns[i]];
    }
    var index: map<string, nat> := map[];
    for i := 0 to |names|
      invariant forall j :: 0 <= j < i ==> names[j] in index
      invariant forall name :: name in index ==> LastNamed(names, i, name, index[name])
    {
      index := index[names[i] := i];
    }
    return ColumnInfo(names, index);
  }

  /** `PyFastRow.__getitem__`. */
  function GetItem<V>(row: FastRow<V>, key: RowKey): Result<V, RowError>
    requires RowValid(row)
  {
    match key
    case ByName(name) => if name in row.info.index then Ok(row.values[row.info.index[name]]) else Err(ColumnNotFound)
    case ByIndex(index) =>
      var actual := if index < 0 then |row.values| + index else index;
      if actual < 0 || actual >= |row.values| then Err(ColumnOutOfRange) else Ok(row.values[actual])
    case OtherRowKey => Err(RowKeyType)
  }

  /** A name reaches its last column, an index the column counted from either end, and nothing else is reached. */
  lemma GetItemReaches<V>(row: FastRow<V>, key: RowKey)
    requires RowValid(row)
    ensures var n := |row.values|;
      match key
      case ByName(name) =>
        && (forall i: nat :: LastNamed(row.info.names, n, name, i) ==> GetItem(row, key) == Ok(row.values[i]))
        && ((forall i :: 0 <= i < n ==> row.info.names[i] != name) <==> GetItem(row, key) == Err(ColumnNotFound))
      case ByIndex(i) =>
        && (0 <= i < n ==> GetItem(row, key) == Ok(row.values[i]))
        && (-n <= i < 0 ==> GetItem(row, key) == Ok(row.values[n + i]))
        && (i < -n || i >= n ==> GetItem(row, key) == Err(ColumnOutOfRange))
      case OtherRowKey => GetItem(row, key) == Err(RowKeyType)
  {
    if key.ByName? && key.name in row.info.index {
      var last := row.info.index[key.name];
      assert LastNamed(row.info.names, |row.values|, key.name, last);
      forall i: nat | LastNamed(row.info.names, |row.values|, key.name, i) ensures i == last {
      }
    }
  }

  /** The first `count` keys set to their values, in order. */
  function SetItems<K, V>(keys: seq<K>, values: seq<V>, count: nat): (d: map<K, V>)
    requires count <= |keys| == |values|
  {
    if count == 0 then map[] else SetItems(keys, values, count - 1)[keys[count - 1] := values[count - 1]]
  }

  lemma {:induction false} ItemKeys<K, V>(keys: seq<K>, values: seq<V>, count: nat, k: K)
    requires count <= |keys| == |values|
    ensures k in SetItems(keys, values, count) <==> exists i :: 0 <= i < count && keys[i] == k
  {
    if count > 0 {
      ItemKeys(keys, values, count - 1, k);
    }
  }

  lemma {:induction false} LastItemWins<K, V>(keys: seq<K>, values: seq<V>, count: nat, i: nat)
    requires i < count <= |keys| == |values| && forall j :: i < j < count ==> keys[j] != keys[i]
    ensures keys[i] in SetItems(keys, values, count) && SetItems(keys, values, count)[keys[i]] == values[i]
  {
    if i < count - 1 {
      LastItemWins(keys, values, count - 1, i);
    }
  }

  /** `to_dict` maps each column name to what subscripting by that name gives, repeated names included. */
  method ToDict<V>(row: FastRow<V>) returns (dict: map<string, V>)
    requires RowValid(row)
    ensures forall name :: name in dict <==> GetItem(row, ByName(name)).Ok?
    ensures forall name :: name in dict ==> GetItem(row, ByName(name)) == Ok(dict[name])
  {
    dict := map[];
    for i := 0 to |row.values|
      invariant dict == SetItems(row.info.names, row.values, i)
    {
      dict := dict[row.info.names[i] := row.values[i]];
    }
    forall name
      ensures name in dict <==> GetItem(row, ByName(name)).Ok?
      ensures name in dict ==> GetItem(row, ByName(name)) == Ok(dict[name])
    {
      ItemOfDict(row, name);
    }
  }

  lemma ItemOfDict<V>(row: FastRow<V>, name: string)
    requires RowValid(row)
    ensures var dict := SetItems(row.info.names, row.values, |row.values|);
      && (name in dict <==> GetItem(row, ByName(name)).Ok?)
      && (name in dict ==> GetItem(row, ByName(name)) == Ok(dict[name]))
  {
    ItemKeys(row.info.names, row.values, |row.values|, name);
    if name in row.info.index {
      assert LastNamed(row.info.names, |row.info.names|, name, row.info.index[name]);
      LastItemWins(row.info.names, row.values, |row.values|, row.info.index[name]);
    }
  }

  /** A name that occurs once, its position, and its position counted from the end all reach one value. */
  lemma NameAndIndexAgree<V>(row: FastRow<V>, i: nat)
    requires RowValid(row) && i < |row.values|
    requires forall j :: 0 <= j < |row.info.names| && j != i ==> row.info.names[j] != row.info.names[i]
    ensures GetItem(row, ByName(row.info.names[i])) == GetItem(row, ByIndex(i))
      == GetItem(row, ByIndex(i - |row.values|))
    ensures GetItem(row, ByIndex(i)).Ok?
  {
    assert LastNamed(row.info.names, |row.info.names|, row.info.names[i], row.info.index[row.info.names[i]]);
  }
}
