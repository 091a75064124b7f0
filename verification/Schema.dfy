/**
 The grouping of schema rows, one per column, into tables.
 */
module Schema {
  import opened Options

  datatype RawRow = RawRow(schema: string, table: string, column: string, dataType: string,
                           isNullable: string, defaultValue: string, isPrimaryKey: bool)

  datatype Key = Key(schema: string, name: string)

  datatype Column = Column(name: string, dataType: string, nullable: bool, primaryKey: bool, defaultValue: string)

  datatype Table = Table(key: Key, columns: seq<Column>)

  function KeyOf(r: RawRow): Key {
    Key(r.schema, r.table)
  }

  function ColumnOf(r: RawRow): Column {
    Column(r.column, r.dataType, r.isNullable == "YES", r.isPrimaryKey, r.defaultValue)
  }

  // ---------------------------------------------------------------------------------------------
  // The reference: keys in first-appearance order, each with its rows.
  // ---------------------------------------------------------------------------------------------

  function Order(rows: seq<RawRow>): (keys: seq<Key>)
    ensures forall k :: k in keys <==> exists i :: 0 <= i < |rows| && KeyOf(rows[i]) == k
    ensures forall i, j | 0 <= i < j < |keys| :: keys[i] != keys[j]
  {
    if rows == [] then []
    else
      var init, k := rows[..|rows| - 1], KeyOf(rows[|rows| - 1]);
      assert forall i | 0 <= i < |init| :: init[i] == rows[i];
      if k in Order(init) then Order(init) else Order(init) + [k]
  }

  function ColumnsOf(rows: seq<RawRow>, k: Key): seq<Column> {
    if rows == [] then []
    else
      var last := rows[|rows| - 1];
      ColumnsOf(rows[..|rows| - 1], k) + if KeyOf(last) == k then [ColumnOf(last)] else []
  }

  function Tables(keys: seq<Key>, rows: seq<RawRow>): seq<Table> {
    seq(|keys|, i requires 0 <= i < |keys| => Table(keys[i], ColumnsOf(rows, keys[i])))
  }

  /** The scan: an order list and a map of tables grow with every row. `scanFails` says whether reading row i
      fails, `ended` whether the result set ended with an error. */
  method ScanSchemaRows(rows: seq<RawRow>, scanFails: nat -> bool, ended: bool)
    returns (tables: Option<seq<Table>>)
    ensures tables.Some? <==> !ended && forall i: nat | i < |rows| :: !scanFails(i)
    ensures tables.Some? ==> tables.value == Tables(Order(rows), rows)
  {
    hide Order, ColumnsOf;
    var order: seq<Key> := [];
    var tableMap: map<Key, Table> := map[];
    NoRows(rows);
    for n := 0 to |rows|
      invariant forall i: nat | i < n :: !scanFails(i)
      invariant order == Order(rows[..n])
      invariant forall k :: k in tableMap <==> k in order
      invariant forall k | k in tableMap :: tableMap[k] == Table(k, ColumnsOf(rows[..n], k))
    {
      if scanFails(n) {
        return None;
      }
      var row := rows[n];
      var key := KeyOf(row);
      OneMoreRow(rows, n);
      if key !in tableMap {
        NoColumns(rows[..n], key);
        tableMap := tableMap[key := Table(key, [])];
        order := order + [key];
      }
      var table := tableMap[key];
      tableMap := tableMap[key := table.(columns := table.columns + [ColumnOf(row)])];
    }
    if ended {
      return None;
    }
    assert rows[..|rows|] == rows;
    var out := Collect(order, tableMap, rows);
    return Some(out);
  }

  // The tables in their order.
  method Collect(order: seq<Key>, tableMap: map<Key, Table>, ghost rows: seq<RawRow>) returns (out: seq<Table>)
    requires forall k | k in order :: k in tableMap && tableMap[k] == Table(k, ColumnsOf(rows, k))
    ensures out == Tables(order, rows)
  {
    hide ColumnsOf;
    out := [];
    for i := 0 to |order|
      invariant out == Tables(order[..i], rows)
    {
      assert order[i] in order;
      assert order[..i + 1][..i] == order[..i];
      out := out + [tableMap[order[i]]];
    }
    assert order[..|order|] == order;
  }

  lemma NoRows(rows: seq<RawRow>)
    ensures Order(rows[..0]) == []
  {
  }

  lemma OneMoreRow(rows: seq<RawRow>, n: nat)
    requires n < |rows|
    ensures var k := KeyOf(rows[n]);
            Order(rows[..n + 1]) == if k in Order(rows[..n]) then Order(rows[..n]) else Order(rows[..n]) + [k]
    ensures forall k :: ColumnsOf(rows[..n + 1], k) ==
                        if KeyOf(rows[n]) == k then ColumnsOf(rows[..n], k) + [ColumnOf(rows[n])]
                        else ColumnsOf(rows[..n], k)
  {
    var last := rows[..n + 1];
    assert last[..|last| - 1] == rows[..n] && last[|last| - 1] == rows[n];
    forall k
      ensures ColumnsOf(last, k) == if KeyOf(rows[n]) == k then ColumnsOf(rows[..n], k) + [ColumnOf(rows[n])]
                                    else ColumnsOf(rows[..n], k)
    {
      assert ColumnsOf(rows[..n], k) + [] == ColumnsOf(rows[..n], k);
    }
  }

  lemma {:induction false} NoColumns(rows: seq<RawRow>, k: Key)
    requires k !in Order(rows)
    ensures ColumnsOf(rows, k) == []
  {
    if rows != [] {
      NoColumns(rows[..|rows| - 1], k);
    }
  }

  // ---------------------------------------------------------------------------------------------
  // First-appearance order.
  // ---------------------------------------------------------------------------------------------

  // Row i is the first of its table.
  predicate FirstOf(rows: seq<RawRow>, i: nat) {
    i < |rows| && forall j | 0 <= j < i :: KeyOf(rows[j]) != KeyOf(rows[i])
  }

  /** Tables come out in the order of their first rows. */
  lemma {:induction false} OrderIsFirstAppearance(rows: seq<RawRow>, i: nat, j: nat) returns (a: nat, b: nat)
    requires i < j < |Order(rows)|
    ensures FirstOf(rows, a) && FirstOf(rows, b) && a < b
    ensures KeyOf(rows[a]) == Order(rows)[i] && KeyOf(rows[b]) == Order(rows)[j]
  {
    a := FirstRow(rows, i);
    b := FirstRow(rows, j);
    LaterKeyLaterRow(rows, i, j, a, b);
  }

  lemma {:induction false} FirstRow(rows: seq<RawRow>, i: nat) returns (a: nat)
    requires i < |Order(rows)|
    ensures FirstOf(rows, a) && KeyOf(rows[a]) == Order(rows)[i]
  {
    var init := rows[..|rows| - 1];
    if i < |Order(init)| {
      a := FirstRow(init, i);
    } else {
      a := |rows| - 1;
      assert forall j | 0 <= j < a :: KeyOf(init[j]) in Order(init);
    }
  }

  lemma {:induction false} LaterKeyLaterRow(rows: seq<RawRow>, i: nat, j: nat, a: nat, b: nat)
    requires i < j < |Order(rows)| && FirstOf(rows, a) && FirstOf(rows, b)
    requires a < |rows| && b < |rows| && KeyOf(rows[a]) == Order(rows)[i] && KeyOf(rows[b]) == Order(rows)[j]
    ensures a < b
    decreases |rows|
  {
    hide Order, FirstOf;
    var n := |rows| - 1;
    var init := rows[..n];
    assert rows[..n + 1] == rows;
    OneMoreRow(rows, n);
    FirstIsInPrefix(rows, a, i);
    if j < |Order(init)| {
      FirstIsInPrefix(rows, b, j);
      LaterKeyLaterRow(init, i, j, a, b);
    } else {
      assert Order(rows) == Order(init) + [KeyOf(rows[n])];
      assert forall y | 0 <= y < n :: KeyOf(init[y]) in Order(init);
    }
  }

  lemma FirstIsInPrefix(rows: seq<RawRow>, a: nat, i: nat)
    requires rows != [] && FirstOf(rows, a)
    requires i < |Order(rows[..|rows| - 1])| && KeyOf(rows[a]) == Order(rows[..|rows| - 1])[i]
    ensures a < |rows| - 1 && FirstOf(rows[..|rows| - 1], a)
  {
    hide Order;
    var init := rows[..|rows| - 1];
    assert Order(init)[i] in Order(init);
    var x :| 0 <= x < |init| && KeyOf(init[x]) == Order(init)[i];
    assert KeyOf(rows[x]) == KeyOf(rows[a]);
  }

  // ---------------------------------------------------------------------------------------------
  // Nothing is lost.
  // ---------------------------------------------------------------------------------------------

  datatype Entry = Entry(key: Key, column: Column)

  function Entries(rows: seq<RawRow>): seq<Entry> {
    seq(|rows|, i requires 0 <= i < |rows| => Entry(KeyOf(rows[i]), ColumnOf(rows[i])))
  }

  function Labelled(k: Key, cs: seq<Column>): seq<Entry> {
    seq(|cs|, i requires 0 <= i < |cs| => Entry(k, cs[i]))
  }

  function Flatten(keys: seq<Key>, rows: seq<RawRow>): seq<Entry> {
    if keys == [] then []
    else
      var k := keys[|keys| - 1];
      Flatten(keys[..|keys| - 1], rows) + Labelled(k, ColumnsOf(rows, k))
  }

  predicate Distinct(keys: seq<Key>) {
    forall i, j | 0 <= i < j < |keys| :: keys[i] != keys[j]
  }

  lemma LabelledStep(rows: seq<RawRow>, r: RawRow, k: Key)
    ensures Labelled(k, ColumnsOf(rows + [r], k)) ==
            Labelled(k, ColumnsOf(rows, k)) + if KeyOf(r) == k then [Entry(k, ColumnOf(r))] else []
  {
    assert (rows + [r])[..|rows|] == rows;
  }

  // One more row adds one entry to its own table and none to the others.
  lemma {:induction false} FlattenStep(keys: seq<Key>, rows: seq<RawRow>, r: RawRow)
    requires Distinct(keys)
    ensures KeyOf(r) !in keys ==> Flatten(keys, rows + [r]) == Flatten(keys, rows)
    ensures KeyOf(r) in keys ==>
              multiset(Flatten(keys, rows + [r])) ==
              multiset(Flatten(keys, rows)) + multiset{Entry(KeyOf(r), ColumnOf(r))}
  {
    hide ColumnsOf, Labelled;
    if keys != [] {
      var init, k := keys[..|keys| - 1], keys[|keys| - 1];
      assert keys == init + [k];
      FlattenStep(init, rows, r);
      LabelledStep(rows, r, k);
      var more := Labelled(k, ColumnsOf(rows, k));
      if KeyOf(r) == k {
        FlattenLast(keys, rows, r);
      } else {
        assert more + [] == more;
        assert multiset(Flatten(keys, rows + [r])) == multiset(Flatten(init, rows + [r])) + multiset(more);
      }
    }
  }

  lemma FlattenLast(keys: seq<Key>, rows: seq<RawRow>, r: RawRow)
    requires keys != [] && Flatten(keys[..|keys| - 1], rows + [r]) == Flatten(keys[..|keys| - 1], rows)
    requires KeyOf(r) == keys[|keys| - 1]
    ensures Flatten(keys, rows + [r]) == Flatten(keys, rows) + [Entry(KeyOf(r), ColumnOf(r))]
  {
    hide ColumnsOf, Labelled;
    LabelledStep(rows, r, KeyOf(r));
    var front, more := Flatten(keys[..|keys| - 1], rows), Labelled(KeyOf(r), ColumnsOf(rows, KeyOf(r)));
    var e := [Entry(KeyOf(r), ColumnOf(r))];
    assert front + (more + e) == front + more + e;
  }

  lemma EntriesStep(rows: seq<RawRow>, r: RawRow)
    ensures Entries(rows + [r]) == Entries(rows) + [Entry(KeyOf(r), ColumnOf(r))]
  {
  }

  // A key that has no rows adds nothing.
  lemma FlattenNewKey(keys: seq<Key>, rows: seq<RawRow>, k: Key)
    requires k !in Order(rows)
    ensures Flatten(keys + [k], rows) == Flatten(keys, rows)
  {
    NoColumns(rows, k);
    assert (keys + [k])[..|keys|] == keys;
  }

  // What one more row does to the flattening of all tables.
  lemma FlattenGrows(rows: seq<RawRow>, r: RawRow)
    ensures multiset(Flatten(Order(rows + [r]), rows + [r])) ==
            multiset(Flatten(Order(rows), rows)) + multiset{Entry(KeyOf(r), ColumnOf(r))}
    ensures Order(rows + [r])[|Order(rows + [r])| - 1] == KeyOf(r) ==>
              Flatten(Order(rows + [r]), rows + [r]) ==
              Flatten(Order(rows), rows) + [Entry(KeyOf(r), ColumnOf(r))]
  {
    hide Flatten, ColumnsOf;
    assert (rows + [r])[..|rows|] == rows && (rows + [r])[|rows|] == r;
    var keys := Order(rows + [r]);
    FlattenStep(keys, rows, r);
    if keys[|keys| - 1] == KeyOf(r) {
      FlattenStep(keys[..|keys| - 1], rows, r);
      FlattenLast(keys, rows, r);
    }
    if KeyOf(r) !in Order(rows) { FlattenNewKey(Order(rows), rows, KeyOf(r)); }
  }

  lemma {:induction false} FlattenIsPermutation(rows: seq<RawRow>)
    ensures multiset(Flatten(Order(rows), rows)) == multiset(Entries(rows))
  {
    hide Flatten, Order, Entries;
    if rows == [] {
      NothingToFlatten();
    } else {
      var init, r := rows[..|rows| - 1], rows[|rows| - 1];
      assert rows == init + [r];
      FlattenIsPermutation(init);
      FlattenGrows(init, r);
      EntriesStep(init, r);
    }
  }

  lemma NothingToFlatten()
    ensures Flatten(Order([]), []) == [] && Entries([]) == []
  {
  }

  // Rows of one table stand together.
  predicate Grouped(rows: seq<RawRow>) {
    forall i, j, k | 0 <= i < j < k < |rows| && KeyOf(rows[i]) == KeyOf(rows[k]) :: KeyOf(rows[j]) == KeyOf(rows[i])
  }

  lemma {:induction false} GroupedEndsWithLast(rows: seq<RawRow>)
    requires Grouped(rows) && rows != []
    ensures Order(rows) != [] && Order(rows)[|Order(rows)| - 1] == KeyOf(rows[|rows| - 1])
  {
    hide Order, Grouped;
    var n := |rows| - 1;
    var init, k := rows[..n], KeyOf(rows[n]);
    OneMoreRow(rows, n);
    assert rows[..n + 1] == rows;
    if k in Order(init) {
      var i :| 0 <= i < |init| && KeyOf(init[i]) == k;
      GroupedPrefix(rows, i);
      GroupedEndsWithLast(init);
    }
  }

  lemma GroupedPrefix(rows: seq<RawRow>, i: nat)
    requires Grouped(rows) && i < |rows| - 1 && KeyOf(rows[i]) == KeyOf(rows[|rows| - 1])
    ensures Grouped(rows[..|rows| - 1]) && KeyOf(rows[|rows| - 2]) == KeyOf(rows[|rows| - 1])
  {
    if i < |rows| - 2 { assert KeyOf(rows[|rows| - 2]) == KeyOf(rows[i]); }
  }

  lemma {:induction false} GroupedFlattenIsInput(rows: seq<RawRow>)
    requires Grouped(rows)
    ensures Flatten(Order(rows), rows) == Entries(rows)
  {
    hide Flatten, Order, Entries;
    if rows == [] {
      NothingToFlatten();
    } else {
      var init, r := rows[..|rows| - 1], rows[|rows| - 1];
      assert rows == init + [r];
      GroupedFlattenIsInput(init);
      GroupedEndsWithLast(rows);
      FlattenGrows(init, r);
      EntriesStep(init, r);
    }
  }

  // All columns of a list of tables, table by table.
  function AllColumns(tables: seq<Table>): seq<Entry> {
    if tables == [] then []
    else
      var last := tables[|tables| - 1];
      AllColumns(tables[..|tables| - 1]) + Labelled(last.key, last.columns)
  }

  lemma {:induction false} AllColumnsOfTables(keys: seq<Key>, rows: seq<RawRow>)
    ensures AllColumns(Tables(keys, rows)) == Flatten(keys, rows)
  {
    hide ColumnsOf, Labelled;
    if keys != [] {
      var init := keys[..|keys| - 1];
      AllColumnsOfTables(init, rows);
      assert Tables(keys, rows)[..|keys| - 1] == Tables(init, rows);
    }
  }

  /** An entry is its row, field by field: nullable exactly for the text YES. */
  lemma EntryIsRow(rows: seq<RawRow>, i: nat)
    requires i < |rows|
    ensures |Entries(rows)| == |rows|
    ensures var e, r := Entries(rows)[i], rows[i];
            && e.key.schema == r.schema && e.key.name == r.table
            && e.column.name == r.column && e.column.dataType == r.dataType
            && (e.column.nullable <==> r.isNullable == "YES")
            && (e.column.primaryKey <==> r.isPrimaryKey) && e.column.defaultValue == r.defaultValue
  {
  }

  /** Nothing is lost or made up: the columns of the tables are a permutation of the rows, each with its own
      table, and rows that are grouped already come out as they went in. */
  lemma GroupingIsLossless(rows: seq<RawRow>)
    ensures multiset(AllColumns(Tables(Order(rows), rows))) == multiset(Entries(rows))
    ensures Grouped(rows) ==> AllColumns(Tables(Order(rows), rows)) == Entries(rows)
  {
    AllColumnsOfTables(Order(rows), rows);
    FlattenIsPermutation(rows);
    if Grouped(rows) { GroupedFlattenIsInput(rows); }
  }
}
