/**
 * The local inventory table `inventory(_id, item_name, item_description,
 * item_quantity)`: rows in insertion order with AUTOINCREMENT ids, seeded
 * with twenty sample rows when the table is created.
 */
module InventoryDb {
  import opened JavaInt
  import opened Text
  import opened SqlLike

  datatype Row = Row(id: nat, name: string, description: string, quantity: Int32)

  /** Sample row `i`: "Item i", "Description of Item i", quantity 10 * i. */
  function SampleRow(i: nat, id: nat): Row
    requires 1 <= i <= 20
  {
    Row(id, "Item " + Decimal(i), "Description of Item " + Decimal(i), 10 * i)
  }

  /** The first `n` sample rows, with ids counting up from `firstId`. */
  function SampleRows(firstId: nat, n: nat): seq<Row>
    requires n <= 20
  {
    seq(n, k requires 0 <= k < n => SampleRow(k + 1, firstId + k))
  }

  /** The twenty sample rows carry twenty different names. */
  lemma SampleNamesDistinct(firstId: nat)
    ensures forall j, k :: 0 <= j < k < 20 ==> SampleRows(firstId, 20)[j].name != SampleRows(firstId, 20)[k].name
  {
    forall j, k | 0 <= j < k < 20
      ensures SampleRows(firstId, 20)[j].name != SampleRows(firstId, 20)[k].name
    {
      var dj, dk := Decimal(j + 1), Decimal(k + 1);
      assert SampleRows(firstId, 20)[j] == SampleRow(j + 1, firstId + j);
      assert SampleRows(firstId, 20)[k] == SampleRow(k + 1, firstId + k);
      if "Item " + dj == "Item " + dk {
        assert |"Item "| == 5;
        assert dj == ("Item " + dj)[5..] == ("Item " + dk)[5..] == dk;
        DecimalInjective(j + 1, k + 1);
      }
    }
  }

  /** The first and last sample rows, spelled out. */
  lemma SampleRowsEnds()
    ensures SampleRows(1, 20)[0] == Row(1, "Item 1", "Description of Item 1", 10)
    ensures SampleRows(1, 20)[19] == Row(20, "Item 20", "Description of Item 20", 200)
  {
    assert SampleRows(1, 20)[0] == SampleRow(1, 1);
    assert SampleRows(1, 20)[19] == SampleRow(20, 20);
    assert Decimal(1) == "1" by { assert DecimalDigit(1) == '1'; }
    assert "Item " + "1" == "Item 1";
    assert "Description of Item " + "1" == "Description of Item 1";
    assert Decimal(20) == "20" by {
      assert DecimalDigit(2) == '2' && DecimalDigit(0) == '0';
      assert Decimal(20) == Decimal(2) + [DecimalDigit(0)];
    }
    assert "Item " + "20" == "Item 20";
    assert "Description of Item " + "20" == "Description of Item 20";
  }

  /** The rows after `UPDATE ... SET item_quantity = q WHERE item_name = name`. */
  function WithQuantity(rows: seq<Row>, name: string, q: Int32): (r: seq<Row>)
    ensures |r| == |rows|
    ensures forall i :: 0 <= i < |rows| ==>
      r[i] == if rows[i].name == name then rows[i].(quantity := q) else rows[i]
  {
    if rows == [] then []
    else [if rows[0].name == name then rows[0].(quantity := q) else rows[0]] + WithQuantity(rows[1..], name, q)
  }

  /** An update whose name matches no row changes nothing. */
  lemma WithQuantityNoMatch(rows: seq<Row>, name: string, q: Int32)
    requires forall i :: 0 <= i < |rows| ==> rows[i].name != name
    ensures WithQuantity(rows, name, q) == rows
  {
  }

  /** The rows whose name matches the `LIKE` pattern, in table order. */
  function SelectLike(rows: seq<Row>, pattern: string): (r: seq<Row>)
    ensures |r| <= |rows|
    ensures forall x :: x in r <==> x in rows && Like(x.name, pattern)
  {
    if rows == [] then []
    else if Like(rows[0].name, pattern) then [rows[0]] + SelectLike(rows[1..], pattern)
    else SelectLike(rows[1..], pattern)
  }

  /** A pattern every name matches selects the whole table, in order. */
  lemma {:induction false} SelectLikeAll(rows: seq<Row>, pattern: string)
    requires forall i :: 0 <= i < |rows| ==> Like(rows[i].name, pattern)
    ensures SelectLike(rows, pattern) == rows
  {
    if rows != [] {
      SelectLikeAll(rows[1..], pattern);
    }
  }

  class InventoryTable {
    var rows: seq<Row>
    /** The AUTOINCREMENT counter: the id the next inserted row receives. */
    var nextId: nat

    /** Ids are positive, strictly increasing in table order, and below the counter. */
    ghost predicate Valid()
      reads this
    {
      nextId >= 1 &&
      (forall i :: 0 <= i < |rows| ==> 1 <= rows[i].id < nextId) &&
      (forall i, j :: 0 <= i < j < |rows| ==> rows[i].id < rows[j].id)
    }

    /** The helper before `onCreate` has run: an empty table. */
    constructor ()
      ensures Valid() && rows == [] && nextId == 1
    {
      rows := [];
      nextId := 1;
    }

    /** `isTableEmpty`: `SELECT COUNT(*)` gives zero. */
    function IsTableEmpty(): (empty: bool)
      reads this
      ensures empty <==> rows == []
    {
      |rows| == 0
    }

    /** `db.insert`: appends one row under the next AUTOINCREMENT id. */
    method Insert(name: string, description: string, quantity: Int32)
      requires Valid()
      modifies this
      ensures Valid()
      ensures rows == old(rows) + [Row(old(nextId), name, description, quantity)]
      ensures nextId == old(nextId) + 1
    {
      rows := rows + [Row(nextId, name, description, quantity)];
      nextId := nextId + 1;
    }

    /** `insertSampleItems`: inserts the twenty sample rows one by one. */
    method InsertSampleItems()
      requires Valid()
      modifies this
      ensures Valid()
      ensures rows == old(rows) + SampleRows(old(nextId), 20)
      ensures nextId == old(nextId) + 20
    {
      for i := 1 to 21
        invariant Valid()
        invariant nextId == old(nextId) + i - 1
        invariant rows == old(rows) + SampleRows(old(nextId), i - 1)
      {
        Insert("Item " + Decimal(i), "Description of Item " + Decimal(i), 10 * i);
        assert SampleRows(old(nextId), i) == SampleRows(old(nextId), i - 1) + [SampleRow(i, old(nextId) + i - 1)];
      }
    }

    /**
     * `onCreate`: creates the table, which starts out empty, and seeds it
     * because it is empty. The result is exactly the twenty sample rows.
     */
    method OnCreate()
      modifies this
      ensures Valid()
      ensures rows == SampleRows(1, 20) && nextId == 21
    {
      rows := [];
      nextId := 1;
      if IsTableEmpty() {
        InsertSampleItems();
      }
    }

    /** `onUpgrade`: drops the table and creates it again; earlier rows are lost. */
    method OnUpgrade(oldVersion: int, newVersion: int)
      modifies this
      ensures Valid()
      ensures rows == SampleRows(1, 20) && nextId == 21
    {
      OnCreate();
    }

    /** `getAllInventoryItems`: every row, in table order. */
    method GetAllInventoryItems() returns (result: seq<Row>)
      ensures result == rows
    {
      result := rows;
    }

    /**
     * `searchInventoryItems`: the rows whose name is `LIKE '%query%'`; for a
     * query without wildcards, exactly the rows whose name contains the query
     * ignoring ASCII case, in table order.
     */
    method SearchInventoryItems(query: string) returns (result: seq<Row>)
      ensures result == SelectLike(rows, "%" + query + "%")
      ensures NoWildcards(query) ==>
        forall x :: x in result <==> x in rows && ContainsIgnoreCase(x.name, query)
      ensures query == "" ==> result == rows
    {
      result := SelectLike(rows, "%" + query + "%");
      if NoWildcards(query) {
        forall x | x in rows
          ensures Like(x.name, "%" + query + "%") <==> ContainsIgnoreCase(x.name, query)
        {
          LikeContains(x.name, query);
        }
      }
      if query == "" {
        forall i | 0 <= i < |rows|
          ensures Like(rows[i].name, "%" + query + "%")
        {
          EmptyQueryMatchesAll(rows[i].name);
        }
        SelectLikeAll(rows, "%" + query + "%");
      }
    }

    /** `addItem`: appends exactly one row with the given fields; earlier rows are unchanged. */
    method AddItem(itemName: string, itemDescription: string, quantity: Int32)
      requires Valid()
      modifies this
      ensures Valid()
      ensures rows == old(rows) + [Row(old(nextId), itemName, itemDescription, quantity)]
      ensures nextId == old(nextId) + 1
    {
      Insert(itemName, itemDescription, quantity);
    }

    /** `updateItemQuantity`: every row named `itemName` gets the new quantity; nothing else changes. */
    method UpdateItemQuantity(itemName: string, newQuantity: Int32)
      requires Valid()
      modifies this
      ensures Valid()
      ensures rows == WithQuantity(old(rows), itemName, newQuantity)
      ensures nextId == old(nextId)
    {
      rows := WithQuantity(rows, itemName, newQuantity);
    }
  }
}
