/**
 * The cursor-backed row adapter over the local inventory table. Each row's
 * buttons remember the name and quantity the row was bound with; "+" writes
 * that quantity plus one, "-" writes it minus one unless that would be
 * negative, and a "-" that lands on zero raises an out-of-stock alert
 * (a notification and a text message, recorded here as one event).
 * After a write the adapter re-reads the table into a new cursor and closes the old one.
 */
module CursorAdapter {
  import opened JavaInt
  import opened InventoryDb

  /** A query result over table rows. */
  class Cursor {
    const rows: seq<Row>
    var closed: bool

    constructor (rows: seq<Row>)
      ensures this.rows == rows && !closed
    {
      this.rows := rows;
      closed := false;
    }

    method Close()
      modifies this
      ensures closed
    {
      closed := true;
    }
  }

  /** What the "-" button does for a row bound with quantity `q`. */
  datatype SubtractEffect =
    | NoWrite
    | Write(newQuantity: Int32, outOfStock: bool)

  /** The decision of the "-" button: `q - 1` in Java `int` arithmetic, written only when not negative. */
  function SubtractDecision(q: Int32): (r: SubtractEffect)
    ensures r.Write? ==> r.newQuantity >= 0 && (r.newQuantity - (q - 1)) % 0x1_0000_0000 == 0
    ensures r.Write? ==> (r.outOfStock <==> r.newQuantity == 0)
    ensures r.NoWrite? ==> MinInt < q <= 0
  {
    var newQuantity := Sub(q, 1);
    if newQuantity >= 0 then Write(newQuantity, newQuantity == 0) else NoWrite
  }

  /**
   * For every quantity a row can show: a positive quantity is lowered by one;
   * zero and negative quantities are left alone, except `Integer.MIN_VALUE`,
   * whose `- 1` wraps to `Integer.MAX_VALUE`; the alert fires exactly when
   * the bound quantity was 1, that is when the written quantity is 0.
   */
  lemma SubtractDecisionMeaning(q: Int32)
    ensures SubtractDecision(q).Write? <==> q > 0 || q == MinInt
    ensures q > 0 ==> SubtractDecision(q) == Write(q - 1, q == 1)
    ensures q == MinInt ==> SubtractDecision(q) == Write(MaxInt, false)
    ensures (SubtractDecision(q).Write? && SubtractDecision(q).outOfStock) <==> q == 1
    ensures SubtractDecision(q).Write? && SubtractDecision(q).outOfStock ==> SubtractDecision(q).newQuantity == 0
  {
    SubOne(q);
  }

  class InventoryCursorAdapter {
    const dbHelper: InventoryTable
    var cursor: Cursor?
    /** The names of the items an out-of-stock alert was raised for, oldest first. */
    var alerts: seq<string>

    constructor (c: Cursor?, dbHelper: InventoryTable)
      ensures this.dbHelper == dbHelper && cursor == c && alerts == []
    {
      this.dbHelper := dbHelper;
      cursor := c;
      alerts := [];
    }

    /** `changeCursor`: closes the current cursor, if there is one, then installs `c`. */
    method ChangeCursor(c: Cursor?)
      modifies this, cursor
      ensures cursor == c && alerts == old(alerts)
      ensures old(cursor) != null ==> old(cursor).closed
    {
      if cursor != null {
        cursor.Close();
      }
      cursor := c;
    }

    /** `refreshCursor`: a new cursor over all rows of the table replaces the old one, which is closed. */
    method RefreshCursor()
      modifies this, cursor
      ensures cursor != null && fresh(cursor) && !cursor.closed && cursor.rows == dbHelper.rows
      ensures old(cursor) != null ==> old(cursor).closed
      ensures alerts == old(alerts)
    {
      var rows := dbHelper.GetAllInventoryItems();
      var c := new Cursor(rows);
      ChangeCursor(c);
    }

    /** The "+" button of the row bound with `itemName` and `itemQuantity`; it never alerts. */
    method OnAddClicked(itemName: string, itemQuantity: Int32)
      requires dbHelper.Valid()
      modifies this, cursor, dbHelper
      ensures dbHelper.Valid() && dbHelper.nextId == old(dbHelper.nextId)
      ensures dbHelper.rows == WithQuantity(old(dbHelper.rows), itemName, Add(itemQuantity, 1))
      ensures cursor != null && fresh(cursor) && !cursor.closed && cursor.rows == dbHelper.rows
      ensures old(cursor) != null ==> old(cursor).closed
      ensures alerts == old(alerts)
    {
      var newQuantity := Add(itemQuantity, 1);
      dbHelper.UpdateItemQuantity(itemName, newQuantity);
      RefreshCursor();
    }

    /**
     * The "-" button of the row bound with `itemName` and `itemQuantity`:
     * writes and refreshes only when `SubtractDecision` says so, and records
     * an alert exactly when the written quantity is zero.
     */
    method OnSubtractClicked(itemName: string, itemQuantity: Int32)
      requires dbHelper.Valid()
      modifies this, cursor, dbHelper
      ensures dbHelper.Valid() && dbHelper.nextId == old(dbHelper.nextId)
      ensures SubtractDecision(itemQuantity).NoWrite? ==>
        dbHelper.rows == old(dbHelper.rows) && cursor == old(cursor) && alerts == old(alerts) &&
        (old(cursor) != null ==> old(cursor).closed == old(cursor.closed))
      ensures SubtractDecision(itemQuantity).Write? ==>
        dbHelper.rows == WithQuantity(old(dbHelper.rows), itemName, SubtractDecision(itemQuantity).newQuantity) &&
        cursor != null && fresh(cursor) && !cursor.closed && cursor.rows == dbHelper.rows &&
        (old(cursor) != null ==> old(cursor).closed) &&
        alerts == old(alerts) + if SubtractDecision(itemQuantity).outOfStock then [itemName] else []
    {
      var newQuantity := Sub(itemQuantity, 1);
      if newQuantity >= 0 {
        dbHelper.UpdateItemQuantity(itemName, newQuantity);
        RefreshCursor();
        if newQuantity == 0 {
          alerts := alerts + [itemName];
        }
      }
    }
  }
}
