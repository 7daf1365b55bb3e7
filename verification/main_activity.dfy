/**
 * The main screen: the login gate at start-up, the runtime permission
 * request, logout, and the "+"/"-" buttons of the grid rows, which keep the
 * row's quantity in a one-element array and write it to the inventory table.
 * A "-" that reaches zero raises an out-of-stock alert (a notification and a
 * text message, recorded here as one event).
 */
module MainScreen {
  import opened JavaInt
  import opened InventoryDb
  import opened Session

  datatype Permission = SendSms | PostNotifications

  /** How `onCreate` ends: sent to the login screen, or the inventory shown after requesting `requested` (none if empty). */
  datatype Launch =
    | RedirectedToLogin
    | Shown(requested: seq<Permission>)

  /** The permissions still to request: SMS first, then notifications, each only when not yet granted. */
  method PermissionsNeeded(smsGranted: bool, notificationsGranted: bool) returns (needed: seq<Permission>)
    ensures SendSms in needed <==> !smsGranted
    ensures PostNotifications in needed <==> !notificationsGranted
    ensures |needed| == (if smsGranted then 0 else 1) + (if notificationsGranted then 0 else 1)
    ensures !smsGranted && !notificationsGranted ==> needed == [SendSms, PostNotifications]
    ensures needed == (if smsGranted then [] else [SendSms]) + (if notificationsGranted then [] else [PostNotifications])
  {
    needed := [];
    if !smsGranted {
      needed := needed + [SendSms];
    }
    if !notificationsGranted {
      needed := needed + [PostNotifications];
    }
  }

  /** The out-of-stock test of `checkItemQuantity`. */
  predicate IsOutOfStock(quantity: Int32) {
    quantity == 0
  }

  class MainActivity {
    const session: Preferences
    const inventoryDbHelper: InventoryTable
    /** The names of the items an out-of-stock alert was raised for, oldest first. */
    var alerts: seq<string>

    constructor (session: Preferences, inventoryDbHelper: InventoryTable)
      ensures this.session == session && this.inventoryDbHelper == inventoryDbHelper && alerts == []
    {
      this.session := session;
      this.inventoryDbHelper := inventoryDbHelper;
      alerts := [];
    }

    /** `isUserLoggedIn`: the stored `is_logged_in` flag, false when it was never stored. */
    function IsUserLoggedIn(): (r: bool)
      reads this, session
      ensures r <==> LoggedInKey in session.values && session.values[LoggedInKey]
      ensures LoggedInKey !in session.values ==> !r
    {
      session.GetBoolean(LoggedInKey, false)
    }

    /** `logout`: the session preferences are emptied, so the user is no longer logged in. */
    method Logout()
      modifies session
      ensures session.values == map[]
      ensures !IsUserLoggedIn()
    {
      session.Clear();
    }

    /**
     * `onCreate`: without a logged-in session the screen goes to the login
     * screen and stops; otherwise it requests the permissions not yet granted,
     * if any.
     */
    method OnCreate(smsGranted: bool, notificationsGranted: bool) returns (launch: Launch)
      ensures launch.RedirectedToLogin? <==> !IsUserLoggedIn()
      ensures launch.Shown? ==>
        (SendSms in launch.requested <==> !smsGranted) &&
        (PostNotifications in launch.requested <==> !notificationsGranted) &&
        (launch.requested == [] <==> smsGranted && notificationsGranted)
      ensures launch.Shown? ==>
        launch.requested == (if smsGranted then [] else [SendSms]) + (if notificationsGranted then [] else [PostNotifications])
    {
      if !IsUserLoggedIn() {
        return RedirectedToLogin;
      }
      var needed := PermissionsNeeded(smsGranted, notificationsGranted);
      launch := Shown(needed);
    }

    /** `checkItemQuantity`: raises an alert for `itemName` exactly when `quantity` is zero. */
    method CheckItemQuantity(itemName: string, quantity: Int32)
      modifies this
      ensures alerts == old(alerts) + if IsOutOfStock(quantity) then [itemName] else []
    {
      if quantity == 0 {
        alerts := alerts + [itemName];
      }
    }

    /** The "+" button of a grid row: the row's quantity goes up by one and is written under the item's name. */
    method OnAddClicked(itemName: string, itemQuantity: array<Int32>)
      requires itemQuantity.Length == 1 && inventoryDbHelper.Valid()
      modifies itemQuantity, inventoryDbHelper
      ensures inventoryDbHelper.Valid() && inventoryDbHelper.nextId == old(inventoryDbHelper.nextId)
      ensures itemQuantity[0] == Add(old(itemQuantity[0]), 1)
      ensures inventoryDbHelper.rows == WithQuantity(old(inventoryDbHelper.rows), itemName, itemQuantity[0])
    {
      var newQuantity := Add(itemQuantity[0], 1);
      inventoryDbHelper.UpdateItemQuantity(itemName, newQuantity);
      itemQuantity[0] := newQuantity;
    }

    /**
     * The "-" button of a grid row: acts only on a positive quantity, lowering
     * it by one, writing it, and checking it for an alert; so a quantity that
     * was not negative never becomes negative.
     */
    method OnSubtractClicked(itemName: string, itemQuantity: array<Int32>)
      requires itemQuantity.Length == 1 && inventoryDbHelper.Valid()
      modifies this, itemQuantity, inventoryDbHelper
      ensures inventoryDbHelper.Valid() && inventoryDbHelper.nextId == old(inventoryDbHelper.nextId)
      ensures old(itemQuantity[0]) > 0 ==>
        itemQuantity[0] == old(itemQuantity[0]) - 1 &&
        inventoryDbHelper.rows == WithQuantity(old(inventoryDbHelper.rows), itemName, itemQuantity[0]) &&
        alerts == old(alerts) + if itemQuantity[0] == 0 then [itemName] else []
      ensures old(itemQuantity[0]) <= 0 ==>
        itemQuantity[0] == old(itemQuantity[0]) &&
        inventoryDbHelper.rows == old(inventoryDbHelper.rows) && alerts == old(alerts)
      ensures old(itemQuantity[0]) >= 0 ==> itemQuantity[0] >= 0
    {
      if itemQuantity[0] > 0 {
        var newQuantity := itemQuantity[0] - 1;
        inventoryDbHelper.UpdateItemQuantity(itemName, newQuantity);
        itemQuantity[0] := newQuantity;
        CheckItemQuantity(itemName, newQuantity);
      }
    }
  }
}
