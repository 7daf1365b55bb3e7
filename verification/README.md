# Inventory app: a verified model

This project models the core of a small Android inventory application written
in Java. The app keeps items in a local SQLite table and in a remote key/value
store. Users log in, either against a local `users` table holding SHA-256
password hashes or through an e-mail sign-in service. The main screen and two
list adapters show the items with "+" and "-" buttons. A quantity that drops to
zero raises an out-of-stock alert.

The model is organised as follows:

- `InventoryItem` is a class with five mutable fields (`inventory_item.dfy`).
  Its `compareTo` is modelled as Java's `compareToIgnoreCase` on names.
- The remote store is a map from generated keys to item values
  (`remote_store.dfy`).
- The RecyclerView adapter holds the caller's list by reference
  (`list_adapter.dfy`).
- The cursor adapter is over the SQLite inventory table (`cursor_adapter.dfy`).
- The SQLite inventory table is a sequence of rows with an AUTOINCREMENT
  counter (`inventory_db.dfy`). `LIKE` matching is in `sql_like.dfy`.
- The session preference file is `session.dfy`.
- The main screen is `main_activity.dfy`.
- The hexadecimal rendering of password digests is `hex.dfy`.
- The users table is `login_db.dfy`.
- The two login screens are `login_activity.dfy` (local table) and
  `registration.dfy` (e-mail sign-in and registration).

Java's 32-bit `int` arithmetic is written out explicitly (`java_int.dfy`).
A `null` id or key is an `Option`. An exception part way through a click
handler is an outcome value: the effects before the throwing statement stay,
and those after it do not happen.

The SHA-256 digest is a constant function value of the users table. Only its
fixed 32-byte length is assumed. The e-mail format test is a function
parameter of the registration check. The user's choice of keys, clicks and
field contents are parameters of the handlers.

## Model

| member | source | states |
|---|---|---|
| JavaInt.Wrap | app/src/main/java/com/snhu/cs360/inventoryapp/InventoryAdapter.java:53 | reduces an unbounded result to the `int` range: unchanged when already in range, otherwise congruent to it modulo 2^32 |
| JavaInt.Add | app/src/main/java/com/snhu/cs360/inventoryapp/InventoryAdapter.java:53 | Java `a + b` on `int`: the exact sum when it fits, otherwise the sum wrapped modulo 2^32 |
| JavaInt.Sub | app/src/main/java/com/snhu/cs360/inventoryapp/InventoryAdapter.java:60 | Java `a - b` on `int`: the exact difference when it fits, otherwise the difference wrapped modulo 2^32 |
| JavaInt.AddOne | app/src/main/java/com/snhu/cs360/inventoryapp/InventoryAdapter.java:53 | `q + 1` in Java `int` is `q + 1` below the maximum and wraps to the minimum at it |
| JavaInt.SubOne | app/src/main/java/com/snhu/cs360/inventoryapp/InventoryAdapter.java:60 | `q - 1` in Java `int` is `q - 1` above the minimum and wraps to the maximum at it |
| Inventory.CompareIgnoreCase | app/src/main/java/com/snhu/cs360/inventoryapp/InventoryItem.java:75 | a zero result means the names have the same length and agree character by character after case folding |
| Inventory.CompareIgnoreCaseMeaning | app/src/main/java/com/snhu/cs360/inventoryapp/InventoryItem.java:66-75 | the comparison is zero iff the names are equal after case folding, and negative iff the folded first name precedes the second lexicographically |
| Inventory.CompareIgnoreCaseAntisymmetric | app/src/main/java/com/snhu/cs360/inventoryapp/InventoryItem.java:75 | comparing b with a gives exactly the negation of comparing a with b |
| Inventory.CompareIgnoreCaseReflexive | app/src/main/java/com/snhu/cs360/inventoryapp/InventoryItem.java:75 | every name compares equal to itself |
| Inventory.CompareIgnoreCaseTransitive | app/src/main/java/com/snhu/cs360/inventoryapp/InventoryItem.java:75 | "not after" is transitive, so the comparison is a total preorder usable for sorting |
| Inventory.CaseOnlyDifferenceExample | app/src/main/java/com/snhu/cs360/inventoryapp/InventoryItem.java:75 | "Test Item" and "test item" compare equal |
| Inventory.NameOrderingExamples | app/src/test/java/com/snhu/cs360/inventoryapp/inventory/InventoryItemTest.java:55-71 | "Test Item" comes after "Alpha Item" and before "Zulu Item" |
| Inventory.LambdaOrderingExamples | app/src/test/java/com/snhu/cs360/inventoryapp/inventory/InventoryItemTest.java:91-98 | "Lambda Item" comes after "Alpha Item" and before "Test Item" and "Zulu Item" |
| Inventory.InventoryItem.constructor | app/src/main/java/com/snhu/cs360/inventoryapp/InventoryItem.java:38-44 | name, description, quantity and tag come from the arguments, and the id stays unset because the constructor assigns the field to itself |
| Inventory.InventoryItem.SetId | app/src/main/java/com/snhu/cs360/inventoryapp/InventoryItem.java:60 | only the id changes; the other four fields keep their values |
| Inventory.InventoryItem.SetName | app/src/main/java/com/snhu/cs360/inventoryapp/InventoryItem.java:61 | only the name changes |
| Inventory.InventoryItem.SetDescription | app/src/main/java/com/snhu/cs360/inventoryapp/InventoryItem.java:62 | only the description changes |
| Inventory.InventoryItem.SetQuantity | app/src/main/java/com/snhu/cs360/inventoryapp/InventoryItem.java:63 | only the quantity changes |
| Inventory.InventoryItem.SetTag | app/src/main/java/com/snhu/cs360/inventoryapp/InventoryItem.java:64 | only the tag changes |
| Inventory.InventoryItem.CompareTo | app/src/main/java/com/snhu/cs360/inventoryapp/InventoryItem.java:75 | the result depends on the two names only: zero iff they are equal ignoring case, negative iff this name precedes the other after folding |
| Inventory.RenamedItemComparesEqual | app/src/test/java/com/snhu/cs360/inventoryapp/inventory/InventoryItemTest.java:46-51 | an item renamed to "Test Item" compares as 0 with an item created under that name |
| Inventory.SortByName | app/src/test/java/com/snhu/cs360/inventoryapp/inventory/InventoryItemTest.java:85-93 | sorting by `compareTo` returns a permutation of its input |
| Inventory.InsertByNameSorted | app/src/test/java/com/snhu/cs360/inventoryapp/inventory/InventoryItemTest.java:85 | inserting an item before the first item it does not follow keeps a name-sorted list sorted |
| Inventory.SortByNameCorrect | app/src/test/java/com/snhu/cs360/inventoryapp/inventory/InventoryItemTest.java:85-93 | sorting by `compareTo` yields a list sorted by name that is a permutation of the input |
| Inventory.SortThreeScenario | app/src/test/java/com/snhu/cs360/inventoryapp/inventory/InventoryItemTest.java:75-89 | sorting Alpha, Test, Zulu leaves them in that order |
| Inventory.SortTailScenario | app/src/test/java/com/snhu/cs360/inventoryapp/inventory/InventoryItemTest.java:91-98 | sorting Test, Zulu, Lambda gives Lambda, Test, Zulu |
| Inventory.SortFourScenario | app/src/test/java/com/snhu/cs360/inventoryapp/inventory/InventoryItemTest.java:91-98 | after "Lambda Item" is added the sort gives Alpha, Lambda, Test, Zulu |
| RemoteStore.Put | app/src/main/java/com/snhu/cs360/inventoryapp/FirebaseDatabaseHelper.java:57-59 | writing under a key stores the value there and keeps every other key; a null key writes nothing |
| RemoteStore.Drop | app/src/main/java/com/snhu/cs360/inventoryapp/FirebaseDatabaseHelper.java:67-69 | removing a key deletes exactly that key; a null key removes nothing |
| RemoteStore.PutIdempotent | app/src/main/java/com/snhu/cs360/inventoryapp/FirebaseDatabaseHelper.java:57-59 | writing the same value under the same key twice is the same as writing it once |
| RemoteStore.DropIdempotent | app/src/main/java/com/snhu/cs360/inventoryapp/FirebaseDatabaseHelper.java:67-69 | deleting a key twice is the same as deleting it once |
| RemoteStore.DropUndoesFreshPut | app/src/main/java/com/snhu/cs360/inventoryapp/FirebaseDatabaseHelper.java:31-36 | deleting an item just added under a fresh key restores the store |
| RemoteStore.ItemStore.constructor | app/src/main/java/com/snhu/cs360/inventoryapp/FirebaseDatabaseHelper.java:19-22 | the helper works on the collection it is connected to |
| RemoteStore.ItemStore.AddItem | app/src/main/java/com/snhu/cs360/inventoryapp/FirebaseDatabaseHelper.java:31-36 | with a generated key the item is stored under it and a fresh key grows the store by one; with a null key nothing is written |
| RemoteStore.ItemStore.UpdateItem | app/src/main/java/com/snhu/cs360/inventoryapp/FirebaseDatabaseHelper.java:57-59 | the item replaces whatever was stored under its id; other keys are unchanged |
| RemoteStore.ItemStore.DeleteItem | app/src/main/java/com/snhu/cs360/inventoryapp/FirebaseDatabaseHelper.java:67-69 | the id's entry is removed; other keys are unchanged |
| ListAdapter.RemoveFirstAt | app/src/main/java/com/snhu/cs360/inventoryapp/inventory/InventoryAdapter.java:231-238 | removing the first occurrence at index i leaves the elements before and after i in their order |
| ListAdapter.RemoveFirstAbsent | app/src/main/java/com/snhu/cs360/inventoryapp/inventory/InventoryAdapter.java:231-238 | removing an item that is not in the list leaves it unchanged |
| ListAdapter.RemoveFirstCount | app/src/main/java/com/snhu/cs360/inventoryapp/inventory/InventoryAdapter.java:231-238 | removing a present item shortens the list by one and takes exactly one copy of it out |
| ListAdapter.ItemList.IndexOf | app/src/main/java/com/snhu/cs360/inventoryapp/inventory/InventoryAdapter.java:232 | -1 iff the item (by identity) is absent, otherwise the index of its first occurrence |
| ListAdapter.ItemList.Set | app/src/main/java/com/snhu/cs360/inventoryapp/inventory/InventoryAdapter.java:199 | only the given slot changes |
| ListAdapter.ItemList.RemoveAt | app/src/main/java/com/snhu/cs360/inventoryapp/inventory/InventoryAdapter.java:234 | the element at the index is removed and the rest keep their order |
| ListAdapter.ListAdapter.constructor | app/src/main/java/com/snhu/cs360/inventoryapp/inventory/InventoryAdapter.java:34-38 | the adapter holds the caller's list itself, not a copy |
| ListAdapter.ListAdapter.GetItemCount | app/src/main/java/com/snhu/cs360/inventoryapp/inventory/InventoryAdapter.java:134-136 | the count is the length of the current list |
| ListAdapter.ListAdapter.SetItems | app/src/main/java/com/snhu/cs360/inventoryapp/inventory/InventoryAdapter.java:145-148 | the current list becomes exactly the given list |
| ListAdapter.ListAdapter.GetItemAt | app/src/main/java/com/snhu/cs360/inventoryapp/inventory/InventoryAdapter.java:220-222 | returns element p of the current list, for p within the list |
| ListAdapter.ListAdapter.RemoveItem | app/src/main/java/com/snhu/cs360/inventoryapp/inventory/InventoryAdapter.java:231-238 | a present item loses its first occurrence and the list shrinks by one; an absent item changes nothing |
| ListAdapter.ListAdapter.OnAddClicked | app/src/main/java/com/snhu/cs360/inventoryapp/inventory/InventoryAdapter.java:109-113 | only the bound item's quantity changes, by +1 with Java wrap-around, and the item is written under its id |
| ListAdapter.ListAdapter.OnSubtractClicked | app/src/main/java/com/snhu/cs360/inventoryapp/inventory/InventoryAdapter.java:115-121 | a positive quantity drops by exactly one and is written; otherwise nothing changes; a quantity that was not negative never becomes negative |
| ListAdapter.ListAdapter.OnSaveEdit | app/src/main/java/com/snhu/cs360/inventoryapp/inventory/InventoryAdapter.java:190-206 | name, description and quantity are overwritten; past the position check only slot `position` is replaced; the item is written under its id when it has one, and an item without an id ends the save before the store write (the null-key throw); each earlier failure point leaves the list and store untouched |
| ListAdapter.IncrementThenDecrementScenario | app/src/androidTest/java/com/snhu/cs360/inventoryapp/inventory/InventoryAdapterTest.java:94-110 | with items of quantity 5, 10, 15 the count is 3, and "+" then "-" on the first row make the caller's list show 6 and then 5 |
| CursorAdapter.SubtractDecision | app/src/main/java/com/snhu/cs360/inventoryapp/InventoryAdapter.java:59-70 | a write carries a non-negative quantity congruent to `q - 1` and alerts iff it is 0; no write happens only for quantities from 0 down to just above the minimum int |
| CursorAdapter.SubtractDecisionMeaning | app/src/main/java/com/snhu/cs360/inventoryapp/InventoryAdapter.java:59-70 | the "-" handler writes iff the wrapped `q - 1` is not negative, that is iff q > 0 or q is the minimum int; it writes q - 1 for positive q and alerts iff q was 1, so an alert always means quantity 0 |
| CursorAdapter.InventoryCursorAdapter.constructor | app/src/main/java/com/snhu/cs360/inventoryapp/InventoryAdapter.java:21-25 | the adapter starts on the given cursor and table |
| CursorAdapter.InventoryCursorAdapter.ChangeCursor | app/src/main/java/com/snhu/cs360/inventoryapp/InventoryAdapter.java:100-105 | the previous cursor, if any, is closed and the new one installed |
| CursorAdapter.InventoryCursorAdapter.RefreshCursor | app/src/main/java/com/snhu/cs360/inventoryapp/InventoryAdapter.java:85-89 | a fresh open cursor over all table rows replaces the old one, which is closed |
| CursorAdapter.InventoryCursorAdapter.OnAddClicked | app/src/main/java/com/snhu/cs360/inventoryapp/InventoryAdapter.java:52-56 | the rows whose name equals the item's name get quantity q + 1, the cursor is refreshed, and no alert is raised |
| CursorAdapter.InventoryCursorAdapter.OnSubtractClicked | app/src/main/java/com/snhu/cs360/inventoryapp/InventoryAdapter.java:59-71 | writes and refreshes only when the decision says so; an alert is raised iff the new quantity is 0; with no write, the table, the current cursor (still open if it was) and the alerts are untouched |
| InventoryDb.SampleNamesDistinct | app/src/main/java/com/snhu/cs360/inventoryapp/InventoryDatabaseHelper.java:151-157 | the twenty sample rows have pairwise distinct names |
| InventoryDb.SampleRowsEnds | app/src/main/java/com/snhu/cs360/inventoryapp/InventoryDatabaseHelper.java:151-157 | the first sample row is (1, "Item 1", "Description of Item 1", 10) and the last (20, "Item 20", "Description of Item 20", 200) |
| InventoryDb.WithQuantity | app/src/main/java/com/snhu/cs360/inventoryapp/InventoryDatabaseHelper.java:170-175 | every row with the name gets the new quantity; other columns and other rows are unchanged |
| InventoryDb.WithQuantityNoMatch | app/src/main/java/com/snhu/cs360/inventoryapp/InventoryDatabaseHelper.java:175 | when no row has the name the update changes nothing |
| InventoryDb.SelectLike | app/src/main/java/com/snhu/cs360/inventoryapp/InventoryDatabaseHelper.java:96-99 | exactly the rows whose name matches the pattern are selected |
| InventoryDb.SelectLikeAll | app/src/main/java/com/snhu/cs360/inventoryapp/InventoryDatabaseHelper.java:96-99 | when every row matches, the selection is the whole table in order |
| InventoryDb.InventoryTable.constructor | app/src/main/java/com/snhu/cs360/inventoryapp/InventoryDatabaseHelper.java:43-48 | a newly created table has no rows and the counter at 1 |
| InventoryDb.InventoryTable.Insert | app/src/main/java/com/snhu/cs360/inventoryapp/InventoryDatabaseHelper.java:156 | one row with the next id is appended and ids stay increasing |
| InventoryDb.InventoryTable.IsTableEmpty | app/src/main/java/com/snhu/cs360/inventoryapp/InventoryDatabaseHelper.java:131-140 | true iff the table has no rows |
| InventoryDb.InventoryTable.InsertSampleItems | app/src/main/java/com/snhu/cs360/inventoryapp/InventoryDatabaseHelper.java:148-161 | exactly twenty rows are appended; row i is "Item i", "Description of Item i", 10 * i |
| InventoryDb.InventoryTable.OnCreate | app/src/main/java/com/snhu/cs360/inventoryapp/InventoryDatabaseHelper.java:42-52 | the new table is empty, so it is seeded and holds exactly the twenty sample rows |
| InventoryDb.InventoryTable.OnUpgrade | app/src/main/java/com/snhu/cs360/inventoryapp/InventoryDatabaseHelper.java:66-71 | after dropping and recreating, the table holds exactly the twenty sample rows |
| InventoryDb.InventoryTable.GetAllInventoryItems | app/src/main/java/com/snhu/cs360/inventoryapp/InventoryDatabaseHelper.java:79-83 | every row, in table order |
| InventoryDb.InventoryTable.SearchInventoryItems | app/src/main/java/com/snhu/cs360/inventoryapp/InventoryDatabaseHelper.java:96-100 | the rows matching `%query%`; for a query without wildcards, exactly the rows whose name contains the query ignoring case; the empty query returns every row |
| InventoryDb.InventoryTable.AddItem | app/src/main/java/com/snhu/cs360/inventoryapp/InventoryDatabaseHelper.java:109-122 | exactly one row with the given name, description and quantity is appended; existing rows are unchanged |
| InventoryDb.InventoryTable.UpdateItemQuantity | app/src/main/java/com/snhu/cs360/inventoryapp/InventoryDatabaseHelper.java:170-181 | the table becomes the quantity update of the named rows |
| SqlLike.Like | app/src/main/java/com/snhu/cs360/inventoryapp/InventoryDatabaseHelper.java:98 | a pattern without `%` only matches names of its own length; the empty pattern only matches the empty name |
| SqlLike.LikePercentMatchesAll | app/src/main/java/com/snhu/cs360/inventoryapp/InventoryDatabaseHelper.java:98 | the pattern `%` matches every name |
| SqlLike.LikeLiteralPrefix | app/src/main/java/com/snhu/cs360/inventoryapp/InventoryDatabaseHelper.java:98 | a wildcard-free prefix matches iff the name starts with it ignoring case and the rest matches |
| SqlLike.LikeLeadingPercent | app/src/main/java/com/snhu/cs360/inventoryapp/InventoryDatabaseHelper.java:98 | a leading `%` matches iff the rest of the pattern matches some suffix |
| SqlLike.LikeContains | app/src/main/java/com/snhu/cs360/inventoryapp/InventoryDatabaseHelper.java:98 | for wildcard-free s, `%s%` matches iff the name contains s ignoring ASCII case |
| SqlLike.EmptyQueryMatchesAll | app/src/main/java/com/snhu/cs360/inventoryapp/InventoryDatabaseHelper.java:98 | an empty search query matches every name |
| Session.Preferences.GetBoolean | app/src/main/java/com/snhu/cs360/inventoryapp/MainActivity.java:124-127 | the stored flag, or the default when the key is absent |
| Session.Preferences.PutBoolean | app/src/main/java/com/snhu/cs360/inventoryapp/LoginActivity.java:111-114 | the key is set and every other entry kept |
| Session.Preferences.Clear | app/src/main/java/com/snhu/cs360/inventoryapp/MainActivity.java:131-135 | no entry remains |
| MainScreen.PermissionsNeeded | app/src/main/java/com/snhu/cs360/inventoryapp/MainActivity.java:70-76 | SEND_SMS is in the list iff not granted and POST_NOTIFICATIONS iff not granted, SMS first |
| MainScreen.MainActivity.IsUserLoggedIn | app/src/main/java/com/snhu/cs360/inventoryapp/MainActivity.java:124-127 | true iff `is_logged_in` is stored as true; false when it is absent |
| MainScreen.MainActivity.Logout | app/src/main/java/com/snhu/cs360/inventoryapp/MainActivity.java:131-135 | the session store is empty afterwards, so the user is not logged in |
| MainScreen.MainActivity.OnCreate | app/src/main/java/com/snhu/cs360/inventoryapp/MainActivity.java:52-79 | redirects to login iff not logged in; otherwise requests exactly the missing permissions, SMS before notifications, and no request happens when both are granted |
| MainScreen.MainActivity.CheckItemQuantity | app/src/main/java/com/snhu/cs360/inventoryapp/MainActivity.java:305-310 | an alert is raised iff the quantity is 0 |
| MainScreen.MainActivity.OnAddClicked | app/src/main/java/com/snhu/cs360/inventoryapp/MainActivity.java:193-200 | the row's cell becomes q + 1 and that value is written under the item's name |
| MainScreen.MainActivity.OnSubtractClicked | app/src/main/java/com/snhu/cs360/inventoryapp/MainActivity.java:211-221 | acts only when q > 0, writing q - 1 and alerting iff that is 0; otherwise nothing changes; the cell never goes negative |
| Hex.Unsigned | app/src/main/java/com/snhu/cs360/inventoryapp/LoginDatabaseHelper.java:109 | `%x` prints a signed byte as its unsigned value in 0..255, congruent to the byte modulo 256 |
| Hex.FormatByte | app/src/main/java/com/snhu/cs360/inventoryapp/LoginDatabaseHelper.java:109 | two lower-case hex digits whose value is the unsigned byte |
| Hex.ParseFormatByte | app/src/main/java/com/snhu/cs360/inventoryapp/LoginDatabaseHelper.java:109 | reading the two digits back gives the original byte |
| Hex.Encode | app/src/main/java/com/snhu/cs360/inventoryapp/LoginDatabaseHelper.java:107-110 | the rendering is twice as long as the digest and uses only 0-9a-f |
| Hex.EncodeAt | app/src/main/java/com/snhu/cs360/inventoryapp/LoginDatabaseHelper.java:107-110 | byte i is rendered at characters 2i and 2i+1, in byte order |
| Hex.DecodeEncode | app/src/main/java/com/snhu/cs360/inventoryapp/LoginDatabaseHelper.java:107-110 | decoding the digit pairs recovers the digest bytes |
| Hex.EncodeInjective | app/src/main/java/com/snhu/cs360/inventoryapp/LoginDatabaseHelper.java:107-110 | different digests never render to the same string |
| Hex.ToHexString | app/src/main/java/com/snhu/cs360/inventoryapp/LoginDatabaseHelper.java:107-111 | the append loop produces exactly the rendering of the digest |
| LoginDb.UsersNamed | app/src/main/java/com/snhu/cs360/inventoryapp/LoginDatabaseHelper.java:88-91 | exactly the rows whose username equals the given one |
| LoginDb.UsersNamedFirstStable | app/src/main/java/com/snhu/cs360/inventoryapp/LoginDatabaseHelper.java:88-91 | rows appended later never change which row the query finds first |
| LoginDb.UsersNamedNone | app/src/main/java/com/snhu/cs360/inventoryapp/LoginDatabaseHelper.java:88-91 | a username with no row finds nothing |
| LoginDb.UsersNamedAppendOther | app/src/main/java/com/snhu/cs360/inventoryapp/LoginDatabaseHelper.java:88-91 | appending rows with other usernames does not change the query's result |
| LoginDb.LoginDatabaseHelper.constructor | app/src/main/java/com/snhu/cs360/inventoryapp/LoginDatabaseHelper.java:39-45 | a newly created users table is empty |
| LoginDb.LoginDatabaseHelper.HashPassword | app/src/main/java/com/snhu/cs360/inventoryapp/LoginDatabaseHelper.java:103-115 | the hexadecimal rendering of the password's digest: 64 lower-case hex digits |
| LoginDb.LoginDatabaseHelper.AddUser | app/src/main/java/com/snhu/cs360/inventoryapp/LoginDatabaseHelper.java:71-79 | appends one row whose password column is the hash, never the plaintext; every stored password stays a 64-digit hash |
| LoginDb.LoginDatabaseHelper.GetUser | app/src/main/java/com/snhu/cs360/inventoryapp/LoginDatabaseHelper.java:88-92 | exactly the rows with that username, in table order |
| LoginDb.LoginDatabaseHelper.Count | app/src/main/java/com/snhu/cs360/inventoryapp/LoginActivity.java:74-79 | the row count is zero iff the table is empty |
| PasswordLogin.UnknownUserRejected | app/src/main/java/com/snhu/cs360/inventoryapp/LoginActivity.java:92-100 | a username with no row never authenticates |
| PasswordLogin.NewUserAuthenticates | app/src/main/java/com/snhu/cs360/inventoryapp/LoginActivity.java:92-96 | a user added under a new name authenticates with the password it was added with |
| PasswordLogin.WrongPasswordRejected | app/src/main/java/com/snhu/cs360/inventoryapp/LoginActivity.java:92-96 | a password whose digest differs from the stored one is rejected |
| PasswordLogin.DuplicateUsernameIgnored | app/src/main/java/com/snhu/cs360/inventoryapp/LoginActivity.java:93-96 | only the first row of a username counts, so a later duplicate changes no login |
| PasswordLogin.OtherUserKeepsLogin | app/src/main/java/com/snhu/cs360/inventoryapp/LoginActivity.java:93-96 | adding a user under another name changes no existing login |
| PasswordLogin.LoginActivity.IsFirstTimeSetup | app/src/main/java/com/snhu/cs360/inventoryapp/LoginActivity.java:73-82 | true iff the users table has no rows |
| PasswordLogin.LoginActivity.AuthenticateUser | app/src/main/java/com/snhu/cs360/inventoryapp/LoginActivity.java:92-100 | true iff a row for the username exists and the first such row stores the hash of the password |
| PasswordLogin.LoginActivity.OnCreate | app/src/main/java/com/snhu/cs360/inventoryapp/LoginActivity.java:45-48 | on an empty table exactly the admin row is added and admin/admin123 then authenticates; a non-empty table is untouched; afterwards the table is non-empty |
| PasswordLogin.LoginActivity.LoginUser | app/src/main/java/com/snhu/cs360/inventoryapp/LoginActivity.java:110-115 | `is_logged_in` becomes true and other entries are kept |
| PasswordLogin.LoginActivity.OnLoginClicked | app/src/main/java/com/snhu/cs360/inventoryapp/LoginActivity.java:51-62 | the session is marked logged in iff the credentials authenticate; on failure it is unchanged |
| Registration.Validate | app/src/main/java/com/snhu/cs360/inventoryapp/auth/LoginActivity.java:160-176 | an empty field is reported first, then a malformed e-mail, then a password shorter than 8 UTF-16 code units; registration is requested iff all pass, with the inputs unmodified |
| Registration.MinimumLengthAccepted | app/src/main/java/com/snhu/cs360/inventoryapp/auth/LoginActivity.java:171-174 | a password of exactly 8 UTF-16 code units passes the length check |
| Registration.SupplementaryPasswordAccepted | app/src/main/java/com/snhu/cs360/inventoryapp/auth/LoginActivity.java:171-174 | four characters above U+FFFF count as 8 units, as Java's `length()` counts them, so the password passes |
| Registration.EmptyFieldReportedFirst | app/src/main/java/com/snhu/cs360/inventoryapp/auth/LoginActivity.java:161-164 | an empty e-mail or password is reported whatever the other field holds |
| Registration.LoginActivity.OnRegisterConfirmed | app/src/main/java/com/snhu/cs360/inventoryapp/auth/LoginActivity.java:158-178 | the outcome is the validation result and an account is requested iff it is accepted |
| Registration.LoginActivity.Login | app/src/main/java/com/snhu/cs360/inventoryapp/auth/LoginActivity.java:101-106 | `is_logged_in` becomes true and other entries are kept |
| Registration.LoginActivity.OnSignInComplete | app/src/main/java/com/snhu/cs360/inventoryapp/auth/LoginActivity.java:77-86 | the session is marked logged in iff the sign-in succeeded and there is a current user; otherwise it is unchanged |

## Left out

- SHA-256 itself and `String.getBytes` are not modelled. The digest is an uninterpreted function of the password string, assumed only to return 32 bytes.
- `Patterns.EMAIL_ADDRESS` is not modelled. It is a predicate passed to the registration check.
- `Integer.parseInt` on the edit dialog's quantity text is a given `Option`: None when the text is not a number.
- ListAdapter.ListAdapter.OnSaveEdit: the saved tag is the tag field's view tag object as text, given as an `Option`. What that object holds is not modelled.
- The getters are not modelled as separate members. The model reads the fields directly.
- The no-argument `InventoryItem` constructor is not modelled: it exists for deserialisation only.
- Strings other than the item id are never null in the model.
- Inventory.CompareIgnoreCaseMeaning: case folding covers ASCII letters only, while Java's `compareToIgnoreCase` also folds non-ASCII letters.
- Inventory.CompareIgnoreCase: characters and lengths are compared as Unicode code points, while Java compares UTF-16 code units. Names holding characters above U+FFFF can therefore compare with a different magnitude, and against characters from U+E000 to U+FFFF with a different sign. For example, U+E000 against U+1F600 is positive in Java and negative here. The sort order of such names differs accordingly. SQLite's built-in `LIKE` folds ASCII letters only, so the search model folds exactly as SQLite does.
- `LIKE` wildcards typed by the user are matched. The `ESCAPE` clause is not modelled, because the query does not use one.
- Inventory.SortByNameCorrect does not state that `List.sort` is stable. Both `List.sort` and the insertion sort in `SortByName` keep input order among names that differ only in case; the contract leaves that order open.
- RemoteStore.ItemStore.UpdateItem: a null id, which throws at `child(itemId)` in the source, is rendered as a normal return that writes nothing.
- RemoteStore.ItemStore.DeleteItem: a null id, which throws at `child(itemId)` in the source, is rendered as a normal return that writes nothing.
- `populateGridWithInventoryItems` is not modelled. It calls a `getAllItems` method and reads a `quantity` column, and the inventory helper defines neither. Only its two button handlers are modelled, on a one-element array cell.
- `showAddItemDialog` is not modelled. It calls a two-argument `addItem` that the inventory helper does not define.
- Notification channels, notification posting, SMS sending and the permission-result toasts are not modelled. An alert is recorded as the item's name appended to `alerts`.
- ListAdapter.ListAdapter.OnAddClicked: for an item without an id, the store write throws a null-key exception after the quantity has changed. The model ends the handler normally at that point, with the quantity changed and nothing written. The exception itself is not represented.
- ListAdapter.ListAdapter.OnSubtractClicked: the same holds for a positive quantity on an item without an id.
- `fetchItems`, the remote store's listeners and failure callbacks are not modelled, nor is the time at which remote writes complete. A write takes effect at once.
- Firebase Auth sign-in and account creation are not modelled. They are reduced to the request log and the completion's two booleans.
- Any constraint on the remote store's key paths is not modelled: any string is a valid key.
- Views, layouts, toasts, dialogs, toolbars, intents, `finish()`, RecyclerView change notifications and the list/grid layout choice are not modelled.
- Opening and closing SQLite connections is not modelled. The `null` cursor branch of the row count is not modelled either, because `rawQuery` never returns null. Exceptions caught and printed around inserts and updates are not modelled.
- `onCreate`/`onUpgrade` of the users table are not modelled. The model starts from an empty users table.
- The result order of `SELECT` without `ORDER BY` is not specified by SQLite. The model returns rows in insertion order.
- The adapter tests construct items with a five-argument constructor that `InventoryItem.java` does not have. The scenario uses the four-argument one.
