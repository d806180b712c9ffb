# Shared shopping list: worksheet data-access layer

This project models the data layer of a small shared shopping list, a
Streamlit page backed by a Google spreadsheet. The spreadsheet has two
worksheets. "Shopping List" has the columns `item, qty, unit, tab` and
"Notes" has `note, tab`. Row 1 of each worksheet is the header, so the data
record at 0-based index `k` sits at sheet row `k + 2`. The `tab` column says
which store ("Sedanos", "Martinez", "Farmacia") a row belongs to.

What is modelled:

- `save_item` is an upsert by linear scan. It finds the first row of the same
  store whose item name is equal when both are lower-cased. It overwrites that
  row with the new values, or appends a row when there is none.
- `save_note` inserts a note unless the store already has it, compared the
  same way. The duplicate case returns early and does not clear the cache.
- `delete_item` / `delete_note` remove one row by its sheet row number. Later
  rows move up.
- The per-store listings pair every record of a store with its sheet row.
  The delete buttons pass these positions back.
- The worksheet (`Sheets.Worksheet`) is a class over a `seq` of records. Its
  four operations, read all records, overwrite, append and delete, stand for
  the spreadsheet service's calls by their effect on that sequence.
- The function cache (`ShoppingList.RecordCache`) has one slot per worksheet.
  Every successful change clears both slots.

Structure: `wrappers.dfy` (Option), `text.dfy` (case folding),
`records.dfy` (generic scan, listing and positional delete on a sequence of
records), `sheets.dfy` (the worksheet class), `shopping_list.dfy` (row types,
cache, the four operations, listings and their properties).

Two details of the code are kept:
- `save_note` returns before clearing the cache when the note already exists
  (line 64), and `SaveNote` models that.
- `save_item`/`save_note` read the worksheet directly (lines 44, 61), not
  through the cache.

## Model

| member | source | states |
|---|---|---|
| `Text.Lower` | app_with_google_sheets.py:46 | lowering keeps the length, maps each character through the ASCII fold, and leaves no upper-case ASCII letter |
| `Text.LowerIdempotent` | app_with_google_sheets.py:46 | lowering a lowered name changes nothing |
| `Text.EqualFoldLower` | app_with_google_sheets.py:46 | a name and its lowered form compare equal |
| `Records.FirstMatch` | app_with_google_sheets.py:45-50 | the scan with early exit returns the least index whose record matches; it returns none exactly when no record matches |
| `Records.ListWhere` | app_with_google_sheets.py:89-92 | the `enumerate(..., start)` filter; its contract is stated by `ListWhereSound`, `ListWhereComplete` and `ListWhereOrdered` |
| `Records.ListWhereSound` | app_with_google_sheets.py:89-92 | every entry of an `enumerate(..., start)` filter is a kept record at the position it claims |
| `Records.ListWhereComplete` | app_with_google_sheets.py:89-92 | every kept record is listed with its own position |
| `Records.ListWhereOrdered` | app_with_google_sheets.py:89-92 | entries are in sheet order (positions strictly increase) |
| `Records.Deleted` | app_with_google_sheets.py:55-56 | deleting sheet row `p` shortens the records by one; earlier records keep their index and later ones move up by one |
| `Records.DeletedRemovesOne` | app_with_google_sheets.py:55-56 | the records after the delete, plus the deleted record, are the records before it (as multisets) |
| `Records.DeletedListed` | app_with_google_sheets.py:101-107 | a listed position is a data row, and deleting it removes exactly the listed record |
| `Records.ListWhereDeleted` | app_with_google_sheets.py:89-92 | a listing after deleting index `k` equals the old listing with that entry dropped and later positions lowered by one |
| `Records.ListWhereUpdate` | app_with_google_sheets.py:48 | overwriting an unlisted record with an unlisted one keeps the listing |
| `Records.ListWhereAppend` | app_with_google_sheets.py:52 | appending adds at most one entry, at the end, at the new last sheet row |
| `Sheets.Worksheet.GetAllRecords` | app_with_google_sheets.py:44 | returns the data records in sheet order |
| `Sheets.Worksheet.Update` | app_with_google_sheets.py:48 | overwrites exactly the record at the given sheet row |
| `Sheets.Worksheet.AppendRow` | app_with_google_sheets.py:52 | adds exactly one record at the end |
| `Sheets.Worksheet.DeleteRows` | app_with_google_sheets.py:56 | succeeds exactly for a data row and then removes that record; otherwise nothing changes |
| `ShoppingList.SameItem` | app_with_google_sheets.py:46 | the match test of the item scan: same tab, and item names equal once lowered |
| `ShoppingList.SameNote` | app_with_google_sheets.py:63 | the match test of the note scan: same tab, and notes equal once lowered |
| `ShoppingList.SavedItem` | app_with_google_sheets.py:42-53 | if some record is the first one holding the item in that store (case-insensitive), only that record is overwritten with `[item, qty, unit, tab]`; if none holds it, that row is appended |
| `ShoppingList.SavedNote` | app_with_google_sheets.py:59-66 | an existing note of that store (case-insensitive) leaves the records unchanged; otherwise `[note, tab]` is appended |
| `ShoppingList.StoreItems` | app_with_google_sheets.py:89-92 | the items of one store with their sheet rows; its contract is stated by `StoreItemsCorrect` |
| `ShoppingList.StoreNotes` | app_with_google_sheets.py:119-122 | the notes of one store with their sheet rows; its contract is stated by `StoreNotesCorrect` |
| `ShoppingList.StoreItemsCorrect` | app_with_google_sheets.py:89-92 | every listed `(i, row)` has `rows[i-2] == row` and the store's tab; every record of the store is listed; the listing is in sheet order |
| `ShoppingList.StoreNotesCorrect` | app_with_google_sheets.py:119-122 | the same for the notes listing |
| `ShoppingList.RecordCache.LoadItems` | app_with_google_sheets.py:34-36 | returns the cached records, or reads the worksheet and caches them when the slot is empty |
| `ShoppingList.RecordCache.LoadNotes` | app_with_google_sheets.py:38-40 | the same for notes |
| `ShoppingList.RecordCache.Clear` | app_with_google_sheets.py:49 | empties both cache slots |
| `ShoppingList.SaveItem` | app_with_google_sheets.py:42-53 | the loop leaves the worksheet equal to `SavedItem` of the old records and clears the cache |
| `ShoppingList.DeleteItem` | app_with_google_sheets.py:55-57 | a data row is deleted and the cache cleared; any other position changes nothing |
| `ShoppingList.SaveNote` | app_with_google_sheets.py:59-66 | the loop leaves the worksheet equal to `SavedNote` of the old records; the cache is cleared only when a note was appended |
| `ShoppingList.DeleteNote` | app_with_google_sheets.py:68-70 | the same as `DeleteItem`, for notes |
| `ShoppingList.SavedItemFoldsCase` | app_with_google_sheets.py:45-52 | saving `b` after `a`, equal once lowered, gives the same records as saving `b` alone |
| `ShoppingList.SavedItemIdempotent` | app_with_google_sheets.py:45-52 | saving the same item twice equals saving it once |
| `ShoppingList.SavedItemOverwritesFolded` | app_with_google_sheets.py:46-48 | the second of two case-equal saves overwrites the row the first one wrote, taking the new casing |
| `ShoppingList.SavedItemLimon` | app_with_google_sheets.py:46-48 | saving "limon" after "Limon" in Sedanos keeps the length and turns the "Limon" row into the "limon" row |
| `ShoppingList.SavedItemKeepsUnique` | app_with_google_sheets.py:45-52 | saving keeps item names unique (case-insensitive) within each store |
| `ShoppingList.SavedItemSingleEntry` | app_with_google_sheets.py:45-52 | from unique records, after saving exactly one record holds the item in its store, with the saved values |
| `ShoppingList.SavedItemIsolatesTabs` | app_with_google_sheets.py:45-52 | saving for store T leaves the listing of every other store unchanged |
| `ShoppingList.SavedItemListed` | app_with_google_sheets.py:52 | after saving, the store's listing shows the saved row |
| `ShoppingList.DeletedKeepsUniqueItems` | app_with_google_sheets.py:55-56 | deleting a row keeps item names unique (case-insensitive) within each store |
| `ShoppingList.DeletedKeepsUniqueNotes` | app_with_google_sheets.py:68-69 | deleting a row keeps notes unique (case-insensitive) within each store |
| `ShoppingList.SavedNoteFoldsCase` | app_with_google_sheets.py:62-65 | saving a note equal once lowered to one just saved changes nothing |
| `ShoppingList.SavedNoteIdempotent` | app_with_google_sheets.py:62-65 | saving the same note twice equals saving it once |
| `ShoppingList.SavedNoteKeepsUnique` | app_with_google_sheets.py:62-65 | saving keeps notes unique (case-insensitive) within each store |
| `ShoppingList.SavedNoteIsolatesTabs` | app_with_google_sheets.py:62-65 | saving a note for store T leaves the note listing of every other store unchanged |
| `ShoppingList.StoreItemsAfterDelete` | app_with_google_sheets.py:106-107 | after deleting sheet row `p`, every store's listing loses the entry at `p` and later positions drop by one |
| `ShoppingList.StoreNotesAfterDelete` | app_with_google_sheets.py:128-129 | the same for note listings |
| `ShoppingList.DeleteListedItem` | app_with_google_sheets.py:101-107 | a position from a store's listing is a data row, and deleting it removes exactly that record |
| `ShoppingList.DeleteListedNote` | app_with_google_sheets.py:125-129 | the same for notes |
| `ShoppingList.DeleteMiddleItem` | app_with_google_sheets.py:89-107 | A, B, C listed at rows 2, 3, 4; deleting row 3 lists A at 2 and C at 3 |
| `ShoppingList.SavedThreeItems` | app_with_google_sheets.py:51-52 | three differently named saves into one store of an empty sheet append in order |
| `ShoppingList.AddThreeDeleteMiddle` | app_with_google_sheets.py:150-154 | adding three items, deleting the middle one through its listed position and listing again yields the other two at rows 2 and 3 |

## Left out

- Credentials, client authorisation and opening the two worksheets (lines 8-20) are I/O. Worksheets are created empty or from given records.
- The Streamlit page (lines 75-168) is left out: titles, tabs, columns, forms, buttons, messages, `st.rerun`. Two details of it are kept. The callers only save a non-empty item or note (lines 151, 165), which is a precondition of `SaveItem` and `SaveNote`. Deletes receive positions taken from a listing.
- `Text.Lower`: folds only the ASCII letters A-Z. Python's `str.lower` folds all of Unicode, so names that differ only in the case of a non-ASCII letter (such as "Á" and "á") match in the application but not in the model.
- The cache's 60-second expiry is not modelled, since it runs on a clock. A slot stays filled until a clear, whereas the real cache may also drop it on expiry.
- The spreadsheet service's parsing of header names into keys is not modelled. Its conversion of numeric-looking cells is not modelled either; for example, an item named "7" is read back as a number, and `.lower()` then raises. Records are typed values; `qty` is an integer.
- The `A{i}:D{i}` range string is modelled only as "overwrite row i".
- `Sheets.Worksheet.Update` requires a data row. The code only calls it with a row found by the scan.
- `Sheets.Worksheet.DeleteRows`: position 1 (the header) and positions past the last record are refused with nothing changed. The service would instead delete the header, delete a blank grid row below the data, or raise an error for a position beyond the grid.
- `ShoppingList.DeleteItem`, `ShoppingList.DeleteNote`: for a refused position the cache is left unchanged. The code clears the cache whenever `delete_rows` returns without error (lines 57, 70), so for the header row or a blank grid row below the data it clears the cache where the model does not. The page itself only passes listed positions.
- Network and service failures, and the exceptions they raise, are not modelled.
- Several sessions editing at once are not modelled, nor positions made stale by another session's delete.
- The `min_value=1` quantity bound and the 100-character note limit are enforced by widgets and are not modelled.
