/**
 * The data-access layer of the shared shopping list: two worksheets
 * ("Shopping List" with columns item, qty, unit, tab and "Notes" with columns
 * note, tab), a cache of their records, upsert and insert-if-absent by linear
 * scan, positional delete, and the per-store listings the page shows.
 */
module ShoppingList {

  import opened Wrappers
  import opened Text
  import opened Records
  import opened Sheets

  /** One record of the "Shopping List" worksheet. */
  datatype ItemRow = ItemRow(item: string, qty: int, unit: string, tab: string)

  /** One record of the "Notes" worksheet. */
  datatype NoteRow = NoteRow(note: string, tab: string)

  // ---------------------------------------------------------------------
  // Matching
  // ---------------------------------------------------------------------

  /** The record holds `item` in store `tab`, the name compared case-insensitively. */
  predicate SameItem(r: ItemRow, item: string, tab: string)
  {
    r.tab == tab && EqualFold(r.item, item)
  }

  predicate SameNote(r: NoteRow, note: string, tab: string)
  {
    r.tab == tab && EqualFold(r.note, note)
  }

  function ItemMatcher(item: string, tab: string): ItemRow -> bool
  {
    r => SameItem(r, item, tab)
  }

  function NoteMatcher(note: string, tab: string): NoteRow -> bool
  {
    r => SameNote(r, note, tab)
  }

  /** `k` is the first record that holds `item` in `tab`. */
  predicate IsFirstItem(rows: seq<ItemRow>, item: string, tab: string, k: int)
  {
    0 <= k < |rows| && SameItem(rows[k], item, tab)
    && forall j :: 0 <= j < k ==> !SameItem(rows[j], item, tab)
  }

  predicate HasItem(rows: seq<ItemRow>, item: string, tab: string)
  {
    exists k :: 0 <= k < |rows| && SameItem(rows[k], item, tab)
  }

  predicate HasNote(rows: seq<NoteRow>, note: string, tab: string)
  {
    exists k :: 0 <= k < |rows| && SameNote(rows[k], note, tab)
  }

  /** Within one store, no two records hold the same item name. */
  predicate UniqueItems(rows: seq<ItemRow>)
  {
    forall i, j :: 0 <= i < j < |rows| && rows[i].tab == rows[j].tab ==> !EqualFold(rows[i].item, rows[j].item)
  }

  /** Within one store, no two records hold the same note. */
  predicate UniqueNotes(rows: seq<NoteRow>)
  {
    forall i, j :: 0 <= i < j < |rows| && rows[i].tab == rows[j].tab ==> !EqualFold(rows[i].note, rows[j].note)
  }

  // ---------------------------------------------------------------------
  // What each operation does to the records
  // ---------------------------------------------------------------------

  /**
   * The item records after saving `item`: the first record that holds the
   * item in `tab` is overwritten with the new values; when there is none the
   * new record is appended.
   */
  function SavedItem(rows: seq<ItemRow>, item: string, qty: int, unit: string, tab: string): (r: seq<ItemRow>)
    ensures forall k :: IsFirstItem(rows, item, tab, k) ==> r == rows[k := ItemRow(item, qty, unit, tab)]
    ensures !HasItem(rows, item, tab) ==> r == rows + [ItemRow(item, qty, unit, tab)]
  {
    var row := ItemRow(item, qty, unit, tab);
    match FirstMatch(rows, ItemMatcher(item, tab))
    case Some(k) => rows[k := row]
    case None => rows + [row]
  }

  /**
   * The note records after saving `note`: unchanged when the store already
   * has the note, otherwise the note appended.
   */
  function SavedNote(rows: seq<NoteRow>, note: string, tab: string): (r: seq<NoteRow>)
    ensures HasNote(rows, note, tab) ==> r == rows
    ensures !HasNote(rows, note, tab) ==> r == rows + [NoteRow(note, tab)]
  {
    if FirstMatch(rows, NoteMatcher(note, tab)).Some? then rows else rows + [NoteRow(note, tab)]
  }

  function ItemOnTab(store: string): ItemRow -> bool
  {
    (r: ItemRow) => r.tab == store
  }

  function NoteOnTab(store: string): NoteRow -> bool
  {
    (r: NoteRow) => r.tab == store
  }

  /** The items of one store, each with the sheet row its delete button passes back. */
  function StoreItems(rows: seq<ItemRow>, store: string): seq<Listed<ItemRow>>
  {
    ListWhere(rows, ItemOnTab(store), FIRST_DATA_ROW)
  }

  /**
   * Every entry of a store's listing is a record of that store at the sheet
   * row it claims; every record of the store is listed; entries are in sheet order.
   */
  lemma StoreItemsCorrect(rows: seq<ItemRow>, store: string)
    ensures forall e :: e in StoreItems(rows, store) ==>
      IsDataPosition(|rows|, e.position) && rows[e.position - FIRST_DATA_ROW] == e.row && e.row.tab == store
    ensures forall k :: 0 <= k < |rows| && rows[k].tab == store ==> Listed(Position(k), rows[k]) in StoreItems(rows, store)
    ensures forall i, j :: 0 <= i < j < |StoreItems(rows, store)| ==>
      StoreItems(rows, store)[i].position < StoreItems(rows, store)[j].position
  {
    ListWhereSound(rows, ItemOnTab(store), FIRST_DATA_ROW);
    ListWhereComplete(rows, ItemOnTab(store), FIRST_DATA_ROW);
    ListWhereOrdered(rows, ItemOnTab(store), FIRST_DATA_ROW);
  }

  /** The notes of one store, each with the sheet row its delete button passes back. */
  function StoreNotes(rows: seq<NoteRow>, store: string): seq<Listed<NoteRow>>
  {
    ListWhere(rows, NoteOnTab(store), FIRST_DATA_ROW)
  }

  /**
   * Every entry of a store's listing is a record of that store at the sheet
   * row it claims; every record of the store is listed; entries are in sheet order.
   */
  lemma StoreNotesCorrect(rows: seq<NoteRow>, store: string)
    ensures forall e :: e in StoreNotes(rows, store) ==>
      IsDataPosition(|rows|, e.position) && rows[e.position - FIRST_DATA_ROW] == e.row && e.row.tab == store
    ensures forall k :: 0 <= k < |rows| && rows[k].tab == store ==> Listed(Position(k), rows[k]) in StoreNotes(rows, store)
    ensures forall i, j :: 0 <= i < j < |StoreNotes(rows, store)| ==>
      StoreNotes(rows, store)[i].position < StoreNotes(rows, store)[j].position
  {
    ListWhereSound(rows, NoteOnTab(store), FIRST_DATA_ROW);
    ListWhereComplete(rows, NoteOnTab(store), FIRST_DATA_ROW);
    ListWhereOrdered(rows, NoteOnTab(store), FIRST_DATA_ROW);
  }

  // ---------------------------------------------------------------------
  // The record cache and the operations on the worksheets
  // ---------------------------------------------------------------------

  /**
   * The cached results of reading the two worksheets. Either slot is empty
   * until the first read after a clear; every change to a worksheet clears both.
   */
  class RecordCache {
    var items: Option<seq<ItemRow>>
    var notes: Option<seq<NoteRow>>

    constructor ()
      ensures items == None && notes == None
    {
      items, notes := None, None;
    }

    /** The cached item records, read from the worksheet when the slot is empty. */
    method LoadItems(sheet: Worksheet<ItemRow>) returns (records: seq<ItemRow>)
      modifies this
      ensures old(items).Some? ==> records == old(items).value
      ensures old(items).None? ==> records == sheet.rows
      ensures items == Some(records) && notes == old(notes)
    {
      if items.None? {
        records := sheet.GetAllRecords();
        items := Some(records);
      } else {
        records := items.value;
      }
    }

    /** The cached note records, read from the worksheet when the slot is empty. */
    method LoadNotes(sheet: Worksheet<NoteRow>) returns (records: seq<NoteRow>)
      modifies this
      ensures old(notes).Some? ==> records == old(notes).value
      ensures old(notes).None? ==> records == sheet.rows
      ensures notes == Some(records) && items == old(items)
    {
      if notes.None? {
        records := sheet.GetAllRecords();
        notes := Some(records);
      } else {
        records := notes.value;
      }
    }

    method Clear()
      modifies this
      ensures items == None && notes == None
    {
      items, notes := None, None;
    }
  }

  /**
   * Adds `item` to store `tab`, or, when the store already holds an item of
   * that name in any letter case, overwrites that row with the new values.
   * Reads the worksheet itself, not the cache.
   */
  method SaveItem(sheet: Worksheet<ItemRow>, cache: RecordCache, item: string, qty: int, unit: string, tab: string)
    requires item != ""
    modifies sheet, cache
    ensures sheet.rows == SavedItem(old(sheet.rows), item, qty, unit, tab)
    ensures cache.items == None && cache.notes == None
  {
    var rows := sheet.GetAllRecords();
    var i := FIRST_DATA_ROW;
    while i < |rows| + FIRST_DATA_ROW
      invariant FIRST_DATA_ROW <= i <= |rows| + FIRST_DATA_ROW
      invariant sheet.rows == rows == old(sheet.rows)
      invariant forall j :: 0 <= j < i - FIRST_DATA_ROW ==> !SameItem(rows[j], item, tab)
    {
      var row := rows[i - FIRST_DATA_ROW];
      if row.tab == tab && Lower(row.item) == Lower(item) {
        assert IsFirstItem(rows, item, tab, i - FIRST_DATA_ROW);
        sheet.Update(i, ItemRow(item, qty, unit, tab));
        cache.Clear();
        return;
      }
      i := i + 1;
    }
    sheet.AppendRow(ItemRow(item, qty, unit, tab));
    cache.Clear();
  }

  /**
   * Deletes the item at sheet row `position`. A position that holds no data
   * record is refused (`ok` is false) and neither the worksheet nor the cache changes.
   */
  method DeleteItem(sheet: Worksheet<ItemRow>, cache: RecordCache, position: int) returns (ok: bool)
    modifies sheet, cache
    ensures ok == IsDataPosition(|old(sheet.rows)|, position)
    ensures ok ==> sheet.rows == Deleted(old(sheet.rows), position) && cache.items == None && cache.notes == None
    ensures !ok ==> sheet.rows == old(sheet.rows) && unchanged(cache)
  {
    ok := sheet.DeleteRows(position);
    if ok {
      cache.Clear();
    }
  }

  /**
   * Adds `note` to store `tab` unless the store already has that note in
   * any letter case; in that case nothing changes, not even the cache.
   */
  method SaveNote(sheet: Worksheet<NoteRow>, cache: RecordCache, note: string, tab: string)
    requires note != ""
    modifies sheet, cache
    ensures sheet.rows == SavedNote(old(sheet.rows), note, tab)
    ensures HasNote(old(sheet.rows), note, tab) ==> unchanged(cache)
    ensures !HasNote(old(sheet.rows), note, tab) ==> cache.items == None && cache.notes == None
  {
    var rows := sheet.GetAllRecords();
    var i := FIRST_DATA_ROW;
    while i < |rows| + FIRST_DATA_ROW
      invariant FIRST_DATA_ROW <= i <= |rows| + FIRST_DATA_ROW
      invariant sheet.rows == rows == old(sheet.rows)
      invariant unchanged(cache)
      invariant forall j :: 0 <= j < i - FIRST_DATA_ROW ==> !SameNote(rows[j], note, tab)
    {
      var row := rows[i - FIRST_DATA_ROW];
      if row.tab == tab && Lower(row.note) == Lower(note) {
        assert SameNote(rows[i - FIRST_DATA_ROW], note, tab);
        return;
      }
      i := i + 1;
    }
    sheet.AppendRow(NoteRow(note, tab));
    cache.Clear();
  }

  /** Deletes the note at sheet row `position`, refusing a position that holds no data record. */
  method DeleteNote(sheet: Worksheet<NoteRow>, cache: RecordCache, position: int) returns (ok: bool)
    modifies sheet, cache
    ensures ok == IsDataPosition(|old(sheet.rows)|, position)
    ensures ok ==> sheet.rows == Deleted(old(sheet.rows), position) && cache.items == None && cache.notes == None
    ensures !ok ==> sheet.rows == old(sheet.rows) && unchanged(cache)
  {
    ok := sheet.DeleteRows(position);
    if ok {
      cache.Clear();
    }
  }

  // ---------------------------------------------------------------------
  // Properties of saving an item
  // ---------------------------------------------------------------------

  /** Names equal under case folding select the same records. */
  lemma SameItemFolds(r: ItemRow, a: string, b: string, tab: string)
    requires EqualFold(a, b)
    ensures SameItem(r, a, tab) == SameItem(r, b, tab)
  {
  }

  /** Either some record is the first match, or none matches. */
  lemma {:induction false} FirstItemExists(rows: seq<ItemRow>, item: string, tab: string) returns (k: nat)
    requires HasItem(rows, item, tab)
    ensures IsFirstItem(rows, item, tab, k)
  {
    var m := FirstMatch(rows, ItemMatcher(item, tab));
    assert m.Some? by {
      var j :| 0 <= j < |rows| && SameItem(rows[j], item, tab);
      assert ItemMatcher(item, tab)(rows[j]);
    }
    k := m.value;
    forall j | 0 <= j < k ensures !SameItem(rows[j], item, tab) {
      assert !ItemMatcher(item, tab)(rows[j]);
    }
  }

  /**
   * Saving `b` after saving `a`, where `a` and `b` differ only in letter
   * case, gives the same records as saving `b` alone: the second save
   * overwrites the row the first one wrote, and that row takes `b`'s casing.
   */
  lemma {:induction false} SavedItemFoldsCase(rows: seq<ItemRow>, a: string, qa: int, ua: string,
                                              b: string, qb: int, ub: string, tab: string)
    requires EqualFold(a, b)
    ensures SavedItem(SavedItem(rows, a, qa, ua, tab), b, qb, ub, tab) == SavedItem(rows, b, qb, ub, tab)
  {
    var rowA, rowB := ItemRow(a, qa, ua, tab), ItemRow(b, qb, ub, tab);
    var s1 := SavedItem(rows, a, qa, ua, tab);
    forall r: ItemRow ensures SameItem(r, a, tab) == SameItem(r, b, tab) {
      SameItemFolds(r, a, b, tab);
    }
    if HasItem(rows, a, tab) {
      var k := FirstItemExists(rows, a, tab);
      assert s1 == rows[k := rowA];
      assert IsFirstItem(rows, b, tab, k);
      assert IsFirstItem(s1, b, tab, k);
      assert s1[k := rowB] == rows[k := rowB];
    } else {
      assert !HasItem(rows, b, tab);
      assert s1 == rows + [rowA];
      assert IsFirstItem(s1, b, tab, |rows|);
      assert s1[|rows| := rowB] == rows + [rowB];
    }
  }

  /** Saving the same item twice gives the same records as saving it once. */
  lemma SavedItemIdempotent(rows: seq<ItemRow>, item: string, qty: int, unit: string, tab: string)
    ensures SavedItem(SavedItem(rows, item, qty, unit, tab), item, qty, unit, tab)
         == SavedItem(rows, item, qty, unit, tab)
  {
    SavedItemFoldsCase(rows, item, qty, unit, item, qty, unit, tab);
  }

  /**
   * Saving `b` after `a`, equal under case folding, does not add a row: it
   * overwrites the row the first save wrote.
   */
  lemma SavedItemOverwritesFolded(rows: seq<ItemRow>, a: string, qa: int, ua: string,
                                  b: string, qb: int, ub: string, tab: string)
    requires EqualFold(a, b)
    ensures var once := SavedItem(rows, a, qa, ua, tab);
      exists k :: 0 <= k < |once| && once[k] == ItemRow(a, qa, ua, tab)
        && SavedItem(once, b, qb, ub, tab) == once[k := ItemRow(b, qb, ub, tab)]
  {
    var once := SavedItem(rows, a, qa, ua, tab);
    forall r: ItemRow ensures SameItem(r, a, tab) == SameItem(r, b, tab) {
      SameItemFolds(r, a, b, tab);
    }
    var k;
    if HasItem(rows, a, tab) {
      k := FirstItemExists(rows, a, tab);
    } else {
      k := |rows|;
    }
    assert IsFirstItem(once, b, tab, k);
  }

  /** A fact about two string literals, used by `SavedItemLimon`. */
  lemma LimonFolds()
    ensures EqualFold("Limon", "limon")
  {
    assert forall i | 0 <= i < 5 :: LowerChar("Limon"[i]) == LowerChar("limon"[i]);
  }

  /**
   * Saving "limon" after "Limon" in the same store does not grow the sheet;
   * the stored name takes the new casing.
   */
  lemma SavedItemLimon(rows: seq<ItemRow>)
    ensures var once := SavedItem(rows, "Limon", 1, "", "Sedanos");
      var twice := SavedItem(once, "limon", 2, "kg", "Sedanos");
      |twice| == |once|
      && exists k :: 0 <= k < |once| && once[k].item == "Limon" && twice == once[k := ItemRow("limon", 2, "kg", "Sedanos")]
  {
    LimonFolds();
    SavedItemOverwritesFolded(rows, "Limon", 1, "", "limon", 2, "kg", "Sedanos");
  }

  /** Saving an item keeps every store free of duplicate item names. */
  lemma SavedItemKeepsUnique(rows: seq<ItemRow>, item: string, qty: int, unit: string, tab: string)
    requires UniqueItems(rows)
    ensures UniqueItems(SavedItem(rows, item, qty, unit, tab))
  {
    var s := SavedItem(rows, item, qty, unit, tab);
    if HasItem(rows, item, tab) {
      var k := FirstItemExists(rows, item, tab);
      forall i, j | 0 <= i < j < |s| && s[i].tab == s[j].tab ensures !EqualFold(s[i].item, s[j].item) {
        assert i != k ==> s[i] == rows[i];
        assert j != k ==> s[j] == rows[j];
      }
    } else {
      forall i, j | 0 <= i < j < |s| && s[i].tab == s[j].tab ensures !EqualFold(s[i].item, s[j].item) {
        if j == |rows| {
          assert !SameItem(rows[i], item, tab);
        }
      }
    }
  }

  /**
   * With no duplicates to begin with, after saving an item exactly one
   * record holds it in its store, and that record carries the saved values.
   */
  lemma SavedItemSingleEntry(rows: seq<ItemRow>, item: string, qty: int, unit: string, tab: string)
    requires UniqueItems(rows)
    ensures var s := SavedItem(rows, item, qty, unit, tab);
      exists k :: 0 <= k < |s| && s[k] == ItemRow(item, qty, unit, tab)
        && forall j :: 0 <= j < |s| && j != k ==> !SameItem(s[j], item, tab)
  {
    var s := SavedItem(rows, item, qty, unit, tab);
    SavedItemKeepsUnique(rows, item, qty, unit, tab);
    var k;
    if HasItem(rows, item, tab) {
      k := FirstItemExists(rows, item, tab);
    } else {
      k := |rows|;
    }
    assert s[k] == ItemRow(item, qty, unit, tab);
    forall j | 0 <= j < |s| && j != k ensures !SameItem(s[j], item, tab) { }
  }

  /** Saving an item for store `tab` leaves the listing of every other store as it was. */
  lemma SavedItemIsolatesTabs(rows: seq<ItemRow>, item: string, qty: int, unit: string, tab: string, store: string)
    requires store != tab
    ensures StoreItems(SavedItem(rows, item, qty, unit, tab), store) == StoreItems(rows, store)
  {
    var row := ItemRow(item, qty, unit, tab);
    if HasItem(rows, item, tab) {
      var k := FirstItemExists(rows, item, tab);
      ListWhereUpdate(rows, ItemOnTab(store), FIRST_DATA_ROW, k, row);
    } else {
      ListWhereAppend(rows, ItemOnTab(store), FIRST_DATA_ROW, row);
    }
  }

  /** After saving, the store's listing shows the saved values. */
  lemma SavedItemListed(rows: seq<ItemRow>, item: string, qty: int, unit: string, tab: string)
    ensures exists p :: Listed(p, ItemRow(item, qty, unit, tab)) in StoreItems(SavedItem(rows, item, qty, unit, tab), tab)
  {
    var s := SavedItem(rows, item, qty, unit, tab);
    var k;
    if HasItem(rows, item, tab) {
      k := FirstItemExists(rows, item, tab);
    } else {
      k := |rows|;
    }
    assert s[k] == ItemRow(item, qty, unit, tab);
    StoreItemsCorrect(s, tab);
    assert Listed(Position(k), s[k]) in StoreItems(s, tab);
  }

  // ---------------------------------------------------------------------
  // Properties of saving a note
  // ---------------------------------------------------------------------

  /**
   * A note that is already there, in any letter case, is not added again:
   * saving `b` after `a`, equal under case folding, changes nothing more.
   */
  lemma SavedNoteFoldsCase(rows: seq<NoteRow>, a: string, b: string, tab: string)
    requires EqualFold(a, b)
    ensures SavedNote(SavedNote(rows, a, tab), b, tab) == SavedNote(rows, a, tab)
  {
    var s1 := SavedNote(rows, a, tab);
    if !HasNote(rows, a, tab) {
      assert SameNote(s1[|rows|], b, tab);
    } else {
      var k :| 0 <= k < |rows| && SameNote(rows[k], a, tab);
      assert SameNote(rows[k], b, tab);
    }
  }

  /** Saving the same note twice gives the same records as saving it once. */
  lemma SavedNoteIdempotent(rows: seq<NoteRow>, note: string, tab: string)
    ensures SavedNote(SavedNote(rows, note, tab), note, tab) == SavedNote(rows, note, tab)
  {
    SavedNoteFoldsCase(rows, note, note, tab);
  }

  /** Saving a note keeps every store free of duplicate notes. */
  lemma SavedNoteKeepsUnique(rows: seq<NoteRow>, note: string, tab: string)
    requires UniqueNotes(rows)
    ensures UniqueNotes(SavedNote(rows, note, tab))
  {
    var s := SavedNote(rows, note, tab);
    if !HasNote(rows, note, tab) {
      forall i, j | 0 <= i < j < |s| && s[i].tab == s[j].tab ensures !EqualFold(s[i].note, s[j].note) {
        if j == |rows| {
          assert !SameNote(rows[i], note, tab);
        }
      }
    }
  }

  /** Saving a note for store `tab` leaves the note listing of every other store as it was. */
  lemma SavedNoteIsolatesTabs(rows: seq<NoteRow>, note: string, tab: string, store: string)
    requires store != tab
    ensures StoreNotes(SavedNote(rows, note, tab), store) == StoreNotes(rows, store)
  {
    if !HasNote(rows, note, tab) {
      ListWhereAppend(rows, NoteOnTab(store), FIRST_DATA_ROW, NoteRow(note, tab));
    }
  }

  // ---------------------------------------------------------------------
  // Properties of deleting by sheet row
  // ---------------------------------------------------------------------

  /** Deleting a row keeps every store free of duplicate item names. */
  lemma DeletedKeepsUniqueItems(rows: seq<ItemRow>, p: nat)
    requires IsDataPosition(|rows|, p) && UniqueItems(rows)
    ensures UniqueItems(Deleted(rows, p))
  {
    var s, k := Deleted(rows, p), p - FIRST_DATA_ROW;
    forall i, j | 0 <= i < j < |s| && s[i].tab == s[j].tab ensures !EqualFold(s[i].item, s[j].item) {
      var i', j' := if i < k then i else i + 1, if j < k then j else j + 1;
      assert s[i] == rows[i'] && s[j] == rows[j'] && i' < j';
    }
  }

  /** Deleting a row keeps every store free of duplicate notes. */
  lemma DeletedKeepsUniqueNotes(rows: seq<NoteRow>, p: nat)
    requires IsDataPosition(|rows|, p) && UniqueNotes(rows)
    ensures UniqueNotes(Deleted(rows, p))
  {
    var s, k := Deleted(rows, p), p - FIRST_DATA_ROW;
    forall i, j | 0 <= i < j < |s| && s[i].tab == s[j].tab ensures !EqualFold(s[i].note, s[j].note) {
      var i', j' := if i < k then i else i + 1, if j < k then j else j + 1;
      assert s[i] == rows[i'] && s[j] == rows[j'] && i' < j';
    }
  }

  /**
   * Deleting sheet row `p` of the items worksheet: in the listing of any
   * store, the entry at `p` disappears and the later entries move up one row.
   */
  lemma StoreItemsAfterDelete(rows: seq<ItemRow>, p: nat, store: string)
    requires IsDataPosition(|rows|, p)
    ensures StoreItems(Deleted(rows, p), store) == Renumbered(StoreItems(rows, store), p)
  {
    ListWhereAfterDelete(rows, ItemOnTab(store), p);
  }

  /** The same for the notes worksheet. */
  lemma StoreNotesAfterDelete(rows: seq<NoteRow>, p: nat, store: string)
    requires IsDataPosition(|rows|, p)
    ensures StoreNotes(Deleted(rows, p), store) == Renumbered(StoreNotes(rows, store), p)
  {
    ListWhereAfterDelete(rows, NoteOnTab(store), p);
  }

  /** Deleting the sheet row of a listed item removes exactly that record. */
  lemma DeleteListedItem(rows: seq<ItemRow>, store: string, e: Listed<ItemRow>)
    requires e in StoreItems(rows, store)
    ensures IsDataPosition(|rows|, e.position)
    ensures multiset(Deleted(rows, e.position)) + multiset{e.row} == multiset(rows)
  {
    DeletedListed(rows, ItemOnTab(store), e);
  }

  /** Deleting the sheet row of a listed note removes exactly that record. */
  lemma DeleteListedNote(rows: seq<NoteRow>, store: string, e: Listed<NoteRow>)
    requires e in StoreNotes(rows, store)
    ensures IsDataPosition(|rows|, e.position)
    ensures multiset(Deleted(rows, e.position)) + multiset{e.row} == multiset(rows)
  {
    DeletedListed(rows, NoteOnTab(store), e);
  }

  /** Items A, B, C listed at rows 2, 3, 4; deleting row 3 leaves A at row 2 and C at row 3. */
  lemma DeleteMiddleItem(a: ItemRow, b: ItemRow, c: ItemRow)
    requires a.tab == b.tab == c.tab
    ensures StoreItems([a, b, c], a.tab) == [Listed(2, a), Listed(3, b), Listed(4, c)]
    ensures StoreItems(Deleted([a, b, c], 3), a.tab) == [Listed(2, a), Listed(3, c)]
  {
    var keep := ItemOnTab(a.tab);
    assert keep(a) && keep(b) && keep(c);
    assert [a, b, c][1..] == [b, c] && [b, c][1..] == [c] && [c][1..] == [];
    assert ListWhere([c], keep, 4) == [Listed(4, c)];
    assert ListWhere([b, c], keep, 3) == [Listed(3, b), Listed(4, c)];
    assert ListWhere([a, b, c], keep, 2) == [Listed(2, a), Listed(3, b), Listed(4, c)];
    assert Deleted([a, b, c], 3) == [a, c];
    assert [a, c][1..] == [c];
    assert ListWhere([c], keep, 3) == [Listed(3, c)];
    assert ListWhere([a, c], keep, 2) == [Listed(2, a), Listed(3, c)];
  }

  /** Saving three items of different names into one store of an empty worksheet appends them in order. */
  lemma SavedThreeItems(a: ItemRow, b: ItemRow, c: ItemRow)
    requires a.tab == b.tab == c.tab
    requires !EqualFold(a.item, b.item) && !EqualFold(a.item, c.item) && !EqualFold(b.item, c.item)
    ensures SavedItem(SavedItem(SavedItem([], a.item, a.qty, a.unit, a.tab), b.item, b.qty, b.unit, b.tab),
                      c.item, c.qty, c.unit, c.tab) == [a, b, c]
  {
    assert SavedItem([], a.item, a.qty, a.unit, a.tab) == [a];
    assert SavedItem([a], b.item, b.qty, b.unit, b.tab) == [a, b] by {
      assert !HasItem([a], b.item, b.tab);
    }
    assert SavedItem([a, b], c.item, c.qty, c.unit, c.tab) == [a, b, c] by {
      assert !HasItem([a, b], c.item, c.tab);
    }
  }

  /** A fact about three string literals, used by `AddThreeDeleteMiddle`. */
  lemma DistinctProduce()
    ensures !EqualFold("Limon", "Tomate") && !EqualFold("Limon", "Pepino") && !EqualFold("Tomate", "Pepino")
  {
    assert Lower("Limon")[0] == 'l' && Lower("Tomate")[0] == 't' && Lower("Pepino")[0] == 'p';
  }

  /**
   * A session on an empty items worksheet: add three items to one store,
   * delete the middle one through the position its listing shows, and list
   * the store again; the other two remain, in their order, at rows 2 and 3.
   */
  method AddThreeDeleteMiddle() returns (listing: seq<Listed<ItemRow>>)
    ensures listing == [Listed(2, ItemRow("Limon", 1, "", "Sedanos")), Listed(3, ItemRow("Pepino", 3, "", "Sedanos"))]
  {
    var a, b, c := ItemRow("Limon", 1, "", "Sedanos"), ItemRow("Tomate", 2, "kg", "Sedanos"), ItemRow("Pepino", 3, "", "Sedanos");
    var sheet := new Worksheet<ItemRow>([]);
    var cache := new RecordCache();
    SaveItem(sheet, cache, "Limon", 1, "", "Sedanos");
    SaveItem(sheet, cache, "Tomate", 2, "kg", "Sedanos");
    SaveItem(sheet, cache, "Pepino", 3, "", "Sedanos");
    DistinctProduce();
    SavedThreeItems(a, b, c);
    var records := cache.LoadItems(sheet);
    var shown := StoreItems(records, "Sedanos");
    DeleteMiddleItem(a, b, c);
    var ok := DeleteItem(sheet, cache, shown[1].position);
    records := cache.LoadItems(sheet);
    listing := StoreItems(records, "Sedanos");
  }

}
