/** The favorites slice: an ordered list of books, toggled by key and mirrored into storage. */
module Favorites {
  import opened Wrappers
  import opened Entities
  import opened Storage

  const FavoritesKey := "@user_favorites"

  predicate UniqueKeys(items: seq<Book>) {
    forall i, j :: 0 <= i < j < |items| ==> items[i].key != items[j].key
  }

  /** `findIndex` by key: the first matching index, or -1 when there is none. */
  function FindIndex(items: seq<Book>, key: string): (r: int)
    ensures -1 <= r < |items|
    ensures r >= 0 ==> items[r].key == key && forall j :: 0 <= j < r ==> items[j].key != key
    ensures r < 0 <==> !HasKey(items, key)
  {
    if items == [] then -1
    else if items[0].key == key then 0
    else
      var r := FindIndex(items[1..], key);
      if r < 0 then -1 else r + 1
  }

  /** The list after `toggleFavorite(book)`: drop the first book with its key, or append it. */
  function Toggle(items: seq<Book>, book: Book): (r: seq<Book>)
    ensures |r| == if HasKey(items, book.key) then |items| - 1 else |items| + 1
    ensures forall b :: b in r ==> b in items || b == book
  {
    var i := FindIndex(items, book.key);
    if i >= 0 then items[..i] + items[i + 1..] else items + [book]
  }

  /** What `loadFavorites` resolves to, given what `getItem` returned. */
  function FavoritesPayload(stored: Option<Blob>): (books: seq<Book>)
    ensures stored.None? ==> books == []
    ensures stored.Some? && Parse(stored.value).None? ==> books == []
    ensures forall s :: stored == Some(Stringify(BookList(s))) ==> books == s
  {
    match stored
    case None => []
    case Some(blob) =>
      match Parse(blob)
      case Some(BookList(books)) => books
      case _ => []
  }

  /** The list in memory agrees with what a reload from storage would give. */
  predicate Mirrored(items: seq<Book>, entries: map<string, Blob>) {
    FavoritesPayload(Lookup(entries, FavoritesKey)) == items
  }

  class FavoritesStore {
    var items: seq<Book>
    const storage: KeyValueStore

    constructor (storage: KeyValueStore)
      ensures items == [] && this.storage == storage
    {
      items := [];
      this.storage := storage;
    }

    /** The `findIndex` scan over the current list. */
    method FindExisting(key: string) returns (index: int)
      ensures index == FindIndex(items, key)
    {
      var i := 0;
      while i < |items|
        invariant 0 <= i <= |items|
        invariant forall j :: 0 <= j < i ==> items[j].key != key
      {
        if items[i].key == key {
          return i;
        }
        i := i + 1;
      }
      return -1;
    }

    /** `toggleFavorite`: splice out or push, then write the whole list. */
    method ToggleFavorite(book: Book)
      modifies this, storage
      ensures items == Toggle(old(items), book)
      ensures storage.entries == old(storage.entries)[FavoritesKey := Stringify(BookList(items))]
      ensures Mirrored(items, storage.entries)
    {
      var existingIndex := FindExisting(book.key);
      if existingIndex >= 0 {
        items := items[..existingIndex] + items[existingIndex + 1..];
      } else {
        items := items + [book];
      }
      storage.SetItem(FavoritesKey, Stringify(BookList(items)));
    }

    /** The `loadFavorites` thunk: the stored list, or `[]` when missing or unparseable. */
    method LoadFavorites() returns (payload: seq<Book>)
      ensures payload == FavoritesPayload(Lookup(storage.entries, FavoritesKey))
      ensures Mirrored(payload, storage.entries)
    {
      var stored := storage.GetItem(FavoritesKey);
      payload := FavoritesPayload(stored);
    }

    /** `loadFavorites.fulfilled`: replace the list wholesale. */
    method LoadFulfilled(payload: seq<Book>)
      modifies this
      ensures items == payload
    {
      items := payload;
    }
  }

  // ---- properties of Toggle ----

  lemma ToggleAppendsWhenAbsent(items: seq<Book>, book: Book)
    requires !HasKey(items, book.key)
    ensures |Toggle(items, book)| == |items| + 1
    ensures Toggle(items, book)[..|items|] == items
    ensures Toggle(items, book)[|items|] == book
  {
  }

  /** With the key present, toggle removes exactly the first match and keeps the rest in order. */
  lemma ToggleRemovesFirstMatch(items: seq<Book>, book: Book, i: nat)
    requires i < |items| && items[i].key == book.key
    requires forall j :: 0 <= j < i ==> items[j].key != book.key
    ensures |Toggle(items, book)| == |items| - 1
    ensures forall j :: 0 <= j < i ==> Toggle(items, book)[j] == items[j]
    ensures forall j :: i <= j < |items| - 1 ==> Toggle(items, book)[j] == items[j + 1]
  {
    assert FindIndex(items, book.key) == i;
  }

  /** With unique keys, toggle flips the book's own membership. */
  lemma ToggleFlipsMembership(items: seq<Book>, book: Book)
    requires UniqueKeys(items)
    ensures HasKey(Toggle(items, book), book.key) <==> !HasKey(items, book.key)
  {
    var r := Toggle(items, book);
    var i := FindIndex(items, book.key);
    if i >= 0 {
      forall j | 0 <= j < |r| ensures r[j].key != book.key {
        if j < i {
          assert r[j] == items[j];
        } else {
          assert r[j] == items[j + 1];
          assert items[i].key != items[j + 1].key;
        }
      }
    } else {
      assert r[|items|] == book;
    }
  }

  /** Toggle never changes whether any other key is present. */
  lemma ToggleKeepsOtherKeys(items: seq<Book>, book: Book, key: string)
    requires key != book.key
    ensures HasKey(Toggle(items, book), key) <==> HasKey(items, key)
  {
    var r := Toggle(items, book);
    var i := FindIndex(items, book.key);
    if i >= 0 {
      ToggleRemovesFirstMatch(items, book, i);
      if HasKey(items, key) {
        var j :| 0 <= j < |items| && items[j].key == key;
        if j < i { assert r[j] == items[j]; } else { assert j != i && r[j - 1] == items[j]; }
      }
      if HasKey(r, key) {
        var j :| 0 <= j < |r| && r[j].key == key;
        if j < i { assert r[j] == items[j]; } else { assert r[j] == items[j + 1]; }
      }
    } else {
      assert r == items + [book];
      if HasKey(items, key) {
        var j :| 0 <= j < |items| && items[j].key == key;
        assert r[j] == items[j];
      }
      if HasKey(r, key) {
        var j :| 0 <= j < |r| && r[j].key == key;
        assert j < |items| && r[j] == items[j];
      }
    }
  }

  lemma TogglePreservesUniqueKeys(items: seq<Book>, book: Book)
    requires UniqueKeys(items)
    ensures UniqueKeys(Toggle(items, book))
  {
    var r := Toggle(items, book);
    var i := FindIndex(items, book.key);
    if i >= 0 {
      forall a, b | 0 <= a < b < |r| ensures r[a].key != r[b].key {
        var a' := if a < i then a else a + 1;
        var b' := if b < i then b else b + 1;
        assert r[a] == items[a'] && r[b] == items[b'];
      }
    } else {
      forall a, b | 0 <= a < b < |r| ensures r[a].key != r[b].key {
        if b == |items| {
          assert r[a] == items[a];
        } else {
          assert r[a] == items[a] && r[b] == items[b];
        }
      }
    }
  }

  /** Toggling an absent book twice restores the list. */
  lemma ToggleTwiceWhenAbsent(items: seq<Book>, book: Book)
    requires !HasKey(items, book.key)
    ensures Toggle(Toggle(items, book), book) == items
  {
    var once := items + [book];
    assert FindIndex(items, book.key) < 0;
    assert once[|items|].key == book.key;
    assert FindIndex(once, book.key) == |items|;
    assert once[..|items|] == items;
  }

  /**
   * Toggling a present book twice does not restore the list: the book given
   * is appended at the end instead of returning to its old position.
   */
  lemma ToggleTwiceWhenPresent(items: seq<Book>, book: Book, i: nat)
    requires UniqueKeys(items)
    requires i < |items| && items[i].key == book.key
    ensures Toggle(Toggle(items, book), book) == items[..i] + items[i + 1..] + [book]
  {
    forall j | 0 <= j < i ensures items[j].key != book.key {
      assert items[j].key != items[i].key;
    }
    assert FindIndex(items, book.key) == i;
    ToggleFlipsMembership(items, book);
    assert !HasKey(Toggle(items, book), book.key);
  }

  /** Two books with different keys: toggling the first twice moves it behind the second. */
  lemma ToggleTwiceReorders(a: Book, b: Book)
    requires a.key != b.key
    ensures Toggle(Toggle([a, b], a), a) == [b, a]
    ensures Toggle(Toggle([a, b], a), a) != [a, b]
  {
    ToggleTwiceWhenPresent([a, b], a, 0);
    assert [a, b][..0] + [a, b][1..] + [a] == [b, a];
  }

  /** Toggle keeps storage in step with memory, so a reload gives back the list. */
  lemma ToggleKeepsMirror(items: seq<Book>, book: Book, entries: map<string, Blob>)
    ensures Mirrored(Toggle(items, book), entries[FavoritesKey := Stringify(BookList(Toggle(items, book)))])
  {
  }

  lemma LoadFallsBackToEmpty(entries: map<string, Blob>)
    requires FavoritesKey !in entries || Parse(entries[FavoritesKey]).None?
    ensures FavoritesPayload(Lookup(entries, FavoritesKey)) == []
  {
  }
}
