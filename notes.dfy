/** The notes slice: one note per book key, last write wins, mirrored into storage. */
module Notes {
  import opened Wrappers
  import opened Entities
  import opened Storage

  const NotesKey := "@user_book_notes"

  /** The map after `addOrUpdateNote(bookKey, text)` at time `now`; empty text is stored too. */
  function Upsert(items: map<string, Note>, bookKey: string, text: string, now: string): (r: map<string, Note>)
    ensures bookKey in r && r[bookKey] == Note(text, now)
    ensures r.Keys == items.Keys + {bookKey}
    ensures forall k :: k in items && k != bookKey ==> r[k] == items[k]
  {
    items[bookKey := Note(text, now)]
  }

  /** The map after `deleteNote(bookKey)`. */
  function Remove(items: map<string, Note>, bookKey: string): (r: map<string, Note>)
    ensures bookKey !in r
    ensures r.Keys == items.Keys - {bookKey}
    ensures forall k :: k in r ==> r[k] == items[k]
    ensures bookKey !in items ==> r == items
  {
    items - {bookKey}
  }

  /** What `loadNotes` resolves to, given what `getItem` returned. */
  function NotesPayload(stored: Option<Blob>): (notes: map<string, Note>)
    ensures stored.None? ==> notes == map[]
    ensures stored.Some? && Parse(stored.value).None? ==> notes == map[]
    ensures forall m :: stored == Some(Stringify(NoteMap(m))) ==> notes == m
  {
    match stored
    case None => map[]
    case Some(blob) =>
      match Parse(blob)
      case Some(NoteMap(notes)) => notes
      case _ => map[]
  }

  predicate Mirrored(items: map<string, Note>, entries: map<string, Blob>) {
    NotesPayload(Lookup(entries, NotesKey)) == items
  }

  class NotesStore {
    var items: map<string, Note>
    const storage: KeyValueStore

    constructor (storage: KeyValueStore)
      ensures items == map[] && this.storage == storage
    {
      items := map[];
      this.storage := storage;
    }

    /** `addOrUpdateNote`: the timestamp is passed in as `now`. */
    method AddOrUpdateNote(bookKey: string, text: string, now: string)
      modifies this, storage
      ensures items == Upsert(old(items), bookKey, text, now)
      ensures storage.entries == old(storage.entries)[NotesKey := Stringify(NoteMap(items))]
      ensures Mirrored(items, storage.entries)
    {
      items := items[bookKey := Note(text, now)];
      storage.SetItem(NotesKey, Stringify(NoteMap(items)));
    }

    /** `deleteNote`: removing an absent key leaves the map as it was (it is still written). */
    method DeleteNote(bookKey: string)
      modifies this, storage
      ensures items == Remove(old(items), bookKey)
      ensures storage.entries == old(storage.entries)[NotesKey := Stringify(NoteMap(items))]
      ensures Mirrored(items, storage.entries)
    {
      items := items - {bookKey};
      storage.SetItem(NotesKey, Stringify(NoteMap(items)));
    }

    /** The `loadNotes` thunk: the stored map, or `{}` when missing or unparseable. */
    method LoadNotes() returns (payload: map<string, Note>)
      ensures payload == NotesPayload(Lookup(storage.entries, NotesKey))
      ensures Mirrored(payload, storage.entries)
    {
      var stored := storage.GetItem(NotesKey);
      payload := NotesPayload(stored);
    }

    /** `loadNotes.fulfilled`: replace the map wholesale. */
    method LoadFulfilled(payload: map<string, Note>)
      modifies this
      ensures items == payload
    {
      items := payload;
    }
  }

  /** A second upsert on the same key overwrites the first. */
  lemma UpsertLastWriteWins(items: map<string, Note>, bookKey: string, t1: string, n1: string, t2: string, n2: string)
    ensures Upsert(Upsert(items, bookKey, t1, n1), bookKey, t2, n2) == Upsert(items, bookKey, t2, n2)
  {
  }

  /** Upserting and then deleting a key leaves it absent and the others as they were. */
  lemma UpsertThenRemove(items: map<string, Note>, bookKey: string, text: string, now: string)
    ensures Remove(Upsert(items, bookKey, text, now), bookKey) == Remove(items, bookKey)
    ensures bookKey !in Remove(Upsert(items, bookKey, text, now), bookKey)
  {
  }

  lemma RemoveIdempotent(items: map<string, Note>, bookKey: string)
    ensures Remove(Remove(items, bookKey), bookKey) == Remove(items, bookKey)
  {
  }

  lemma LoadFallsBackToEmpty(entries: map<string, Blob>)
    requires NotesKey !in entries || Parse(entries[NotesKey]).None?
    ensures NotesPayload(Lookup(entries, NotesKey)) == map[]
  {
  }
}
