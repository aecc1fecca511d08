/**
 * The on-device key-value store, and JSON as an abstract encoding:
 * what a slice writes is the serialization of one of three payload shapes.
 */
module Storage {
  import opened Wrappers
  import opened Entities

  /** The values the slices serialize. */
  datatype Json = BookList(books: seq<Book>) | NoteMap(notes: map<string, Note>) | Session(user: User)

  /** A stored string: either the serialization of a value, or text that does not parse. */
  datatype Blob = Serialized(json: Json) | Malformed(text: string)

  /** `JSON.stringify`: its result always parses back to the value. */
  function Stringify(v: Json): (b: Blob)
    ensures Parse(b) == Some(v)
  {
    Serialized(v)
  }

  /** `JSON.parse`: `None` stands for the exception thrown on malformed text. */
  function Parse(b: Blob): (r: Option<Json>)
    ensures r.None? <==> b.Malformed?
    ensures forall v :: r == Some(v) ==> b == Serialized(v)
  {
    match b
    case Serialized(v) => Some(v)
    case Malformed(_) => None
  }

  /** `getItem` on a snapshot of the entries: `None` for a missing key. */
  function Lookup(entries: map<string, Blob>, key: string): (r: Option<Blob>)
    ensures r.Some? <==> key in entries
    ensures key in entries ==> r.value == entries[key]
  {
    if key in entries then Some(entries[key]) else None
  }

  /** The device's durable key-value storage, shared by all slices. */
  class KeyValueStore {
    var entries: map<string, Blob>

    constructor ()
      ensures entries == map[]
    {
      entries := map[];
    }

    method GetItem(key: string) returns (v: Option<Blob>)
      ensures v == Lookup(entries, key)
    {
      v := if key in entries then Some(entries[key]) else None;
    }

    method SetItem(key: string, value: Blob)
      modifies this
      ensures entries == old(entries)[key := value]
    {
      entries := entries[key := value];
    }

    method RemoveItem(key: string)
      modifies this
      ensures entries == old(entries) - {key}
    {
      entries := entries - {key};
    }
  }
}
