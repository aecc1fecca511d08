/** The records the client-side state layer works on. */
module Entities {
  import opened Wrappers

  /**
   * The `author_name` field of a catalog record as JavaScript sees it:
   * missing, an array of names, or present but some other kind of value.
   */
  datatype AuthorField = AuthorAbsent | AuthorArray(names: seq<string>) | AuthorNonArray

  /** The canonical five-field book record kept in every list. */
  datatype Book = Book(
    key: string,
    title: Option<string>,
    authorName: AuthorField,
    coverId: Option<int>,
    firstPublishYear: Option<int>)

  /** Some book in the list has this key. */
  predicate HasKey(books: seq<Book>, key: string) {
    exists i :: 0 <= i < |books| && books[i].key == key
  }

  /** A personal note attached to a book; `updatedAt` is an ISO timestamp. */
  datatype Note = Note(text: string, updatedAt: string)

  /** The signed-in user's session record. */
  datatype User = User(id: string, name: string, email: string, username: string, token: string)
}
