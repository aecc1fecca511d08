/**
 * The data derivation of the recommendations screen: the distinct authors of
 * favorites and recently viewed books, the keys to exclude, and how the
 * screen state settles for each outcome of the recommendation service.
 */
module Recommendations {
  import opened Wrappers
  import opened Entities

  const NoSignalMessage := "Add some favorites or view books to get recommendations."
  const NoResultsMessage := "No recommendations found. Try adding more favorites."
  const FailureMessage := "Failed to fetch recommendations. Please check your connection and try again."

  predicate NoDup<T(==)>(s: seq<T>) {
    forall i, j :: 0 <= i < j < |s| ==> s[i] != s[j]
  }

  /**
   * Adding each element of `xs` in turn to a JavaScript `Set` that holds `acc`;
   * a `Set` keeps its elements in insertion order.
   */
  function AppendNew<T(==)>(acc: seq<T>, xs: seq<T>): (r: seq<T>)
    ensures |acc| <= |r| && r[..|acc|] == acc
    decreases |xs|
  {
    if xs == [] then acc
    else
      var a := AppendNew(acc, xs[..|xs| - 1]);
      if xs[|xs| - 1] in a then a else a + [xs[|xs| - 1]]
  }

  lemma {:induction false} AppendNewMembers<T>(acc: seq<T>, xs: seq<T>)
    ensures forall x :: x in AppendNew(acc, xs) <==> x in acc || x in xs
    decreases |xs|
  {
    if xs != [] {
      var init := xs[..|xs| - 1];
      AppendNewMembers(acc, init);
      assert xs == init + [xs[|xs| - 1]];
    }
  }

  lemma {:induction false} AppendNewNoDup<T>(acc: seq<T>, xs: seq<T>)
    requires NoDup(acc)
    ensures NoDup(AppendNew(acc, xs))
    decreases |xs|
  {
    if xs != [] {
      AppendNewNoDup(acc, xs[..|xs| - 1]);
    }
  }

  /** The names a book contributes: only an `author_name` array contributes any. */
  function AuthorsOf(b: Book): seq<string> {
    match b.authorName
    case AuthorArray(names) => names
    case _ => []
  }

  predicate Mentions(books: seq<Book>, author: string) {
    exists i :: 0 <= i < |books| && author in AuthorsOf(books[i])
  }

  predicate NoAuthors(books: seq<Book>) {
    forall i :: 0 <= i < |books| ==> AuthorsOf(books[i]) == []
  }

  /** The authors set after visiting `books` in order: `Array.from(authorsSet)`. */
  function Discovered(books: seq<Book>): (authors: seq<string>)
    ensures NoDup(authors)
    decreases |books|
  {
    if books == [] then []
    else
      var found := Discovered(books[..|books| - 1]);
      AppendNewNoDup(found, AuthorsOf(books[|books| - 1]));
      AppendNew(found, AuthorsOf(books[|books| - 1]))
  }

  /** An author is collected iff some book's `author_name` array names it. */
  lemma {:induction false} DiscoveredMembers(books: seq<Book>, author: string)
    ensures author in Discovered(books) <==> Mentions(books, author)
    decreases |books|
  {
    if books != [] {
      var init := books[..|books| - 1];
      var last := books[|books| - 1];
      DiscoveredMembers(init, author);
      AppendNewMembers(Discovered(init), AuthorsOf(last));
      if Mentions(books, author) {
        var i :| 0 <= i < |books| && author in AuthorsOf(books[i]);
        if i < |init| {
          assert init[i] == books[i];
        }
      }
      if Mentions(init, author) {
        var i :| 0 <= i < |init| && author in AuthorsOf(init[i]);
        assert books[i] == init[i];
      }
    }
  }

  lemma DiscoveredEmptyIff(books: seq<Book>)
    ensures Discovered(books) == [] <==> NoAuthors(books)
  {
    var d := Discovered(books);
    if d != [] {
      DiscoveredMembers(books, d[0]);
    }
    if !NoAuthors(books) {
      var i :| 0 <= i < |books| && AuthorsOf(books[i]) != [];
      DiscoveredMembers(books, AuthorsOf(books[i])[0]);
    }
  }

  /** Visiting more books only appends to the authors found so far. */
  lemma {:induction false} DiscoveredExtends(front: seq<Book>, back: seq<Book>)
    ensures |Discovered(front)| <= |Discovered(front + back)|
    ensures Discovered(front + back)[..|Discovered(front)|] == Discovered(front)
    decreases |back|
  {
    if back == [] {
      assert front + back == front;
    } else {
      var init := back[..|back| - 1];
      DiscoveredExtends(front, init);
      assert (front + back)[..|front + back| - 1] == front + init;
    }
  }

  /**
   * Discovery order: the favorites' authors form a prefix of the collected
   * authors, and every author after them is one no favorite names.
   */
  lemma FavoritesAuthorsFirst(favorites: seq<Book>, recentlyViewed: seq<Book>, j: nat)
    requires |Discovered(favorites)| <= j < |Discovered(favorites + recentlyViewed)|
    ensures !Mentions(favorites, Discovered(favorites + recentlyViewed)[j])
  {
    var p := Discovered(favorites);
    var d := Discovered(favorites + recentlyViewed);
    DiscoveredExtends(favorites, recentlyViewed);
    DiscoveredMembers(favorites, d[j]);
    assert d[j] !in p by {
      forall k | 0 <= k < |p| ensures p[k] != d[j] {
        assert d[k] == p[k];
      }
    }
  }

  /** Every author found after the favorites' ones is named by some recently viewed book. */
  lemma LaterAuthorsComeFromRecentlyViewed(favorites: seq<Book>, recentlyViewed: seq<Book>, j: nat)
    requires |Discovered(favorites)| <= j < |Discovered(favorites + recentlyViewed)|
    ensures Mentions(recentlyViewed, Discovered(favorites + recentlyViewed)[j])
  {
    var books := favorites + recentlyViewed;
    var a := Discovered(books)[j];
    FavoritesAuthorsFirst(favorites, recentlyViewed, j);
    DiscoveredMembers(books, a);
    var i :| 0 <= i < |books| && a in AuthorsOf(books[i]);
    if i >= |favorites| {
      assert books[i] == recentlyViewed[i - |favorites|];
    }
  }

  /** A book without an `author_name` array changes nothing, wherever it stands. */
  lemma {:induction false} SkipsBooksWithoutAuthorArray(front: seq<Book>, b: Book, back: seq<Book>)
    requires !b.authorName.AuthorArray?
    ensures Discovered(front + [b] + back) == Discovered(front + back)
    decreases |back|
  {
    if back == [] {
      assert front + [b] + back == front + [b];
      assert (front + [b])[..|front|] == front;
      assert front + back == front;
    } else {
      var init := back[..|back| - 1];
      SkipsBooksWithoutAuthorArray(front, b, init);
      assert (front + [b] + back)[..|front + [b] + back| - 1] == front + [b] + init;
      assert (front + back)[..|front + back| - 1] == front + init;
    }
  }

  /** The `key` of every book, in order. */
  function KeysOf(books: seq<Book>): (keys: seq<string>)
    ensures |keys| == |books|
    ensures forall i :: 0 <= i < |books| ==> keys[i] == books[i].key
  {
    if books == [] then [] else [books[0].key] + KeysOf(books[1..])
  }

  /** `Array.from(new Set(...keys))`: every key of both lists, each once. */
  function ExcludeKeys(favorites: seq<Book>, recentlyViewed: seq<Book>): (keys: seq<string>)
    ensures NoDup(keys)
    ensures forall k :: k in keys <==> HasKey(favorites + recentlyViewed, k)
  {
    var all := KeysOf(favorites + recentlyViewed);
    AppendNewMembers([], all);
    AppendNewNoDup([], all);
    assert forall k :: k in all <==> HasKey(favorites + recentlyViewed, k) by {
      forall k ensures k in all <==> HasKey(favorites + recentlyViewed, k) {
        if k in all {
          var i :| 0 <= i < |all| && all[i] == k;
          assert (favorites + recentlyViewed)[i].key == k;
        }
      }
    }
    AppendNew([], all)
  }

  /** The parts of the screen's state that `fetchRecommendations` writes. */
  datatype ScreenState = ScreenState(books: seq<Book>, loading: bool, refreshing: bool, error: Option<string>)

  /** The arguments passed to the recommendation service. */
  datatype RecommendationRequest = RecommendationRequest(authors: seq<string>, excludeKeys: seq<string>)

  /** What the service call gives: a value (possibly null) or a thrown error. */
  datatype ServiceOutcome = Returned(data: Option<seq<Book>>) | Threw(message: string)

  /** `fetchRecommendations`, with its local Set loop over both lists. */
  method CollectAuthors(favorites: seq<Book>, recentlyViewed: seq<Book>) returns (authors: seq<string>)
    ensures authors == Discovered(favorites + recentlyViewed)
    ensures NoDup(authors)
    ensures forall a :: a in authors <==> Mentions(favorites + recentlyViewed, a)
  {
    var books := favorites + recentlyViewed;
    authors := [];
    var i := 0;
    while i < |books|
      invariant 0 <= i <= |books|
      invariant authors == Discovered(books[..i])
    {
      match books[i].authorName {
        case AuthorArray(names) =>
          var j := 0;
          while j < |names|
            invariant 0 <= j <= |names|
            invariant authors == AppendNew(Discovered(books[..i]), names[..j])
          {
            assert names[..j + 1][..j] == names[..j];
            if names[j] !in authors {
              authors := authors + [names[j]];
            }
            j := j + 1;
          }
          assert names[..j] == names;
        case AuthorAbsent =>
        case AuthorNonArray =>
      }
      assert books[..i + 1][..i] == books[..i];
      i := i + 1;
    }
    assert books[..i] == books;
    forall a ensures a in authors <==> Mentions(books, a) {
      DiscoveredMembers(books, a);
    }
  }

  /**
   * `fetchRecommendations(showError = true)`: `getRecommendations` is a parameter
   * and `calls` lists the requests made to it. Loading and refreshing end false.
   */
  method FetchRecommendations(favorites: seq<Book>, recentlyViewed: seq<Book>, before: ScreenState,
                              getRecommendations: RecommendationRequest -> ServiceOutcome,
                              showError: bool := true)
    returns (after: ScreenState, calls: seq<RecommendationRequest>)
    ensures !after.loading && !after.refreshing
    ensures calls == [] <==> NoAuthors(favorites + recentlyViewed)
    ensures calls == [] ==>
      after.books == [] && after.error == (if showError then Some(NoSignalMessage) else None)
    ensures calls != [] ==>
      calls == [RecommendationRequest(Discovered(favorites + recentlyViewed), ExcludeKeys(favorites, recentlyViewed))]
    ensures calls != [] ==>
      match getRecommendations(calls[0])
      case Threw(_) => after.books == before.books && after.error == Some(FailureMessage)
      case Returned(data) =>
        if data.None? || data.value == [] then
          after.books == [] && after.error == (if showError then Some(NoResultsMessage) else None)
        else
          after.books == data.value && after.error == None
  {
    var state := before.(error := None);
    var authors := CollectAuthors(favorites, recentlyViewed);
    DiscoveredEmptyIff(favorites + recentlyViewed);
    calls := [];
    if |authors| == 0 {
      state := state.(books := []);
      if showError {
        state := state.(error := Some(NoSignalMessage));
      }
    } else {
      var excludeKeys := ExcludeKeys(favorites, recentlyViewed);
      var request := RecommendationRequest(authors, excludeKeys);
      calls := [request];
      match getRecommendations(request) {
        case Threw(_) =>
          state := state.(error := Some(FailureMessage));
        case Returned(data) =>
          state := state.(books := if data.Some? then data.value else []);
          if (data.None? || |data.value| == 0) && showError {
            state := state.(error := Some(NoResultsMessage));
          }
      }
    }
    after := state.(loading := false, refreshing := false);
  }
}
