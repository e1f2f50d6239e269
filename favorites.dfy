/** The favourites list, `FavoritesViewModel` (QuoteValut/ViewModels/FavoritesViewModel.swift).
    The list `favoriteQuotes` mirrors the user's rows of the `favorites` join table; it changes only
    after the backend confirmed an insert or a delete, and membership uses `Quote`'s full
    structural equality. Every backend call is an outcome passed in by the caller. */
module Favorites {
  import opened Outcomes
  import opened Quotes

  /** `FavoriteRow`: the `quote_id` projection of a `favorites` row. */
  datatype FavoriteRow = FavoriteRow(quoteId: Uuid)

  /** The key `(user_id, quote_id)` of the `favorites` row an insert or a delete names. */
  datatype FavoriteKey = FavoriteKey(userId: Uuid, quoteId: Uuid)

  /** No quote occurs twice. */
  predicate NoDuplicates(s: seq<Quote>) {
    forall i, j :: 0 <= i < j < |s| ==> s[i] != s[j]
  }

  /** `Array.contains(_:)` on quotes: some element is `==` to `q`. */
  function Contains(s: seq<Quote>, q: Quote): (r: bool)
    ensures r <==> exists i :: 0 <= i < |s| && Equal(s[i], q)
  {
    q in s
  }

  /** `removeAll { $0 == q }`: every element equal to `q` goes, the others stay in order. */
  function {:induction false} RemoveAll(s: seq<Quote>, q: Quote): (r: seq<Quote>)
    ensures !Contains(r, q)
    ensures forall x :: x in r <==> x in s && x != q
    ensures forall x :: x != q ==> multiset(r)[x] == multiset(s)[x]
    ensures !Contains(s, q) ==> r == s
    decreases |s|
  {
    if s == [] then []
    else
      var rest := RemoveAll(s[1..], q);
      assert s == [s[0]] + s[1..];
      if s[0] == q then rest else [s[0]] + rest
  }

  /** Removal works element by element: removing from a concatenation removes from each part,
      so the survivors keep their relative order. */
  lemma {:induction false} RemoveAllConcat(a: seq<Quote>, b: seq<Quote>, q: Quote)
    ensures RemoveAll(a + b, q) == RemoveAll(a, q) + RemoveAll(b, q)
    decreases |a|
  {
    if a == [] {
      assert a + b == b;
    } else {
      assert (a + b)[0] == a[0] && (a + b)[1..] == a[1..] + b;
      RemoveAllConcat(a[1..], b, q);
    }
  }

  /** Removal keeps a list free of duplicates. */
  lemma {:induction false} RemoveAllNoDuplicates(s: seq<Quote>, q: Quote)
    requires NoDuplicates(s)
    ensures NoDuplicates(RemoveAll(s, q))
    decreases |s|
  {
    if s != [] {
      assert NoDuplicates(s[1..]) by {
        forall i, j | 0 <= i < j < |s[1..]| ensures s[1..][i] != s[1..][j] {
          assert s[1..][i] == s[i + 1] && s[1..][j] == s[j + 1];
        }
      }
      RemoveAllNoDuplicates(s[1..], q);
      assert s[0] !in s[1..] by {
        forall k | 0 <= k < |s[1..]| ensures s[1..][k] != s[0] {
          assert s[1..][k] == s[k + 1];
        }
      }
    }
  }

  /** `response.map { $0.quote_id }`: the ids the quotes query asks for. */
  function QuoteIds(rows: seq<FavoriteRow>): (ids: seq<Uuid>)
    ensures |ids| == |rows|
    ensures forall i :: 0 <= i < |rows| ==> ids[i] == rows[i].quoteId
  {
    seq(|rows|, i requires 0 <= i < |rows| => rows[i].quoteId)
  }

  /** The list after `toggleFavorite(q)` when the insert or delete it issued produced `outcome`. */
  function Toggled(s: seq<Quote>, q: Quote, outcome: Outcome<()>): (r: seq<Quote>)
    // a failed insert or delete changes nothing
    ensures outcome.Err? ==> r == s
    // a confirmed toggle flips membership of q ...
    ensures outcome.Ok? ==> (Contains(r, q) <==> !Contains(s, q))
    // ... and leaves every other quote's occurrences alone
    ensures forall x :: x != q ==> multiset(r)[x] == multiset(s)[x]
    // a confirmed insert appends q after an untouched prefix
    ensures outcome.Ok? && !Contains(s, q) ==> |r| == |s| + 1 && r[..|s|] == s && r[|s|] == q
  {
    if outcome.Err? then s
    else if Contains(s, q) then RemoveAll(s, q)
    else s + [q]
  }

  /** Toggling a quote that was not a favourite twice, both calls confirmed, restores the list
      exactly, order included. */
  lemma ToggleTwiceRestores(s: seq<Quote>, q: Quote)
    requires !Contains(s, q)
    ensures Toggled(Toggled(s, q, Ok(())), q, Ok(())) == s
  {
    RemoveAllConcat(s, [q], q);
    assert RemoveAll([q], q) == [];
  }

  /** A list without duplicates keeps none after any toggle, confirmed or not. */
  lemma ToggledKeepsNoDuplicates(s: seq<Quote>, q: Quote, outcome: Outcome<()>)
    requires NoDuplicates(s)
    ensures NoDuplicates(Toggled(s, q, outcome))
  {
    if outcome.Ok? && Contains(s, q) {
      RemoveAllNoDuplicates(s, q);
    }
  }

  /** Membership is by full value: a list holding an edited copy of `q` (same `id`, other text)
      does not make `q` a favourite, so toggling `q` appends it next to that copy. */
  lemma EditedCopyIsNotFavorite(stale: Quote, q: Quote)
    requires stale.id == q.id && stale.text != q.text
    ensures !Contains([stale], q)
    ensures Toggled([stale], q, Ok(())) == [stale, q]
  {
    SameIdIsNotEnough(stale, q);
  }

  /** The view model; `favoriteQuotes` and `isLoading` are updated in place. */
  class FavoritesViewModel {
    var favoriteQuotes: seq<Quote>
    var isLoading: bool

    constructor ()
      ensures favoriteQuotes == [] && !isLoading
    {
      favoriteQuotes := [];
      isLoading := false;
    }

    /** `isFavorite(_:)`. */
    function IsFavorite(q: Quote): (r: bool)
      reads this
      ensures r <==> exists i :: 0 <= i < |favoriteQuotes| && Equal(favoriteQuotes[i], q)
    {
      Contains(favoriteQuotes, q)
    }

    /** `loadFavorites(userId:)`. `rows` is the outcome of selecting the user's favourite rows,
        `fetched` that of the batched `id in ids` quotes query; the method returns the user the rows
        query filters on and the ids of the quotes query when it issues one. */
    method LoadFavorites(userId: Uuid, rows: Outcome<seq<FavoriteRow>>, fetched: Outcome<seq<Quote>>)
      returns (userFilter: Uuid, idQuery: Option<seq<Uuid>>)
      modifies this
      ensures !isLoading
      // the favourite rows are selected with `user_id == userId`
      ensures userFilter == userId
      // the quotes query is issued only for a non-empty id list
      ensures idQuery == if rows.Ok? && rows.payload != [] then Some(QuoteIds(rows.payload)) else None
      // no favourite rows: the list is emptied
      ensures rows.Ok? && rows.payload == [] ==> favoriteQuotes == []
      // both queries succeed: the list is replaced wholesale by the fetched quotes
      ensures idQuery.Some? && fetched.Ok? ==> favoriteQuotes == fetched.payload
      // either query fails: the list is left as it was
      ensures rows.Err? || (idQuery.Some? && fetched.Err?) ==> favoriteQuotes == old(favoriteQuotes)
    {
      isLoading := true;
      userFilter := userId;
      idQuery := None;
      match rows {
        case Err(_) =>
        case Ok(rs) =>
          var ids := QuoteIds(rs);
          if ids == [] {
            favoriteQuotes := [];
          } else {
            idQuery := Some(ids);
            match fetched {
              case Ok(qs) => favoriteQuotes := qs;
              case Err(_) =>
            }
          }
      }
      isLoading := false;
    }

    /** `toggleFavorite(_:userId:)`: removes a favourite, adds anything else; `outcome` is that of
        the delete or insert issued, whose row key is returned. */
    method ToggleFavorite(q: Quote, userId: Uuid, outcome: Outcome<()>) returns (key: FavoriteKey)
      modifies this
      ensures favoriteQuotes == Toggled(old(favoriteQuotes), q, outcome)
      ensures key == FavoriteKey(userId, q.id)
      ensures isLoading == old(isLoading)
    {
      if IsFavorite(q) {
        key := RemoveFavorite(q, userId, outcome);
      } else {
        key := AddFavorite(q, userId, outcome);
      }
    }

    /** `addFavorite(_:userId:)`: inserts the row, then appends `q` once the insert is confirmed. */
    method AddFavorite(q: Quote, userId: Uuid, insert: Outcome<()>) returns (key: FavoriteKey)
      modifies this
      ensures key == FavoriteKey(userId, q.id)
      ensures favoriteQuotes == if insert.Ok? then old(favoriteQuotes) + [q] else old(favoriteQuotes)
      ensures isLoading == old(isLoading)
    {
      key := FavoriteKey(userId, q.id);
      if insert.Ok? {
        favoriteQuotes := favoriteQuotes + [q];
      }
    }

    /** `removeFavorite(_:userId:)`: deletes the row, then drops every copy of `q` once the delete
        is confirmed. */
    method RemoveFavorite(q: Quote, userId: Uuid, delete: Outcome<()>) returns (key: FavoriteKey)
      modifies this
      ensures key == FavoriteKey(userId, q.id)
      ensures favoriteQuotes == if delete.Ok? then RemoveAll(old(favoriteQuotes), q) else old(favoriteQuotes)
      ensures isLoading == old(isLoading)
    {
      key := FavoriteKey(userId, q.id);
      if delete.Ok? {
        favoriteQuotes := RemoveAll(favoriteQuotes, q);
      }
    }
  }
}
