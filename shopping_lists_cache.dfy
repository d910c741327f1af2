/**
 * `useShoppingLists` of app/hooks/use-shopping-lists.ts: the signed-in user's
 * lists, cached with the id of the user they were fetched for.
 *
 * The `select ... order('created_at', desc)` is a parameter: the rows it
 * returned (`null` as `None`) or the message of the error it reported.
 */
module ShoppingListsCache {
  import opened Wrappers

  /** A row as the hook holds it (the timestamps only order the query). */
  datatype ShoppingList = ShoppingList(id: string, items: seq<string>)

  /** The `useEffect` guard `user?.id !== lastUserId`: no user (`undefined`) always differs from `null` and from any id. */
  predicate EffectFetches(userId: Option<string>, lastUserId: Option<string>) {
    userId.None? || userId != lastUserId
  }

  /** The skip rule of lines 35-37. */
  predicate SkipsFetch(userId: string, lastUserId: Option<string>, lists: seq<ShoppingList>) {
    lastUserId == Some(userId) && |lists| > 0
  }

  /**
   * Without a user the effect always runs; with one, it runs exactly when the
   * id differs from the one last fetched for, so never again for that user,
   * even when the lists fetched for them were empty.
   */
  lemma EffectGuard(userId: Option<string>, lastUserId: Option<string>)
    ensures userId.None? ==> EffectFetches(userId, lastUserId)
    ensures userId.Some? ==> (EffectFetches(userId, lastUserId) <==> lastUserId != userId)
  {
  }

  /** The lists `fetchLists` leaves for a signed-in user. */
  function ListsAfterFetch(lists: seq<ShoppingList>, lastUserId: Option<string>, user: string,
                           fetched: Result<Option<seq<ShoppingList>>, string>): seq<ShoppingList>
  {
    if SkipsFetch(user, lastUserId, lists) then lists else ListsAfterRefetch(lists, fetched)
  }

  /** The lists a refetch that always queries would leave: the rows returned, or the old lists on an error. */
  function ListsAfterRefetch(lists: seq<ShoppingList>, fetched: Result<Option<seq<ShoppingList>>, string>): seq<ShoppingList> {
    match fetched
    case Err(_) => lists
    case Ok(data) => if data.Some? then data.value else []
  }

  /**
   * As written, the `refetch()` that `handleDeleteItem` in ShoppingCart.tsx
   * awaits right after the delete queries nothing and leaves the old lists:
   * the cache is non-empty and the user is the same, although the table now
   * holds no row. (The `shoppingListSaved` listener fired afterwards holds an
   * older `fetchLists`, which in the usual case does query.)
   */
  lemma RefetchKeepsStaleLists()
    ensures var shown := [ShoppingList("list-1", ["Milk"])];
      && ListsAfterFetch(shown, Some("user-1"), "user-1", Ok(Some([]))) == shown
      && ListsAfterRefetch(shown, Ok(Some([]))) == []
  {
  }

  /** The two agree whenever the skip rule does not apply. */
  lemma RefetchAgreesWithoutSkip(lists: seq<ShoppingList>, lastUserId: Option<string>, user: string,
                                 fetched: Result<Option<seq<ShoppingList>>, string>)
    ensures ListsAfterFetch(lists, lastUserId, user, fetched) == ListsAfterRefetch(lists, fetched)
            <== !SkipsFetch(user, lastUserId, lists)
    ensures fetched.Ok? ==> ListsAfterRefetch(lists, fetched) == (if fetched.value.Some? then fetched.value.value else [])
  {
  }

  class ListsHook {
    var lists: seq<ShoppingList>
    var loading: bool
    var error: Option<string>
    var lastUserId: Option<string>

    /** Lines 20-24. */
    constructor ()
      ensures lists == [] && loading && error == None && lastUserId == None
    {
      lists := [];
      loading := true;
      error := None;
      lastUserId := None;
    }

    /**
     * `fetchLists` for `user` (its id, or `None` when signed out); `fetched`
     * is the query's outcome. `queried` tells whether the query was issued.
     */
    method FetchLists(user: Option<string>, fetched: Result<Option<seq<ShoppingList>>, string>)
      returns (queried: bool)
      modifies this
      ensures user.None? ==>
        !queried && lists == [] && !loading && lastUserId == None && error == old(error)
      ensures user.Some? ==> lists == ListsAfterFetch(old(lists), old(lastUserId), user.value, fetched)
      ensures user.Some? && SkipsFetch(user.value, old(lastUserId), old(lists)) ==>
        !queried && lists == old(lists) && loading == old(loading) && error == old(error) && lastUserId == old(lastUserId)
      ensures user.Some? && !SkipsFetch(user.value, old(lastUserId), old(lists)) ==>
        queried && !loading
        && (fetched.Ok? ==>
              lists == (if fetched.value.Some? then fetched.value.value else [])
              && lastUserId == user && error == None)
        && (fetched.Err? ==>
              error == Some(fetched.error) && lists == old(lists) && lastUserId == old(lastUserId))
    {
      if user.None? {
        lists := [];
        loading := false;
        lastUserId := None;
        return false;
      }
      if user == lastUserId && |lists| > 0 {
        return false;
      }
      loading := true;
      error := None;
      queried := true;
      match fetched {
        case Err(message) =>
          error := Some(message);
        case Ok(data) =>
          lists := if data.Some? then data.value else [];
          lastUserId := user;
      }
      loading := false;
    }

    /**
     * The refresh the callers of `refetch` after a delete intend: the same
     * query and transitions as `fetchLists`, without the skip rule.
     */
    method Refetch(user: string, fetched: Result<Option<seq<ShoppingList>>, string>)
      modifies this
      ensures lists == ListsAfterRefetch(old(lists), fetched)
      ensures !loading
      ensures fetched.Ok? ==> lastUserId == Some(user) && error == None
      ensures fetched.Err? ==> error == Some(fetched.error) && lastUserId == old(lastUserId)
    {
      loading := true;
      error := None;
      match fetched {
        case Err(message) =>
          error := Some(message);
        case Ok(data) =>
          lists := if data.Some? then data.value else [];
          lastUserId := Some(user);
      }
      loading := false;
    }

    /** The effect of lines 65-71, run when the user id changes. */
    method UserChanged(user: Option<string>, fetched: Result<Option<seq<ShoppingList>>, string>)
      returns (queried: bool)
      modifies this
      ensures !EffectFetches(user, old(lastUserId)) ==>
        !queried && lists == old(lists) && loading == old(loading) && error == old(error) && lastUserId == old(lastUserId)
      ensures queried ==> EffectFetches(user, old(lastUserId)) && user.Some? && !loading
      ensures user.None? ==>
        !queried && lists == [] && !loading && lastUserId == None && error == old(error)
      ensures user.Some? && user != old(lastUserId) ==>
        queried && !loading
        && lists == ListsAfterFetch(old(lists), old(lastUserId), user.value, fetched)
        && lists == ListsAfterRefetch(old(lists), fetched)
        && (fetched.Ok? ==> lastUserId == user && error == None)
        && (fetched.Err? ==> error == Some(fetched.error) && lastUserId == old(lastUserId))
    {
      queried := false;
      if EffectFetches(user, lastUserId) {
        queried := FetchLists(user, fetched);
      }
    }
  }
}
