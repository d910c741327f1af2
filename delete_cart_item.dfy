/**
 * `deleteItem` of app/hooks/use-delete-cart-item.ts: remove every occurrence
 * of an item from the signed-in user's shopping lists, then delete the lists
 * left empty, reporting the first failed statement.
 *
 * The hook's two flags live in `DeleteCartItemHook`; the table is a
 * `Store.Table`. The rows the `select` returns and the error each statement
 * would report are parameters. The updates and deletes are issued together
 * (`Promise.all`); the model runs them one after the other, updates first,
 * and `UpdatesAndDeletesCommute` shows the other order ends in the same table.
 */
module DeleteCartItem {
  import opened Wrappers
  import opened Store

  const SignInRequired := "You must be signed in to delete items"
  const DeleteFailed := "Failed to delete item"

  /** `items.filter(i => i !== item)`: all occurrences go, every other element stays. */
  function Without(items: seq<string>, item: string): (r: seq<string>)
    ensures item !in r
    ensures forall x :: x != item ==> multiset(r)[x] == multiset(items)[x]
    ensures item !in items ==> r == items
  {
    if items == [] then []
    else
      assert items == [items[0]] + items[1..];
      (if items[0] == item then [] else [items[0]]) + Without(items[1..], item)
  }

  /** The filter keeps relative order: it distributes over concatenation. */
  lemma {:induction false} WithoutConcat(a: seq<string>, b: seq<string>, item: string)
    ensures Without(a + b, item) == Without(a, item) + Without(b, item)
  {
    if a == [] {
      assert a + b == b;
    } else {
      assert (a + b)[0] == a[0];
      assert (a + b)[1..] == a[1..] + b;
      WithoutConcat(a[1..], b, item);
    }
  }

  /** The list is left empty exactly when it held nothing but the item. */
  lemma {:induction false} WithoutEmpty(items: seq<string>, item: string)
    ensures Without(items, item) == [] <==> forall k :: 0 <= k < |items| ==> items[k] == item
  {
    if items != [] {
      WithoutEmpty(items[1..], item);
      assert forall k :: 1 <= k < |items| ==> items[k] == items[1..][k - 1];
    }
  }

  /** Lines 42-43: the lists that get an update. */
  predicate NeedsUpdate(row: ListRow, item: string) {
    item in row.items
  }

  /** Lines 53-57: the lists that get a delete, empty ones included. */
  predicate NeedsDelete(row: ListRow, item: string) {
    Without(row.items, item) == []
  }

  /** What the `select ... eq('user_id', u)` returned: the ids of exactly the user's rows. */
  predicate IsSelection(ids: seq<string>, rows: Rows, u: string) {
    && (forall k :: 0 <= k < |ids| ==> ids[k] in rows && rows[ids[k]].userId == u)
    && (forall id :: id in rows && rows[id].userId == u ==> id in ids)
  }

  /** The ids of `ids` that get a delete (or, when `deletes` is false, an update), in order. */
  function Targets(rows: Rows, ids: seq<string>, item: string, deletes: bool): (r: seq<string>)
    requires forall k :: 0 <= k < |ids| ==> ids[k] in rows
    ensures forall k :: 0 <= k < |r| ==> r[k] in rows
    ensures forall id :: id in r <==>
      id in ids && (if deletes then NeedsDelete(rows[id], item) else NeedsUpdate(rows[id], item))
    decreases |ids|
  {
    if ids == [] then []
    else
      var last := ids[|ids| - 1];
      var pick := if deletes then NeedsDelete(rows[last], item) else NeedsUpdate(rows[last], item);
      var r := Targets(rows, ids[..|ids| - 1], item, deletes) + (if pick then [last] else []);
      assert forall id :: id in ids <==> id in ids[..|ids| - 1] || id == last;
      r
  }

  /** The error messages of the statements on `ids`, in order. */
  function Messages(ids: seq<string>, fails: map<string, string>): (r: seq<string>)
    ensures |r| <= |ids|
    ensures r == [] <==> forall k :: 0 <= k < |ids| ==> ids[k] !in fails
  {
    if ids == [] then []
    else
      var last := ids[|ids| - 1];
      var r := Messages(ids[..|ids| - 1], fails) + (if last in fails then [fails[last]] else []);
      assert forall k :: 0 <= k < |ids| - 1 ==> ids[..|ids| - 1][k] == ids[k];
      r
  }

  /** The ids of `ids` whose statement succeeds. */
  function Succeeded(ids: seq<string>, fails: map<string, string>): set<string> {
    set id | id in ids && id !in fails
  }

  /** Lines 64-66: the first error's message, or the default one when it is empty. */
  function FirstError(errors: seq<string>): (r: Option<string>)
    ensures r.None? <==> errors == []
    ensures r.Some? ==> r.value == (if errors[0] == "" then DeleteFailed else errors[0])
  {
    if errors == [] then None
    else if errors[0] == "" then Some(DeleteFailed)
    else Some(errors[0])
  }

  /** The table after the successful updates (line 48). */
  function ApplyUpdates(rows: Rows, ids: set<string>, item: string): Rows {
    map id | id in rows :: if id in ids then rows[id].(items := Without(rows[id].items, item)) else rows[id]
  }

  /** The table after the successful deletes (line 58). */
  function ApplyDeletes(rows: Rows, ids: set<string>): Rows {
    map id | id in rows && id !in ids :: rows[id]
  }

  /**
   * The table after `deleteItem(item)` for user `u`, row by row: a row of
   * another user, or one needing nothing, is kept as it was; the user's row
   * whose delete succeeds is gone; otherwise a successful update removes the
   * item from it.
   */
  function AfterDelete(rows: Rows, u: string, item: string,
                       updateFails: map<string, string>, deleteFails: map<string, string>): Rows
  {
    map id | id in rows && !(rows[id].userId == u && NeedsDelete(rows[id], item) && id !in deleteFails) ::
      if rows[id].userId == u && NeedsUpdate(rows[id], item) && id !in updateFails
      then rows[id].(items := Without(rows[id].items, item))
      else rows[id]
  }

  /**
   * When every statement succeeds: the item is in none of the user's remaining
   * lists and none of them is empty; every row of another user, and every
   * non-empty list of the user without the item, is untouched; the user's lists
   * deleted are exactly those holding nothing but the item.
   */
  lemma SuccessfulDelete(rows: Rows, u: string, item: string)
    ensures forall id :: id in AfterDelete(rows, u, item, map[], map[]) && AfterDelete(rows, u, item, map[], map[])[id].userId == u ==>
      item !in AfterDelete(rows, u, item, map[], map[])[id].items && AfterDelete(rows, u, item, map[], map[])[id].items != []
    ensures forall id :: id in rows && rows[id].userId != u ==>
      id in AfterDelete(rows, u, item, map[], map[]) && AfterDelete(rows, u, item, map[], map[])[id] == rows[id]
    ensures forall id :: id in rows && item !in rows[id].items && rows[id].items != [] ==>
      id in AfterDelete(rows, u, item, map[], map[]) && AfterDelete(rows, u, item, map[], map[])[id] == rows[id]
    ensures forall id :: id in rows && id !in AfterDelete(rows, u, item, map[], map[]) <==>
      id in rows && rows[id].userId == u && forall k :: 0 <= k < |rows[id].items| ==> rows[id].items[k] == item
  {
    var r := AfterDelete(rows, u, item, map[], map[]);
    forall id | id in rows
      ensures id !in r <==> rows[id].userId == u && forall k :: 0 <= k < |rows[id].items| ==> rows[id].items[k] == item
    {
      WithoutEmpty(rows[id].items, item);
    }
  }

  /** A user without lists changes nothing (lines 37-39). */
  lemma NoListsNoChange(rows: Rows, u: string, item: string,
                        updateFails: map<string, string>, deleteFails: map<string, string>)
    requires IdsOf(rows, u) == {}
    ensures AfterDelete(rows, u, item, updateFails, deleteFails) == rows
  {
    var r := AfterDelete(rows, u, item, updateFails, deleteFails);
    assert forall id :: id in rows ==> id !in IdsOf(rows, u);
    assert r.Keys == rows.Keys;
  }

  /**
   * `Promise.all` does not fix the order in which the statements reach the
   * table: deleting first and updating after (an update of a deleted id
   * matches no row) ends in the same table.
   */
  lemma UpdatesAndDeletesCommute(rows: Rows, ups: set<string>, dels: set<string>, item: string)
    ensures ApplyDeletes(ApplyUpdates(rows, ups, item), dels) == ApplyUpdates(ApplyDeletes(rows, dels), ups, item)
  {
    var a := ApplyDeletes(ApplyUpdates(rows, ups, item), dels);
    var b := ApplyUpdates(ApplyDeletes(rows, dels), ups, item);
    assert a.Keys == b.Keys;
  }

  /** Running the chosen statements gives the row-by-row result. */
  lemma {:induction false} StatementsGiveAfterDelete(rows: Rows, u: string, item: string, selected: seq<string>,
                                                     updateFails: map<string, string>, deleteFails: map<string, string>)
    requires IsSelection(selected, rows, u)
    ensures ApplyDeletes(ApplyUpdates(rows, Succeeded(Targets(rows, selected, item, false), updateFails), item),
                         Succeeded(Targets(rows, selected, item, true), deleteFails))
            == AfterDelete(rows, u, item, updateFails, deleteFails)
  {
    var ups := Targets(rows, selected, item, false);
    var dels := Targets(rows, selected, item, true);
    var a := ApplyDeletes(ApplyUpdates(rows, Succeeded(ups, updateFails), item), Succeeded(dels, deleteFails));
    var b := AfterDelete(rows, u, item, updateFails, deleteFails);
    forall id | id in rows
      ensures id in Succeeded(dels, deleteFails) <==> rows[id].userId == u && NeedsDelete(rows[id], item) && id !in deleteFails
      ensures id in Succeeded(ups, updateFails) <==> rows[id].userId == u && NeedsUpdate(rows[id], item) && id !in updateFails
    {
    }
    assert a.Keys == b.Keys;
  }

  lemma ApplyUpdatesStep(rows: Rows, done: set<string>, id: string, item: string)
    requires id in rows
    ensures UpdateWhereId(ApplyUpdates(rows, done, item), id, Without(rows[id].items, item))
            == ApplyUpdates(rows, done + {id}, item)
  {
    var a := UpdateWhereId(ApplyUpdates(rows, done, item), id, Without(rows[id].items, item));
    var b := ApplyUpdates(rows, done + {id}, item);
    assert a.Keys == b.Keys;
  }

  lemma ApplyDeletesStep(rows: Rows, done: set<string>, id: string)
    ensures ApplyDeletes(rows, done) - {id} == ApplyDeletes(rows, done + {id})
  {
  }

  /** Lines 42-50: one update per id, each writing the filtered items of the row as fetched. */
  method IssueUpdates(table: Table, ups: seq<string>, item: string, fails: map<string, string>)
    returns (errors: seq<string>)
    requires forall k :: 0 <= k < |ups| ==> ups[k] in table.rows
    modifies table
    ensures table.rows == ApplyUpdates(old(table.rows), Succeeded(ups, fails), item)
    ensures errors == Messages(ups, fails)
  {
    var snapshot := table.rows;
    errors := [];
    for i := 0 to |ups|
      invariant table.rows == ApplyUpdates(snapshot, Succeeded(ups[..i], fails), item)
      invariant errors == Messages(ups[..i], fails)
    {
      var id := ups[i];
      assert ups[..i + 1][..i] == ups[..i];
      assert Succeeded(ups[..i + 1], fails) == Succeeded(ups[..i], fails) + (if id in fails then {} else {id});
      if id in fails {
        errors := errors + [fails[id]];
      } else {
        ApplyUpdatesStep(snapshot, Succeeded(ups[..i], fails), id, item);
        table.UpdateItems(id, Without(snapshot[id].items, item));
      }
    }
    assert ups[..|ups|] == ups;
  }

  /** Lines 53-58: one delete per id. */
  method IssueDeletes(table: Table, dels: seq<string>, fails: map<string, string>)
    returns (errors: seq<string>)
    modifies table
    ensures table.rows == ApplyDeletes(old(table.rows), Succeeded(dels, fails))
    ensures errors == Messages(dels, fails)
  {
    var before := table.rows;
    errors := [];
    for i := 0 to |dels|
      invariant table.rows == ApplyDeletes(before, Succeeded(dels[..i], fails))
      invariant errors == Messages(dels[..i], fails)
    {
      var id := dels[i];
      assert dels[..i + 1][..i] == dels[..i];
      assert Succeeded(dels[..i + 1], fails) == Succeeded(dels[..i], fails) + (if id in fails then {} else {id});
      if id in fails {
        errors := errors + [fails[id]];
      } else {
        ApplyDeletesStep(before, Succeeded(dels[..i], fails), id);
        table.DeleteById(id);
      }
    }
    assert dels[..|dels|] == dels;
  }

  class DeleteCartItemHook {
    /** `isDeleting` */
    var isDeleting: bool
    /** `error` */
    var error: Option<string>

    /** Lines 12-13. */
    constructor ()
      ensures !isDeleting && error == None
    {
      isDeleting := false;
      error := None;
    }

    /**
     * `deleteItem(item)` for the signed-in `user`. `fetchError` is the error of
     * the `select` (or of creating the client), `selected` the ids it returned
     * otherwise, and `updateFails`/`deleteFails` the message each failing
     * statement reports. `thrown` is the message of the rejected promise.
     */
    method DeleteItem(table: Table, user: Option<string>, item: string, fetchError: Option<string>,
                      selected: seq<string>, updateFails: map<string, string>, deleteFails: map<string, string>)
      returns (thrown: Option<string>)
      requires user.Some? && fetchError.None? ==> IsSelection(selected, table.rows, user.value)
      modifies this, table
      ensures user.None? ==>
        thrown == Some(SignInRequired) && table.rows == old(table.rows)
        && isDeleting == old(isDeleting) && error == old(error)
      ensures user.Some? ==> !isDeleting
      ensures user.Some? && fetchError.Some? ==>
        thrown == fetchError && error == fetchError && table.rows == old(table.rows)
      ensures user.Some? && fetchError.None? ==>
        && table.rows == AfterDelete(old(table.rows), user.value, item, updateFails, deleteFails)
        && thrown == FirstError(Messages(Targets(old(table.rows), selected, item, false), updateFails)
                                + Messages(Targets(old(table.rows), selected, item, true), deleteFails))
        && error == thrown
    {
      if user.None? {
        return Some(SignInRequired);
      }
      isDeleting := true;
      error := None;
      if fetchError.Some? {
        error := fetchError;
        isDeleting := false;
        return fetchError;
      }
      var snapshot := table.rows;
      StatementsGiveAfterDelete(snapshot, user.value, item, selected, updateFails, deleteFails);
      if selected == [] {
        assert IdsOf(snapshot, user.value) == {};
        NoListsNoChange(snapshot, user.value, item, updateFails, deleteFails);
        isDeleting := false;
        return None;
      }
      var ups := Targets(snapshot, selected, item, false);
      var dels := Targets(snapshot, selected, item, true);
      var updateErrors := IssueUpdates(table, ups, item, updateFails);
      var deleteErrors := IssueDeletes(table, dels, deleteFails);
      var errors := updateErrors + deleteErrors;
      thrown := FirstError(errors);
      error := thrown;
      isDeleting := false;
    }
  }
}
