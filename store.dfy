/**
 * The `shopping_lists` table as the application sees it through Supabase:
 * rows keyed by their primary key `id`, each owned by a `user_id` and holding
 * an array of item labels. The three statements the application issues
 * against it are `update ... eq('id', ·)`, `delete ... eq('id', ·)` and
 * `delete ... eq('user_id', ·)`.
 */
module Store {
  datatype ListRow = ListRow(userId: string, items: seq<string>)

  type Rows = map<string, ListRow>

  /** The ids a `select ... eq('user_id', u)` returns. */
  function IdsOf(rows: Rows, u: string): set<string> {
    set id | id in rows && rows[id].userId == u
  }

  /** `delete().eq('user_id', u)` */
  function DeleteWhereUser(rows: Rows, u: string): Rows {
    map id | id in rows && rows[id].userId != u :: rows[id]
  }

  /** `update({ items }).eq('id', id)`: a missing id matches no row. */
  function UpdateWhereId(rows: Rows, id: string, items: seq<string>): Rows {
    if id in rows then rows[id := rows[id].(items := items)] else rows
  }

  /**
   * Deleting by user removes exactly that user's rows, and every row it keeps
   * is unchanged: other users' data is never touched.
   */
  lemma DeleteWhereUserRemovesExactlyOwned(rows: Rows, u: string)
    ensures forall id :: id in DeleteWhereUser(rows, u) <==> id in rows && id !in IdsOf(rows, u)
    ensures forall id :: id in DeleteWhereUser(rows, u) ==> DeleteWhereUser(rows, u)[id] == rows[id]
    ensures IdsOf(DeleteWhereUser(rows, u), u) == {}
    ensures forall v :: v != u ==> IdsOf(DeleteWhereUser(rows, u), v) == IdsOf(rows, v)
  {
    var r := DeleteWhereUser(rows, u);
    forall v | v != u
      ensures IdsOf(r, v) == IdsOf(rows, v)
    {
      assert forall id :: id in IdsOf(rows, v) ==> id in r;
    }
  }

  /** The table shrinks by exactly the number of the user's rows. */
  lemma DeleteWhereUserCount(rows: Rows, u: string)
    ensures |DeleteWhereUser(rows, u)| + |IdsOf(rows, u)| == |rows|
  {
    var r := DeleteWhereUser(rows, u);
    assert r.Keys == rows.Keys - IdsOf(rows, u);
    assert IdsOf(rows, u) <= rows.Keys;
    assert rows.Keys == r.Keys + IdsOf(rows, u);
    assert r.Keys !! IdsOf(rows, u);
  }

  /** A repeated delete by the same user removes nothing more. */
  lemma DeleteWhereUserIdempotent(rows: Rows, u: string)
    ensures DeleteWhereUser(DeleteWhereUser(rows, u), u) == DeleteWhereUser(rows, u)
    ensures |IdsOf(DeleteWhereUser(rows, u), u)| == 0
  {
    DeleteWhereUserRemovesExactlyOwned(rows, u);
  }

  /** The table: the single piece of shared state every client writes to. */
  class Table {
    var rows: Rows

    constructor (initial: Rows)
      ensures rows == initial
    {
      rows := initial;
    }

    method DeleteByUser(u: string)
      modifies this
      ensures rows == DeleteWhereUser(old(rows), u)
    {
      rows := DeleteWhereUser(rows, u);
    }

    method UpdateItems(id: string, items: seq<string>)
      modifies this
      ensures rows == UpdateWhereId(old(rows), id, items)
    {
      rows := UpdateWhereId(rows, id, items);
    }

    method DeleteById(id: string)
      modifies this
      ensures rows == old(rows) - {id}
    {
      rows := rows - {id};
    }
  }
}
