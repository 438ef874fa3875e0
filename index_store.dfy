/**
 * What a bulk request leaves in a search index, under the assumption that
 * indexing a document under an `_id` already present overwrites it.
 */
module IndexStore {
  import opened Wrappers

  /** One bulk action: target index, document `_id` and `_source`. */
  datatype Action<T> = Action(index: string, id: string, source: T)

  /** The index after applying the actions in order to `table`. */
  function BulkUpsert<T>(table: map<string, T>, actions: seq<Action<T>>): map<string, T> {
    if actions == [] then table
    else
      var a := actions[|actions| - 1];
      BulkUpsert(table, actions[..|actions| - 1])[a.id := a.source]
  }

  /** The source of the last action with this id (reference definition). */
  function LastSource<T>(actions: seq<Action<T>>, id: string): (r: Option<T>)
    ensures r.None? <==> forall i :: 0 <= i < |actions| ==> actions[i].id != id
    ensures r.Some? ==> exists i :: 0 <= i < |actions| && actions[i].id == id && actions[i].source == r.value
  {
    if actions == [] then None
    else if actions[|actions| - 1].id == id then Some(actions[|actions| - 1].source)
    else LastSource(actions[..|actions| - 1], id)
  }

  /** The stored document under `id` is the last one indexed under it, else the old one. */
  lemma {:induction false} BulkUpsertAt<T>(table: map<string, T>, actions: seq<Action<T>>, id: string)
    ensures id in BulkUpsert(table, actions) <==> id in table || LastSource(actions, id).Some?
    ensures LastSource(actions, id).Some? ==> BulkUpsert(table, actions)[id] == LastSource(actions, id).value
    ensures LastSource(actions, id).None? && id in table ==> BulkUpsert(table, actions)[id] == table[id]
  {
    if actions != [] {
      BulkUpsertAt(table, actions[..|actions| - 1], id);
    }
  }

  /** Re-sending the same bulk request changes nothing. */
  lemma BulkUpsertIdempotent<T>(table: map<string, T>, actions: seq<Action<T>>)
    ensures BulkUpsert(BulkUpsert(table, actions), actions) == BulkUpsert(table, actions)
  {
    var once := BulkUpsert(table, actions);
    var twice := BulkUpsert(once, actions);
    forall id ensures (id in twice <==> id in once) && (id in once ==> twice[id] == once[id]) {
      BulkUpsertAt(table, actions, id);
      BulkUpsertAt(once, actions, id);
    }
  }
}
