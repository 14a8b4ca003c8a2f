/**
 * Doctrine's entity manager, as far as the results API uses it: `find` on the Result,
 * Subject and User repositories (maps keyed by identifier), `persist` of a new Result
 * (which receives the next identifier) and `flush`, which writes the current state of
 * every managed Result to the committed rows.  `results` is the whole repository: every
 * committed row belongs to a managed Result, so a flush never loses a row.
 */
module Store {
  import opened Wrappers
  import opened Entity

  class EntityManager {
    var results: map<int, Result>
    var subjects: map<int, Subject>
    var users: map<int, User>
    var nextId: nat
    var committed: map<int, ResultRow>

    /** Identity of managed entities: each is filed under its own identifier, and `nextId` is unused. */
    ghost predicate Valid()
      reads this, results.Values, subjects.Values
    {
      && (forall k :: k in results ==> results[k].id == Some(k) && k < nextId)
      && committed.Keys <= results.Keys
      && (forall k :: k in subjects ==> subjects[k].id == Some(k))
      && (forall k :: k in users ==> users[k].id == k)
    }

    /**
     * A request starts from the committed rows: every managed Result holds exactly its
     * committed row.
     */
    ghost predicate Synced()
      reads this, results.Values
    {
      committed == Snapshot()
    }

    /** The rows the managed Results would write if flushed now. */
    ghost function Snapshot(): map<int, ResultRow>
      reads this`results, results.Values
    {
      map k | k in results :: results[k].Row()
    }

    /**
     * Makes `result` managed.  A Result that is already managed is left as it is; any
     * other receives the next identifier and is filed under it.
     */
    method Persist(result: Result)
      requires Valid()
      modifies this, result
      ensures Valid()
      ensures subjects == old(subjects) && users == old(users) && committed == old(committed)
      ensures old(result in results.Values) ==>
        results == old(results) && nextId == old(nextId) && result.Row() == old(result.Row())
      ensures !old(result in results.Values) ==>
        && result.Row() == old(result.Row()).(id := Some(old(nextId)))
        && results == old(results)[old(nextId) := result]
        && nextId == old(nextId) + 1
        && Snapshot() == old(Snapshot())[old(nextId) := result.Row()]
    {
      if result !in results.Values {
        var id := nextId;
        assert id !in results;
        result.id := Some(id);
        results := results[id := result];
        nextId := nextId + 1;
        assert forall k :: k in old(results) ==> results[k] == old(results)[k] && results[k] != result;
      }
    }

    /**
     * When no managed Result but the one filed under `k` has changed since the old
     * state, the rows to flush differ from the old ones in that row only.
     */
    twostate lemma SnapshotAfterUpdate(k: int)
      requires old(Valid()) && k in old(results)
      requires results == old(results)
      requires forall j :: j in results && j != k ==> results[j].Row() == old(results[j].Row())
      ensures Snapshot() == old(Snapshot())[k := results[k].Row()]
    {
    }

    /** Writes every managed Result to the committed rows. */
    method Flush()
      requires Valid()
      modifies this
      ensures Valid()
      ensures committed == Snapshot() && Snapshot() == old(Snapshot())
      ensures results == old(results) && subjects == old(subjects) && users == old(users)
      ensures nextId == old(nextId)
    {
      committed := map k | k in results :: results[k].Row();
    }
  }

}
