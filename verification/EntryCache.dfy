/** A tunnel's row and one machine's entry for it, updated in place (store.rs, service.rs). */
module EntryCache {
  import opened Common
  import opened Records

  datatype ImportOutcome = Inserted | KeptLocal | Unchanged | Updated

  datatype Saved = Ok | Conflicted | TimedOut

  class Row {
    /** The record and its revision, once there is a row. */
    var stored: Option<(Record, nat)>
    var local: bool
    /** Every record the row has held, the first at revision 1. */
    ghost var history: seq<Record>

    ghost predicate Valid()
      reads this
    {
      stored == if history == [] then None else Some((history[|history| - 1], |history|))
    }

    constructor ()
      ensures Valid() && history == [] && !local
    {
      stored, local, history := None, false, [];
    }

    /** Writes a record over the revision it was read at (0: no row), or fails when the row changed meanwhile. */
    method SaveTunnel(record: Record, revision: nat) returns (saved: Option<nat>)
      requires Valid()
      modifies this
      ensures Valid()
      ensures saved.Some? <==> revision == |old(history)|
      ensures saved.Some? ==> saved.value == |history| && history == old(history) + [record] && local
      ensures saved.None? ==> history == old(history) && local == old(local)
    {
      if revision == 0 {
        if stored.Some? {
          return None;
        }
        stored, local := Some((record, 1)), true;
        history := history + [record];
        return Some(1);
      }
      if stored.None? || stored.value.1 != revision {
        return None;
      }
      stored, local := Some((record, revision + 1)), true;
      history := history + [record];
      saved := Some(revision + 1);
    }

    /** An import replaces the record unless it is local and not forced, or equal. */
    method TryImport(record: Record, force: bool) returns (outcome: ImportOutcome)
      requires Valid()
      modifies this
      ensures Valid()
      ensures outcome.Inserted? || outcome.Updated? ==> history == old(history) + [record] && !local
      ensures outcome.KeptLocal? || outcome.Unchanged? ==> history == old(history) && local == old(local)
      ensures outcome.Inserted? <==> old(history) == []
      ensures outcome.KeptLocal? <==> old(history) != [] && old(local) && !force
      ensures outcome.Unchanged? <==>
                old(history) != [] && (!old(local) || force) && old(history)[|old(history)| - 1] == record
      ensures !outcome.KeptLocal? ==> At(history, |history|) == Some(record)
    {
      if stored.None? {
        stored, local := Some((record, 1)), false;
        history := history + [record];
        return Inserted;
      }
      if local && !force {
        return KeptLocal;
      }
      if stored.value.0 == record {
        return Unchanged;
      }
      stored, local := Some((record, stored.value.1 + 1)), false;
      history := history + [record];
      outcome := Updated;
    }
  }

  class Entry {
    var loaded: bool
    var record: Option<Record>
    var revision: nat

    /** The copy is what was stored at its revision. */
    ghost predicate Follows(row: Row)
      reads this, row
    {
      True(Copy(record, revision), row.history)
    }

    constructor (row: Row)
      ensures !loaded && Follows(row)
    {
      loaded, record, revision := false, None, 0;
    }

    method Read(row: Row)
      requires row.Valid()
      modifies this
      ensures loaded == old(loaded) && Follows(row) && revision == |row.history|
    {
      match row.stored
      case Some((r, n)) => record, revision := Some(r), n;
      case None => record, revision := None, 0;
    }

    /** Loads the record on first use. */
    method Lock(row: Row)
      requires row.Valid() && Follows(row)
      modifies this
      ensures loaded && Follows(row)
      ensures old(loaded) ==> record == old(record) && revision == old(revision)
      ensures !old(loaded) ==> revision == |row.history|
    {
      if !loaded {
        Read(row);
        loaded := true;
      }
    }

    /** Reads the record again; when the database does not answer, the copy there was is used. */
    method Refresh(row: Row, answers: bool)
      requires row.Valid() && Follows(row)
      modifies this
      ensures loaded == old(loaded) && Follows(row)
      ensures if answers then revision == |row.history| else record == old(record) && revision == old(revision)
    {
      if answers {
        Read(row);
      }
    }

    method Invalidate(row: Row)
      modifies this
      ensures !loaded && Follows(row)
    {
      loaded, record, revision := false, None, 0;
    }

    /**
     * Saves a change of the copy. It succeeds only over the very record the copy holds; after a conflict the entry
     * reloads; after a timeout the write may have been applied, and the copy is still true.
     */
    method Save(row: Row, newRecord: Record, answered: bool, applied: bool) returns (saved: Saved)
      requires row.Valid() && Follows(row)
      modifies this, row
      ensures row.Valid() && Follows(row)
      ensures saved == Ok ==> loaded == old(loaded) && record == Some(newRecord) && revision == |row.history|
      ensures saved == Ok ==> row.history == old(row.history) + [newRecord] && row.local
      ensures saved == Conflicted ==> !loaded && row.history == old(row.history)
      ensures saved == TimedOut ==> record == old(record) && revision == old(revision)
      ensures saved == TimedOut <==> !answered
      ensures !answered ==>
                row.history ==
                  old(row.history) + if applied && old(revision) == |old(row.history)| then [newRecord] else []
      ensures row.history != old(row.history) ==>
                row.history == old(row.history) + [newRecord] && At(old(row.history), |old(row.history)|) == old(record)
      ensures answered ==> (saved == Ok <==> old(revision) == |old(row.history)|)
    {
      if !answered && !applied {
        return TimedOut;
      }
      var n := row.SaveTunnel(newRecord, revision);
      if !answered {
        return TimedOut;
      }
      match n
      case Some(r) =>
        revision := r;
        record := Some(newRecord);
        saved := Ok;
      case None =>
        loaded, record, revision := false, None, 0;
        saved := Conflicted;
    }
  }
}
