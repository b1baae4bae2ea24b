/**
 * The database as the pages see it: the `obras` table, which only grows by inserts that receive a fresh id,
 * and the `movimentacoes` table, written only through the upsert. Any write may fail (network, permissions);
 * `online` stands for whether the next writes go through.
 */
module Store {
  import opened Base
  import opened Ledger
  import Projects

  datatype WriteError = Unavailable

  class Database {
    var projects: seq<Projects.Project>
    var entries: Table
    var online: bool
    var nextId: int

    /** Entries sit under their own key; project ids are distinct and below the next id to hand out. */
    ghost predicate Valid()
      reads this
    {
      && WellKeyed(entries)
      && (forall i | 0 <= i < |projects| :: projects[i].id < nextId)
      && (forall i, j | 0 <= i < j < |projects| :: projects[i].id != projects[j].id)
    }

    constructor (online: bool)
      ensures Valid()
      ensures projects == [] && entries == map[] && this.online == online
    {
      projects := [];
      entries := map[];
      this.online := online;
      nextId := 1;
    }

    /** The environment decides whether the following writes succeed. */
    method SetOnline(b: bool)
      requires Valid()
      modifies this
      ensures Valid()
      ensures online == b && projects == old(projects) && entries == old(entries) && nextId == old(nextId)
    {
      online := b;
    }

    /** `salvar_obra`: one insert into `obras`; on failure nothing is stored. */
    method InsertProject(rec: Projects.ProjectRecord) returns (r: Result<int, WriteError>)
      requires Valid()
      modifies this
      ensures Valid()
      ensures entries == old(entries) && online == old(online)
      ensures !online ==> r == Err(Unavailable) && projects == old(projects) && nextId == old(nextId)
      ensures online ==> r == Ok(old(nextId)) && projects == old(projects) + [Projects.Project(old(nextId), rec)]
    {
      if !online {
        return Err(Unavailable);
      }
      projects := projects + [Projects.Project(nextId, rec)];
      r := Ok(nextId);
      nextId := nextId + 1;
    }

    /**
     * `salvar_movimentacao`: the batch is upserted row by row, a row whose key is already stored being
     * ignored, and the message is chosen from how many rows were written. On failure nothing is stored.
     */
    method SaveEntries(batch: seq<Entry>) returns (r: Result<Feedback, WriteError>)
      requires Valid()
      modifies this
      ensures Valid()
      ensures projects == old(projects) && nextId == old(nextId) && online == old(online)
      ensures !online ==> r == Err(Unavailable) && entries == old(entries)
      ensures online ==> r == Ok(FeedbackFor(CountNew(old(entries), batch), |batch|))
                         && entries == InsertAll(old(entries), batch)
    {
      if !online {
        return Err(Unavailable);
      }
      ghost var start := entries;
      var count := 0;
      var i := 0;
      while i < |batch|
        invariant 0 <= i <= |batch|
        invariant entries == InsertAll(start, batch[..i])
        invariant count == CountNew(start, batch[..i])
        invariant WellKeyed(entries)
        invariant projects == old(projects) && nextId == old(nextId) && online
      {
        assert batch[..i + 1][..i] == batch[..i];
        var e := batch[i];
        if e.Key() !in entries {
          entries := entries[e.Key() := e];
          count := count + 1;
        }
        i := i + 1;
      }
      assert batch[..|batch|] == batch;
      r := Ok(FeedbackFor(count, |batch|));
    }
  }
}
