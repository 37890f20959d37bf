/** The command table with its procedures, each changing rows in place. */
module CommandTable {
  import opened Sql
  import opened CommandDelivery
  import opened CommandRace
  import TaskStates
  import TopK

  class Commands {
    var runs: map<int, Run>
    var rows: map<int, Row>
    var looked: map<int, (int, bool)>

    function Contents(): World
      reads this
    {
      World(runs, rows, looked)
    }

    ghost predicate Valid()
      reads this
    {
      WellKeyed(Contents()) && AtMostOneOpen(Contents())
    }

    /** The transaction took place, or had no effect. */
    twostate predicate Did(e: Event, ok: bool)
      reads this
    {
      && ok == Next(old(Contents()), e).Some?
      && Contents() == if ok then Next(old(Contents()), e).value else old(Contents())
    }

    constructor ()
      ensures Valid() && Contents() == EMPTY
    {
      runs, rows, looked := map[], map[], map[];
    }

    method CreateRun(run: int, initial: Run) returns (ok: bool)
      requires Valid()
      modifies this
      ensures Valid() && Did(Event.CreateRun(run, initial), ok)
    {
      ok := run !in runs && !initial.sealed && TaskStates.Initial(initial.state);
      if ok { runs := runs[run := initial]; }
      Untouched(old(Contents()), Event.CreateRun(run, initial));
    }

    method SealRun(run: int, now: int) returns (ok: bool)
      requires Valid()
      modifies this
      ensures Valid() && Did(Seal(run, now), ok)
    {
      ok := run in runs && !runs[run].sealed && runs[run].state.createdAt <= now;
      if ok { runs := runs[run := Sealed(runs[run], now)]; }
      Untouched(old(Contents()), Seal(run, now));
    }

    method MoveRun(run: int, target: TaskStates.State) returns (ok: bool)
      requires Valid()
      modifies this
      ensures Valid() && Did(Move(run, target), ok)
    {
      ok := run in runs && runs[run].sealed && TaskStates.Accepted(runs[run].state, target);
      if ok { runs := runs[run := runs[run].(state := target)]; }
      Untouched(old(Contents()), Move(run, target));
    }

    method InsertCommand(row: Row) returns (ok: bool)
      requires Valid()
      modifies this
      ensures Valid() && Did(Insert(row), ok)
    {
      ok := Insertable(Contents(), row);
      if ok {
        StepKeepsOneOpen(Contents(), Insert(row));
        rows := rows[row.identity.id := row];
      }
    }

    /** One `update ... where id = ...`: the row changes if it is selected and accepted. */
    method Update(id: int, c: Call, ghost e: Event) returns (ok: bool)
      requires Valid() && Changes(Contents(), e, id, c)
      modifies this
      ensures Valid() && Did(e, ok)
    {
      StepIsUpdate(Contents(), e, id, c);
      if Next(Contents(), e).Some? { StepKeepsOneOpen(Contents(), e); }
      var n := Updated(rows[id], c);
      ok := Guard(rows[id], n) && CommandDelivery.Shape(n);
      if ok { rows := rows[id := n]; }
    }

    method Deliver(id: int, token: int, expected: int, at: int) returns (ok: bool)
      requires Valid()
      modifies this
      ensures Valid() && Did(Settle(id, Call.Deliver(token, expected, at)), ok)
    {
      if id !in rows || !HeldBy(rows[id], token, expected, at) { return false; }
      var c := Call.Deliver(token, expected, at);
      ok := Update(id, c, Settle(id, c));
    }

    method Retry(id: int, token: int, expected: int, code: string, delay: int, at: int) returns (ok: bool)
      requires Valid()
      modifies this
      ensures Valid() && Did(Settle(id, Call.Retry(token, expected, code, delay, at)), ok)
    {
      if !(100 <= delay <= 3_600_000) || id !in rows || !HeldBy(rows[id], token, expected, at) { return false; }
      var c := Call.Retry(token, expected, code, delay, at);
      ok := Update(id, c, Settle(id, c));
    }

    /** First half of a failure: read whether the run was closed as canceled, without a lock. */
    method LookUpRun(tx: int, id: int) returns (ok: bool)
      requires Valid()
      modifies this
      ensures Valid() && Did(LookUp(tx, id), ok)
    {
      ok := tx !in looked && id in rows;
      if ok {
        var run := rows[id].identity.run;
        var canceled := run in runs
          && runs[run].state.lifecycle == TaskStates.Closed && runs[run].state.quality == TaskStates.Quality.Canceled;
        looked := looked[tx := (id, canceled)];
      }
      Untouched(old(Contents()), LookUp(tx, id));
    }

    /** Second half: the update, by what was read. */
    method Fail(tx: int, token: int, expected: int, code: string, at: int) returns (ok: bool)
      requires Valid()
      modifies this
      ensures Valid() && Did(FailWith(tx, token, expected, code, at), ok)
    {
      if tx !in looked { return false; }
      var (id, canceled) := looked[tx];
      if id !in rows || !HeldBy(rows[id], token, expected, at) { return false; }
      ok := Update(id, Call.Fail(token, expected, code, at, canceled), FailWith(tx, token, expected, code, at));
    }

    method ApplyTo(id: int, kind: Kind, at: int) returns (ok: bool)
      requires Valid()
      modifies this
      ensures Valid() && Did(ApplyCommand(id, kind, at), ok)
    {
      if id !in rows || rows[id].identity.kind != kind { return false; }
      if rows[id].status == Applied {
        Untouched(Contents(), ApplyCommand(id, kind, at));
        return true;
      }
      if !Selects(rows[id], Apply(at)) || !Applicable(Contents(), rows[id].identity.run, kind) { return false; }
      ok := Update(id, Apply(at), ApplyCommand(id, kind, at));
    }

    /** One update statement over many rows. */
    method UpdateAll(calls: map<int, Call>, ghost e: Event) returns (ok: bool)
      requires Valid() && ChangesAll(Contents(), e, calls)
      modifies this
      ensures Valid() && Did(e, ok)
    {
      StepIsBatch(Contents(), e, calls);
      if Next(Contents(), e).Some? { StepKeepsOneOpen(Contents(), e); }
      ok := forall x :: x in calls ==> Accepted(rows[x], calls[x]);
      if ok { rows := UpdatedAll(rows, calls); }
    }

    method Supersede(run: int, by_: int, at: int) returns (ok: bool, affected: set<int>)
      requires Valid()
      modifies this
      ensures Valid() && Did(SupersedeAll(run, by_, at), ok)
      ensures affected == if ok then Supersedable(old(rows), run, by_, at) else {}
    {
      affected := {};
      ok := by_ in rows && rows[by_].identity.run == run && rows[by_].identity.kind == Cancel
        && run in runs && runs[run].state.lifecycle == TaskStates.Canceling;
      if !ok { return; }
      var open := Supersedable(rows, run, by_, at);
      var calls := map x | x in open :: Call.Supersede(by_, at);
      ok := UpdateAll(calls, SupersedeAll(run, by_, at));
      if ok { affected := open; }
    }

    method Claim(
        claimant: string, namespace: string, limit: int, lease: int, at: int, locked: set<int>, tokens: map<int, int>)
      returns (ok: bool, claimed: set<int>)
      requires Valid() && rows.Keys <= tokens.Keys
      modifies this
      ensures Valid() && Did(ClaimBatch(claimant, namespace, limit, lease, at, locked, tokens), ok)
      ensures ok ==> IsBatch(old(rows), claimed, namespace, limit, at, locked)
    {
      claimed := {};
      ok := 1 <= limit <= 100 && 1 <= lease <= 900;
      if !ok { return; }
      var due := Candidates(Contents(), namespace, at, locked);
      claimed := TopK.FirstK(Ranks(Contents()), due, limit);
      TopK.FirstKIsTopK(Ranks(Contents()), due, limit);
      FirstRowsAreBatch(Contents(), namespace, limit, at, locked);
      var calls := map x | x in claimed :: Call.Claim(tokens[x], claimant, lease, at);
      ok := UpdateAll(calls, ClaimBatch(claimant, namespace, limit, lease, at, locked, tokens));
    }
  }

  /** The open pause and resume commands of a run. */
  function Supersedable(rows: map<int, Row>, run: int, by_: int, at: int): set<int> {
    set x | x in rows && rows[x].identity.run == run && Selects(rows[x], Call.Supersede(by_, at))
  }
}
