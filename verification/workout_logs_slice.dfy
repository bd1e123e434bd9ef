/** The workout history held in the store: the list of logs, newest first, with the
    loading and error flags of the last fetch. Only the reducer cases are modelled;
    the database calls that fulfil or reject them are not. */
module WorkoutLogsSlice {
  import opened Common
  import opened Records

  /** What `addWorkoutLog` sends to the database. */
  datatype NewLog = NewLog(
    exerciseId: Id,
    sets: int,
    reps: int,
    durationSeconds: Option<int>,
    notes: Option<string>)

  const FetchFailed := "Failed to fetch workout logs"

  /** Adding a log and then deleting its id gives back the list from before, when the id was new. */
  lemma DeleteUndoesAdd(logs: seq<WorkoutLog>, log: WorkoutLog)
    requires forall i :: 0 <= i < |logs| ==> logs[i].id != log.id
    ensures WithoutId([log] + logs, LogId, log.id) == logs
  {
    assert ([log] + logs)[1..] == logs;
    WithoutAbsentId(logs, LogId, log.id);
  }

  class WorkoutLogsStore {
    var logs: seq<WorkoutLog>
    var loading: bool
    var error: Option<string>

    constructor ()
      ensures logs == [] && !loading && error == None
    {
      logs := [];
      loading := false;
      error := None;
    }

    method FetchPending()
      modifies this
      ensures loading && error == None && logs == old(logs)
    {
      loading := true;
      error := None;
    }

    method FetchFulfilled(payload: seq<WorkoutLog>)
      modifies this
      ensures !loading && logs == payload && error == old(error)
    {
      loading := false;
      logs := payload;
    }

    /** The rejection's message, or the fixed fallback when it has none. */
    method FetchRejected(message: Option<string>)
      modifies this
      ensures !loading && logs == old(logs)
      ensures error == Some(StringOr(message, FetchFailed)) && error.value != ""
    {
      loading := false;
      error := Some(StringOr(message, FetchFailed));
    }

    /** The saved log goes in front; the older logs follow in their order. */
    method AddFulfilled(log: WorkoutLog)
      modifies this
      ensures logs == [log] + old(logs)
      ensures |logs| == |old(logs)| + 1 && logs[0] == log && logs[1..] == old(logs)
      ensures loading == old(loading) && error == old(error)
    {
      logs := [log] + logs;
    }

    method DeleteFulfilled(id: Id)
      modifies this
      ensures logs == WithoutId(old(logs), LogId, id)
      ensures forall i :: 0 <= i < |logs| ==> logs[i].id != id
      ensures (forall i :: 0 <= i < |old(logs)| ==> old(logs)[i].id != id) ==> logs == old(logs)
      ensures loading == old(loading) && error == old(error)
    {
      WithoutIdIdempotent(logs, LogId, id);
      if forall i :: 0 <= i < |logs| ==> logs[i].id != id {
        WithoutAbsentId(logs, LogId, id);
      }
      logs := WithoutId(logs, LogId, id);
      forall i | 0 <= i < |logs| ensures logs[i].id != id {
        assert logs[i] in logs;
      }
    }
  }
}
