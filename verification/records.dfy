/** The rows the app reads from its database: exercises and workout logs.
    The completion timestamp of a log is abstracted to an integer day key
    (the local calendar day it falls on). */
module Records {
  import opened Common

  type Id = string

  datatype Exercise = Exercise(
    id: Id,
    name: string,
    youtubeUrl: Option<string>,
    isPredefined: bool)

  datatype WorkoutLog = WorkoutLog(
    id: Id,
    exerciseId: Id,
    sets: int,
    reps: int,
    durationSeconds: Option<int>,
    day: int,
    notes: Option<string>)

  /** `list.filter(x => x.id !== id)`, for any row type with an id. */
  function WithoutId<T(!new)>(s: seq<T>, idOf: T -> Id, id: Id): (r: seq<T>)
    ensures |r| <= |s|
    ensures forall x :: x in r <==> x in s && idOf(x) != id
  {
    if s == [] then []
    else (if idOf(s[0]) != id then [s[0]] else []) + WithoutId(s[1..], idOf, id)
  }

  /** Filtering distributes over concatenation: survivors keep their relative order. */
  lemma {:induction false} WithoutIdAppend<T(!new)>(a: seq<T>, b: seq<T>, idOf: T -> Id, id: Id)
    ensures WithoutId(a + b, idOf, id) == WithoutId(a, idOf, id) + WithoutId(b, idOf, id)
  {
    if a == [] {
      assert a + b == b;
    } else {
      assert (a + b)[1..] == a[1..] + b;
      WithoutIdAppend(a[1..], b, idOf, id);
    }
  }

  /** Removing an id nobody has changes nothing. */
  lemma {:induction false} WithoutAbsentId<T(!new)>(s: seq<T>, idOf: T -> Id, id: Id)
    requires forall i :: 0 <= i < |s| ==> idOf(s[i]) != id
    ensures WithoutId(s, idOf, id) == s
  {
    if s != [] {
      WithoutAbsentId(s[1..], idOf, id);
    }
  }

  /** Deleting the same id twice is the same as deleting it once. */
  lemma WithoutIdIdempotent<T(!new)>(s: seq<T>, idOf: T -> Id, id: Id)
    ensures WithoutId(WithoutId(s, idOf, id), idOf, id) == WithoutId(s, idOf, id)
  {
    var r := WithoutId(s, idOf, id);
    forall i | 0 <= i < |r| ensures idOf(r[i]) != id {
      assert r[i] in r;
    }
    WithoutAbsentId(r, idOf, id);
  }

  function ExerciseId(e: Exercise): Id { e.id }

  function LogId(l: WorkoutLog): Id { l.id }

  /** `exercises.find(ex => ex.id === id)`: the first exercise carrying that id, if any. */
  function FindExercise(exercises: seq<Exercise>, id: Id): (r: Option<Exercise>)
    ensures r.None? <==> forall i :: 0 <= i < |exercises| ==> exercises[i].id != id
    ensures r.Some? ==> exists i :: 0 <= i < |exercises| && exercises[i] == r.value && r.value.id == id
                          && forall j :: 0 <= j < i ==> exercises[j].id != id
  {
    if exercises == [] then None
    else if exercises[0].id == id then Some(exercises[0])
    else
      var r := FindExercise(exercises[1..], id);
      if r.Some? then
        var i :| 0 <= i < |exercises[1..]| && exercises[1..][i] == r.value && r.value.id == id
                 && forall j :: 0 <= j < i ==> exercises[1..][j].id != id;
        assert exercises[i + 1] == r.value;
        r
      else r
  }
}
