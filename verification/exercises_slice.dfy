/** The exercise catalogue held in the store, with the loading and error flags of the
    last fetch. Only the reducer cases are modelled; the database calls are not. */
module ExercisesSlice {
  import opened Common
  import opened Records

  /** What `addExercise` inserts: the user's fields, always marked as not predefined. */
  datatype NewExercise = NewExercise(name: string, youtubeUrl: Option<string>, isPredefined: bool)

  const FetchFailed := "Failed to fetch exercises"

  function InsertRow(name: string, youtubeUrl: Option<string>): (row: NewExercise)
    ensures !row.isPredefined && row.name == name && row.youtubeUrl == youtubeUrl
  {
    NewExercise(name, youtubeUrl, false)
  }

  class ExercisesStore {
    var exercises: seq<Exercise>
    var loading: bool
    var error: Option<string>

    constructor ()
      ensures exercises == [] && !loading && error == None
    {
      exercises := [];
      loading := false;
      error := None;
    }

    method FetchPending()
      modifies this
      ensures loading && error == None && exercises == old(exercises)
    {
      loading := true;
      error := None;
    }

    method FetchFulfilled(payload: seq<Exercise>)
      modifies this
      ensures !loading && exercises == payload && error == old(error)
    {
      loading := false;
      exercises := payload;
    }

    method FetchRejected(message: Option<string>)
      modifies this
      ensures !loading && exercises == old(exercises)
      ensures error == Some(StringOr(message, FetchFailed)) && error.value != ""
    {
      loading := false;
      error := Some(StringOr(message, FetchFailed));
    }

    /** The saved exercise goes at the end; the earlier entries are untouched. */
    method AddFulfilled(ex: Exercise)
      modifies this
      ensures exercises == old(exercises) + [ex]
      ensures exercises[..|old(exercises)|] == old(exercises) && exercises[|exercises| - 1] == ex
      ensures loading == old(loading) && error == old(error)
    {
      exercises := exercises + [ex];
    }

    method DeleteFulfilled(id: Id)
      modifies this
      ensures exercises == WithoutId(old(exercises), ExerciseId, id)
      ensures forall i :: 0 <= i < |exercises| ==> exercises[i].id != id
      ensures WithoutId(exercises, ExerciseId, id) == exercises
      ensures loading == old(loading) && error == old(error)
    {
      WithoutIdIdempotent(exercises, ExerciseId, id);
      exercises := WithoutId(exercises, ExerciseId, id);
      forall i | 0 <= i < |exercises| ensures exercises[i].id != id {
        assert exercises[i] in exercises;
      }
    }
  }
}
