/** The colour theme: a mode and the loading flag of the preference fetch. The
    local-storage copy and the page class toggled alongside the mode are not modelled. */
module ThemeSlice {
  import opened Common

  const Light := "light"
  const Dark := "dark"

  datatype ThemeState = ThemeState(mode: string, loading: bool)

  datatype ThemeAction =
    | ToggleTheme
    | SetTheme(mode: string)
    | FetchPending
    | FetchFulfilled(mode: string)
    | FetchRejected
    | SaveFulfilled(mode: string)

  /** The state on page load: the stored mode, or light when nothing (or an empty string) is stored. */
  function InitialState(stored: Option<string>): (t: ThemeState)
    ensures !t.loading && t.mode != ""
    ensures stored.Some? && stored.value != "" ==> t.mode == stored.value
    ensures stored == None || stored == Some("") ==> t.mode == Light
  {
    ThemeState(StringOr(stored, Light), false)
  }

  /** What the preference fetch resolves to: the row's mode, or light when there is no row or its
      mode is empty. */
  function FetchedMode(row: Option<string>): (m: string)
    ensures row.None? ==> m == Light
    ensures row.Some? && row.value != "" ==> m == row.value
    ensures row == Some("") ==> m == Light
  {
    StringOr(row, Light)
  }

  /** Light becomes dark; anything else becomes light. */
  function Toggled(mode: string): (r: string)
    ensures r == Light || r == Dark
    ensures (mode == Light || mode == Dark) ==> r != mode
  {
    if mode == Light then Dark else Light
  }

  /** The slice reducer. A rejected fetch has no case of its own, so it changes nothing. */
  function Reduce(t: ThemeState, a: ThemeAction): ThemeState {
    match a
    case ToggleTheme => t.(mode := Toggled(t.mode))
    case SetTheme(m) => t.(mode := m)
    case FetchPending => t.(loading := true)
    case FetchFulfilled(m) => ThemeState(m, false)
    case FetchRejected => t
    case SaveFulfilled(m) => t.(mode := m)
  }

  /** Toggling twice restores a light or dark mode; after one toggle any mode is light or dark. */
  lemma ToggleTwice(t: ThemeState)
    ensures t.mode in {Light, Dark} ==> Reduce(Reduce(t, ToggleTheme), ToggleTheme) == t
    ensures Reduce(Reduce(Reduce(t, ToggleTheme), ToggleTheme), ToggleTheme) == Reduce(t, ToggleTheme)
  {
  }

  lemma SetThemeIdempotent(t: ThemeState, m: string)
    ensures Reduce(t, SetTheme(m)).mode == m
    ensures Reduce(Reduce(t, SetTheme(m)), SetTheme(m)) == Reduce(t, SetTheme(m))
  {
  }

  /** A fetch that fails after starting leaves the flag raised and the mode as it was. */
  lemma FailedFetchStaysLoading(t: ThemeState)
    ensures Reduce(Reduce(t, FetchPending), FetchRejected) == t.(loading := true)
  {
  }

  class ThemeStore {
    var mode: string
    var loading: bool

    function Snapshot(): ThemeState
      reads this
    {
      ThemeState(mode, loading)
    }

    constructor (stored: Option<string>)
      ensures Snapshot() == InitialState(stored)
    {
      mode := StringOr(stored, Light);
      loading := false;
    }

    method ToggleTheme()
      modifies this
      ensures Snapshot() == Reduce(old(Snapshot()), ThemeAction.ToggleTheme)
    {
      mode := if mode == Light then Dark else Light;
    }

    method SetTheme(m: string)
      modifies this
      ensures Snapshot() == Reduce(old(Snapshot()), ThemeAction.SetTheme(m))
    {
      mode := m;
    }

    method FetchPending()
      modifies this
      ensures Snapshot() == Reduce(old(Snapshot()), ThemeAction.FetchPending)
    {
      loading := true;
    }

    method FetchFulfilled(m: string)
      modifies this
      ensures Snapshot() == Reduce(old(Snapshot()), ThemeAction.FetchFulfilled(m))
    {
      loading := false;
      mode := m;
    }

    method SaveFulfilled(m: string)
      modifies this
      ensures Snapshot() == Reduce(old(Snapshot()), ThemeAction.SaveFulfilled(m))
    {
      mode := m;
    }
  }
}
