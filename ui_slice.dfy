/** The `ui` slice of the store (src/store/slices/uiSlice.ts): a three-field record and the
    four reducers that assign its fields. `Reduce` is the slice's reducer as a function from
    state and action to the next state; `UiStore` is the mutable draft the reducers write
    to, one method per reducer. */
module UiSlice {
  import opened Wrappers
  import opened Types

  /** `UiState`; an `undefined` error is `None`. */
  datatype UiState = UiState(themeMode: ThemeMode, loading: bool, error: Option<string>)

  /** The four actions with their payloads. */
  datatype UiAction =
    | SetThemeMode(mode: ThemeMode)
    | SetLoading(flag: bool)
    | SetError(message: Option<string>)
    | ClearError

  /** `initialState`: light theme, not loading, no error. */
  const InitialState: UiState := UiState(Light, false, None)

  /** The slice's reducer. */
  function Reduce(s: UiState, a: UiAction): UiState {
    match a
    case SetThemeMode(mode) => s.(themeMode := mode)
    case SetLoading(flag) => s.(loading := flag)
    case SetError(message) => s.(error := message, loading := false)
    case ClearError => s.(error := None)
  }

  /** Each action touches only its own fields: `setThemeMode` only the theme, `setLoading`
      only the flag, `setError` the error and the flag (forced off), `clearError` only the
      error. */
  lemma ReduceFrames(s: UiState, a: UiAction)
    ensures a.SetThemeMode? ==>
      (Reduce(s, a).themeMode == a.mode && Reduce(s, a).loading == s.loading && Reduce(s, a).error == s.error)
    ensures a.SetLoading? ==>
      (Reduce(s, a).loading == a.flag && Reduce(s, a).themeMode == s.themeMode && Reduce(s, a).error == s.error)
    ensures a.SetError? ==>
      (Reduce(s, a).error == a.message && !Reduce(s, a).loading && Reduce(s, a).themeMode == s.themeMode)
    ensures a.ClearError? ==>
      (Reduce(s, a).error == None && Reduce(s, a).themeMode == s.themeMode && Reduce(s, a).loading == s.loading)
    ensures Reduce(s, a).themeMode != s.themeMode ==> a.SetThemeMode?
  {
  }

  /** Clearing the error twice is clearing it once. */
  lemma ClearErrorIdempotent(s: UiState)
    ensures Reduce(Reduce(s, ClearError), ClearError) == Reduce(s, ClearError)
  {
  }

  /** After reporting an error and clearing it, nothing is loading and there is no error,
      in the theme the state had before. */
  lemma SetErrorThenClear(s: UiState, message: Option<string>)
    ensures Reduce(Reduce(s, SetError(message)), ClearError) == UiState(s.themeMode, false, None)
  {
  }

  /** The result of applying a sequence of actions in order. */
  function ReduceAll(s: UiState, actions: seq<UiAction>): UiState
    decreases |actions|
  {
    if actions == [] then s else ReduceAll(Reduce(s, actions[0]), actions[1..])
  }

  /** No action other than `setThemeMode` changes the theme: after any sequence of actions
      the theme is that of the last `setThemeMode`, or the starting theme when there is none. */
  lemma {:induction false} ThemeSetOnlyBySetThemeMode(s: UiState, actions: seq<UiAction>)
    ensures (forall k :: 0 <= k < |actions| ==> !actions[k].SetThemeMode?) ==>
      ReduceAll(s, actions).themeMode == s.themeMode
    ensures forall k ::
      (0 <= k < |actions| && actions[k].SetThemeMode? && (forall j :: k < j < |actions| ==> !actions[j].SetThemeMode?))
      ==> ReduceAll(s, actions).themeMode == actions[k].mode
    decreases |actions|
  {
    if actions != [] {
      var next := Reduce(s, actions[0]);
      ThemeSetOnlyBySetThemeMode(next, actions[1..]);
      forall k | 0 <= k < |actions| && actions[k].SetThemeMode?
          && (forall j :: k < j < |actions| ==> !actions[j].SetThemeMode?)
        ensures ReduceAll(s, actions).themeMode == actions[k].mode
      {
        if k > 0 {
          assert actions[1..][k - 1] == actions[k];
          assert forall j :: k - 1 < j < |actions| - 1 ==> actions[1..][j] == actions[j + 1];
        } else {
          assert forall j :: 0 <= j < |actions| - 1 ==> actions[1..][j] == actions[j + 1];
        }
      }
      if forall k :: 0 <= k < |actions| ==> !actions[k].SetThemeMode? {
        assert forall j :: 0 <= j < |actions| - 1 ==> actions[1..][j] == actions[j + 1];
      }
    }
  }

  /** The draft state the reducers assign in place. */
  class UiStore {
    var themeMode: ThemeMode
    var loading: bool
    var error: Option<string>

    /** The store's current state as a value. */
    function State(): UiState
      reads this
    {
      UiState(themeMode, loading, error)
    }

    /** A store holding `initialState`. */
    constructor()
      ensures State() == InitialState
    {
      themeMode := Light;
      loading := false;
      error := None;
    }

    /** `setThemeMode`: assign the theme. */
    method SetThemeMode(mode: ThemeMode)
      modifies this
      ensures themeMode == mode
      ensures loading == old(loading) && error == old(error)
      ensures State() == Reduce(old(State()), UiAction.SetThemeMode(mode))
    {
      themeMode := mode;
    }

    /** `setLoading`: assign the loading flag. */
    method SetLoading(flag: bool)
      modifies this
      ensures loading == flag
      ensures themeMode == old(themeMode) && error == old(error)
      ensures State() == Reduce(old(State()), UiAction.SetLoading(flag))
    {
      loading := flag;
    }

    /** `setError`: assign the error and stop loading. */
    method SetError(message: Option<string>)
      modifies this
      ensures error == message && !loading
      ensures themeMode == old(themeMode)
      ensures State() == Reduce(old(State()), UiAction.SetError(message))
    {
      error := message;
      loading := false;
    }

    /** `clearError`: drop the error. */
    method ClearError()
      modifies this
      ensures error == None
      ensures themeMode == old(themeMode) && loading == old(loading)
      ensures State() == Reduce(old(State()), UiAction.ClearError)
    {
      error := None;
    }

    /** Hand an action to the reducer it names. */
    method Dispatch(a: UiAction)
      modifies this
      ensures State() == Reduce(old(State()), a)
    {
      match a
      case SetThemeMode(mode) => SetThemeMode(mode);
      case SetLoading(flag) => SetLoading(flag);
      case SetError(message) => SetError(message);
      case ClearError => ClearError();
    }
  }
}
