/** The global UI store (src/store/useStore.js): whether assets are still
    loading, the load progress, the status line, and whether the visitor
    has entered the 3D experience, each with a setter that replaces only
    its own field. */
module UiStore {

  datatype UiState = UiState(loading: bool, progress: real, statusText: string, enterExperience: bool)

  const InitialStatus: string := "Initializing..."

  class AppStore {
    var loading: bool
    /** Documented as 0 to 100; the setter stores any value as given. */
    var progress: real
    var statusText: string
    var enterExperience: bool

    function State(): UiState
      reads this
    {
      UiState(loading, progress, statusText, enterExperience)
    }

    constructor ()
      ensures State() == UiState(true, 0.0, InitialStatus, false)
    {
      loading, progress, statusText, enterExperience := true, 0.0, InitialStatus, false;
    }

    /** Replaces `loading`; setting the value it already has changes nothing. */
    method SetLoading(isLoading: bool)
      modifies this
      ensures State() == old(State()).(loading := isLoading)
      ensures old(loading) == isLoading ==> State() == old(State())
    {
      loading := isLoading;
    }

    /** Replaces `progress` with the value as given, in range or not. */
    method SetProgress(newProgress: real)
      modifies this
      ensures State() == old(State()).(progress := newProgress)
      ensures old(progress) == newProgress ==> State() == old(State())
    {
      progress := newProgress;
    }

    method SetStatusText(text: string)
      modifies this
      ensures State() == old(State()).(statusText := text)
      ensures old(statusText) == text ==> State() == old(State())
    {
      statusText := text;
    }

    method SetEnterExperience(enter: bool)
      modifies this
      ensures State() == old(State()).(enterExperience := enter)
      ensures old(enterExperience) == enter ==> State() == old(State())
    {
      enterExperience := enter;
    }
  }
}
