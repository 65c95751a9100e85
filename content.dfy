/**
 * The app's root view: the sidebar choice between the library and the
 * history, and the phase machine that lays a practice session and then its
 * summary over the main window.
 */
module Content {
  import opened Wrappers
  import opened Models
  import opened Session

  // ---- Sidebar ----------------------------------------------------------------------

  datatype SidebarItem = Library | History

  /** `SidebarItem.allCases`, in declaration order. */
  const AllSidebarItems: seq<SidebarItem> := [Library, History]

  /** The enum's `rawValue`, used as the sidebar label. */
  function SidebarRawValue(item: SidebarItem): string
  {
    match item
    case Library => "Library"
    case History => "History"
  }

  /** The enum's failable `init(rawValue:)`. */
  function SidebarFromRawValue(s: string): Option<SidebarItem>
  {
    if s == "Library" then Some(Library)
    else if s == "History" then Some(History)
    else None
  }

  /** `icon`: the SF Symbol beside each item. */
  function SidebarIcon(item: SidebarItem): string
  {
    match item
    case Library => "square.grid.2x2"
    case History => "clock"
  }

  /** A raw value decodes to exactly its item, and the two items differ in label and in icon. */
  lemma SidebarRoundTrip(item: SidebarItem, s: string)
    ensures SidebarFromRawValue(s) == Some(item) <==> s == SidebarRawValue(item)
    ensures SidebarRawValue(Library) != SidebarRawValue(History)
    ensures SidebarIcon(Library) != SidebarIcon(History)
  {
  }

  /** Every item is listed once. */
  lemma AllSidebarItemsListed(item: SidebarItem)
    ensures item in AllSidebarItems && |AllSidebarItems| == 2 && AllSidebarItems[0] != AllSidebarItems[1]
  {
  }

  /** The detail column: the library for `.library` and for no selection, the history for `.history`. */
  function DetailShown(selection: Option<SidebarItem>): (shown: SidebarItem)
  {
    match selection
    case None => Library
    case Some(item) => item
  }

  /** Clearing the selection shows the same as choosing the library. */
  lemma NoSelectionShowsLibrary(selection: Option<SidebarItem>)
    ensures DetailShown(selection) == Library <==> selection == None || selection == Some(Library)
  {
  }

  // ---- Session phases -----------------------------------------------------------------

  datatype SessionPhase =
    | Idle
    | Practicing(config: SessionConfiguration)
    | Summary(config: SessionConfiguration, viewModel: SessionViewModel)

  /**
   * What moves the phase: the `startSession` environment action, the practice
   * view's `onEnd`, and the summary's `onClose` and `onRestart`.
   */
  datatype PhaseEvent =
    | StartSession(config: SessionConfiguration)
    | PracticeEnded(viewModel: SessionViewModel)
    | SummaryClosed
    | SummaryRestarted

  /**
   * Starting works from any phase; the practice and summary callbacks only
   * exist while their view is shown, so elsewhere they change nothing.
   */
  function NextPhase(p: SessionPhase, e: PhaseEvent): SessionPhase
  {
    match e
    case StartSession(config) => Practicing(config)
    case PracticeEnded(vm) => if p.Practicing? then Summary(p.config, vm) else p
    case SummaryClosed => if p.Summary? then Idle else p
    case SummaryRestarted => if p.Summary? then Practicing(p.config) else p
  }

  /** The phase after each event of a run. */
  function PhaseAfter(p: SessionPhase, events: seq<PhaseEvent>): SessionPhase
    decreases |events|
  {
    if events == [] then p else PhaseAfter(NextPhase(p, events[0]), events[1..])
  }

  /** `startSession` moves any phase, even a practice or summary on screen, to practising the new configuration. */
  lemma StartFromAnyPhase(p: SessionPhase, config: SessionConfiguration)
    ensures NextPhase(p, StartSession(config)) == Practicing(config)
  {
  }

  /** Ending a practice shows its summary with the same configuration; Done goes idle; Restart practises the same configuration again. */
  lemma PracticeCycle(config: SessionConfiguration, vm: SessionViewModel)
    ensures NextPhase(Practicing(config), PracticeEnded(vm)) == Summary(config, vm)
    ensures NextPhase(Summary(config, vm), SummaryClosed) == Idle
    ensures NextPhase(Summary(config, vm), SummaryRestarted) == Practicing(config)
  {
  }

  /** A summary is entered only from the practice of the same configuration. */
  lemma SummaryFollowsPractice(p: SessionPhase, e: PhaseEvent)
    requires NextPhase(p, e).Summary? && !p.Summary?
    ensures p.Practicing? && e.PracticeEnded?
    ensures NextPhase(p, e) == Summary(p.config, e.viewModel)
  {
  }

  /** The configurations a run starts. */
  function StartedConfigs(events: seq<PhaseEvent>): set<SessionConfiguration>
  {
    set i | 0 <= i < |events| && events[i].StartSession? :: events[i].config
  }

  /** After a run, a practice or summary on screen has the configuration of a start in the run, or the one already on screen. */
  lemma {:induction false} PhasesComeFromStarts(p: SessionPhase, events: seq<PhaseEvent>)
    ensures var q := PhaseAfter(p, events);
      q.Idle? || q.config in StartedConfigs(events) || (!p.Idle? && q.config == p.config)
    decreases |events|
  {
    if events != [] {
      var p' := NextPhase(p, events[0]);
      PhasesComeFromStarts(p', events[1..]);
      var q := PhaseAfter(p', events[1..]);
      if !q.Idle? && q.config in StartedConfigs(events[1..]) {
        var i :| 0 <= i < |events[1..]| && events[1..][i].StartSession? && events[1..][i].config == q.config;
        assert events[i + 1] == events[1..][i];
      } else if !q.Idle? {
        assert q.config == p'.config;
        if events[0].StartSession? {
          assert events[0].config == q.config;
        }
      }
    }
  }

  /** From idle, any practice or summary on screen belongs to a configuration some `startSession` call passed. */
  lemma PhasesFromIdle(events: seq<PhaseEvent>)
    ensures var q := PhaseAfter(Idle, events); q.Idle? || q.config in StartedConfigs(events)
  {
    PhasesComeFromStarts(Idle, events);
  }

  // ---- The view ------------------------------------------------------------------------

  class ContentView {
    var selectedSidebar: Option<SidebarItem>
    var sessionPhase: SessionPhase

    constructor ()
      ensures selectedSidebar == Some(Library) && sessionPhase == Idle
    {
      selectedSidebar := Some(Library);
      sessionPhase := Idle;
    }

    /** The list's selection binding. */
    method Select(selection: Option<SidebarItem>)
      modifies this
      ensures selectedSidebar == selection && sessionPhase == old(sessionPhase)
    {
      selectedSidebar := selection;
    }

    /** Delivers one phase event. */
    method Handle(e: PhaseEvent)
      modifies this
      ensures sessionPhase == NextPhase(old(sessionPhase), e)
      ensures selectedSidebar == old(selectedSidebar)
    {
      match e
      case StartSession(config) =>
        sessionPhase := Practicing(config);
      case PracticeEnded(vm) =>
        if sessionPhase.Practicing? {
          sessionPhase := Summary(sessionPhase.config, vm);
        }
      case SummaryClosed =>
        if sessionPhase.Summary? {
          sessionPhase := Idle;
        }
      case SummaryRestarted =>
        if sessionPhase.Summary? {
          sessionPhase := Practicing(sessionPhase.config);
        }
    }
  }
}
