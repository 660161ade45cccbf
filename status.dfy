/** The system status page (frontend/src/pages/Status.jsx): the health
    of the backend, the database and the language model, each shown with
    an icon, a description, a label and a colour. */
module Status {
  import opened Js

  datatype ServiceStatus = ServiceStatus(status: string, message: string)

  /** The `status` object: one entry per service. */
  datatype Health = Health(backend: ServiceStatus, database: ServiceStatus, llm: ServiceStatus)

  /** The state before anything is known. */
  const InitialHealth: Health :=
    Health(ServiceStatus("checking", ""), ServiceStatus("checking", ""), ServiceStatus("checking", ""))

  /** What a failed health check leaves on screen. */
  const UnreachableHealth: Health :=
    Health(ServiceStatus("error", "Backend unreachable"),
           ServiceStatus("unknown", "Cannot check"),
           ServiceStatus("unknown", "Cannot check"))

  /** The statuses shown as working. */
  predicate IsUp(status: string) {
    status == "online" || status == "connected" || status == "available"
  }

  /** `status === 'checking' || loading`, the test all three classifiers
      make first. */
  predicate IsChecking(status: string, loading: bool) {
    status == "checking" || loading
  }

  datatype Label = Checking | Operational | Failed | Unknown

  /** `getStatusLabel`. */
  function StatusLabel(status: string, loading: bool): Label {
    if IsChecking(status, loading) then Checking
    else if IsUp(status) then Operational
    else if status == "error" then Failed
    else Unknown
  }

  function LabelText(l: Label): string {
    match l
    case Checking => "Checking"
    case Operational => "Operational"
    case Failed => "Error"
    case Unknown => "Unknown"
  }

  datatype Colour = Yellow | Green | Red

  /** `getStatusColor`. */
  function StatusColour(status: string, loading: bool): Colour {
    if IsChecking(status, loading) then Yellow
    else if IsUp(status) then Green
    else Red
  }

  datatype Icon = Spinner | CheckCircle | CrossCircle

  /** `StatusIcon`. */
  function StatusIcon(status: string, loading: bool): Icon {
    if IsChecking(status, loading) then Spinner
    else if IsUp(status) then CheckCircle
    else CrossCircle
  }

  /** While a check is running every service reads "Checking"; otherwise
      the three working statuses read "Operational", "error" reads
      "Error", and every other status except "checking" reads "Unknown". */
  lemma StatusLabelSpec(status: string, loading: bool)
    ensures loading ==> StatusLabel(status, loading) == Checking
    ensures StatusLabel(status, loading) == Checking <==> loading || status == "checking"
    ensures StatusLabel(status, loading) == Operational <==> !loading && IsUp(status)
    ensures StatusLabel(status, loading) == Failed <==> !loading && status == "error"
    ensures StatusLabel(status, loading) == Unknown <==>
      !loading && status != "checking" && !IsUp(status) && status != "error"
  {
  }

  /** Colour and icon follow the label: yellow and a spinner exactly for
      "Checking", green and a check exactly for "Operational", red and a
      cross for "Error" and "Unknown" alike. */
  lemma ColourAndIconFollowLabel(status: string, loading: bool)
    ensures StatusColour(status, loading) == Yellow <==> StatusLabel(status, loading) == Checking
    ensures StatusColour(status, loading) == Green <==> StatusLabel(status, loading) == Operational
    ensures StatusColour(status, loading) == Red <==>
      StatusLabel(status, loading) in {Failed, Unknown}
    ensures StatusIcon(status, loading) == Spinner <==> StatusColour(status, loading) == Yellow
    ensures StatusIcon(status, loading) == CheckCircle <==> StatusColour(status, loading) == Green
    ensures StatusIcon(status, loading) == CrossCircle <==> StatusColour(status, loading) == Red
  {
  }

  // ---------------------------------------------------------------------
  // The rows

  datatype RowView = RowView(icon: Icon, description: string, caption: string, colour: Colour)

  /** One service's row: the service's message, or the component's own
      description when the message is empty. */
  function ServiceRow(s: ServiceStatus, loading: bool, description: string): RowView {
    RowView(StatusIcon(s.status, loading), OrDefault(Some(s.message), description),
            LabelText(StatusLabel(s.status, loading)), StatusColour(s.status, loading))
  }

  function RenderHealth(h: Health, loading: bool): seq<RowView> {
    [ServiceRow(h.backend, loading, "Node.js + Express"),
     ServiceRow(h.database, loading, "MongoDB Atlas"),
     ServiceRow(h.llm, loading, "Groq API")]
  }

  /** Before the first answer every row spins, reads "Checking" in yellow
      and shows the component's own description. After a failed check the
      backend reads "Error" and the others "Unknown", all in red, with the
      fallback messages as descriptions. */
  lemma RenderFixedStates()
    ensures RenderHealth(InitialHealth, true) ==
      [RowView(Spinner, "Node.js + Express", "Checking", Yellow),
       RowView(Spinner, "MongoDB Atlas", "Checking", Yellow),
       RowView(Spinner, "Groq API", "Checking", Yellow)]
    ensures RenderHealth(UnreachableHealth, false) ==
      [RowView(CrossCircle, "Backend unreachable", "Error", Red),
       RowView(CrossCircle, "Cannot check", "Unknown", Red),
       RowView(CrossCircle, "Cannot check", "Unknown", Red)]
  {
  }

  // ---------------------------------------------------------------------
  // The component

  /** How `checkHealth()` settled. */
  datatype HealthOutcome = Fetched(data: Health) | FetchFailed

  class StatusPage {
    var status: Health
    /** The clock reading of the last successful check, if any. */
    var lastChecked: Option<int>
    var loading: bool

    constructor()
      ensures status == InitialHealth && lastChecked.None? && loading
    {
      status := InitialHealth;
      lastChecked := None;
      loading := true;
    }

    /** `fetchStatus` up to its `await`. */
    method BeginFetch()
      modifies this
      ensures loading && status == old(status) && lastChecked == old(lastChecked)
    {
      loading := true;
    }

    /** `fetchStatus` after its `await`: a successful check replaces the
        statuses and records the time; a failed one shows the fallback set
        and keeps the previous time. */
    method ResolveFetch(outcome: HealthOutcome, now: int)
      modifies this
      ensures !loading
      ensures outcome.Fetched? ==> status == outcome.data && lastChecked == Some(now)
      ensures outcome.FetchFailed? ==> status == UnreachableHealth && lastChecked == old(lastChecked)
    {
      if outcome.Fetched? {
        status := outcome.data;
        lastChecked := Some(now);
      } else {
        status := UnreachableHealth;
      }
      loading := false;
    }
  }
}
