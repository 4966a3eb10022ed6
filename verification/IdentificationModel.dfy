/** The identification services as the lifecycle meets them: a callback slot each, and an inverter whose only
    sample callback they take from each other and from the controller. */
module IdentificationModel {
  import opened Basics
  import opened LifecycleModel

  /** Whom the inverter hands its samples. */
  datatype Listener = Controller | Serving(service: Service) | Nobody

  /** The services that owe a callback; whether the resistance measurement still lets the current settle. */
  datatype Services = Services(outstanding: set<Service>, listener: Listener, settling: bool)

  /** A controller registers itself once, when it is constructed. */
  const CONSTRUCTED := Services({}, Controller, false)

  /** Pole pairs are counted by the settle timer alone, resistance is measured when it has run out. An alignment
      already pending is kept and the new request dropped without a word. */
  function Asked(v: Services, service: Service): Services {
    match service
    case EstimatePolePairs => Services(v.outstanding + {service}, Nobody, false)
    case EstimateResistance => Services(v.outstanding + {service}, Nobody, true)
    case ForceAlignment =>
      if service in v.outstanding then v else Services(v.outstanding + {service}, Serving(service), v.settling)
    case EstimateMechanics => Services(v.outstanding + {service}, Serving(service), v.settling)
  }

  /** The current has settled: the resistance measurement takes the samples. */
  function Sampling(v: Services): Services {
    if v.settling then v.(listener := Serving(EstimateResistance), settling := false) else v
  }

  /** The service whose callback an event is. */
  function ServiceOf(e: Event): Option<Service> {
    match e
    case PolePairsDone(_) => Some(EstimatePolePairs)
    case ResistanceDone(_, _) => Some(EstimateResistance)
    case AlignmentDone(_) => Some(ForceAlignment)
    case MechanicsDone(_, _, _, _) => Some(EstimateMechanics)
    case _ => None
  }

  /** Only the mechanical identification gives up by a timer. */
  predicate TimedOut(e: Event) {
    e.MechanicsDone? && e.friction.None? && e.inertia.None?
  }

  /** The event can come: its service owes it, and has the samples it needs. */
  predicate Answers(v: Services, e: Event) {
    && ServiceOf(e).Some? && ServiceOf(e).value in v.outstanding
    && (e.PolePairsDone? || TimedOut(e) || v.listener == Serving(ServiceOf(e).value))
  }

  /** The mechanical identification gives the samples up, even if others have them by now. */
  function Answered(v: Services, e: Event): Services {
    match ServiceOf(e)
    case None => v
    case Some(service) =>
      v.(outstanding := v.outstanding - {service}, listener := if e.MechanicsDone? then Nobody else v.listener)
  }

  function ServiceFor(step: CalibrationStep): Service {
    match step
    case PolePairsStep => EstimatePolePairs
    case ResistanceStep => EstimateResistance
    case AlignmentStep => ForceAlignment
    case MechanicsStep => EstimateMechanics
  }

  /** An identification that gives no result. */
  function NoResult(service: Service): Event {
    match service
    case EstimatePolePairs => PolePairsDone(None)
    case EstimateResistance => ResistanceDone(None, None)
    case ForceAlignment => AlignmentDone(None)
    case EstimateMechanics => MechanicsDone(None, None, 0, 0)
  }

  /** A callback of the service can still come: it is owed, and is left to a timer or has the samples. */
  predicate CanAnswer(v: Services, service: Service) {
    && service in v.outstanding
    && match service
       case EstimatePolePairs => true
       case EstimateResistance => v.settling || v.listener == Serving(service)
       case ForceAlignment => v.listener == Serving(service)
       case EstimateMechanics => true
  }

  /** That is, the callback can come now, or when the current has settled. */
  lemma CanAnswerIff(v: Services, service: Service)
    ensures CanAnswer(v, service) <==>
            Answers(v, NoResult(service)) || (v.settling && Answers(Sampling(v), NoResult(service)))
  {
  }

  /** A request can be answered unless it is an alignment that is already pending without its samples. */
  lemma AskedCanAnswer(v: Services, service: Service)
    ensures CanAnswer(Asked(v, service), service) <==>
            !(service == ForceAlignment && ForceAlignment in v.outstanding && v.listener != Serving(ForceAlignment))
  {
  }
}
