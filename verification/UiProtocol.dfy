/** The window's background jobs: at most one job at a time, reporting over a FIFO channel.
    Scan messages carry the number of their scan so that stale ones can be told apart; no step of
    the window reads that number. */
module UiProtocol {
  import opened Net
  import opened Sequences
  import opened Discovery
  import Scan = ScanMachine

  datatype Status = Idle | MdnsBusy | PortBusy

  datatype Msg =
    | MdnsDone(services: seq<AdbService>)
    | ScanEvt(job: nat, event: Scan.ScanEvent)
    | ScanDone(job: nat, hits: seq<Scan.Hit>)
    | Toast(text: string)

  /** The background thread that still has messages to send. */
  datatype Job = NoJob | MdnsRunning | ScanRunning(job: nat)

  datatype Ui = Ui(
    status: Status,
    cancel: Option<nat>,
    scanStarted: bool,
    progress: Option<(nat, nat)>,
    services: seq<AdbService>,
    hits: seq<Scan.Hit>,
    toast: Option<string>,
    queue: seq<Msg>,
    job: Job,
    scans: nat,
    cancelled: set<nat>,
    handled: seq<Msg>)

  datatype Event =
    | StartMdns
    | StartScan(ports: Result<seq<U16>, string>)
    | HandleNext
    | StopPressed
    | MdnsReports(found: seq<AdbService>)
    | ScanReports(event: Scan.ScanEvent)
    | ScanEnds(result: seq<Scan.Hit>)
    | ToastSent(text: string)

  predicate Busy(u: Ui) {
    !u.status.Idle?
  }

  /** The window starts by looking for devices. */
  function Opened(): Ui {
    Next(Ui(Idle, None, false, None, [], [], None, [], NoJob, 0, {}, []), StartMdns)
  }

  function Handle(u: Ui): Ui
    requires u.queue != []
  {
    var msg := u.queue[0];
    var v := u.(queue := u.queue[1..], handled := u.handled + [msg]);
    match msg
    case MdnsDone(services) => v.(services := services, status := Idle)
    case ScanEvt(_, event) => if event.Progress? then v.(progress := Some((event.done, event.total))) else v
    case ScanDone(_, hits) =>
      v.(hits := hits, progress := None, cancel := None, status := Idle, scanStarted := false)
    case Toast(text) => v.(toast := Some(text))
  }

  /** What an event makes of the window; an event that cannot occur changes nothing. */
  function Next(u: Ui, e: Event): Ui {
    match e
    case StartMdns => if Busy(u) then u else u.(status := MdnsBusy, services := [], job := MdnsRunning)
    case StartScan(ports) =>
      if Busy(u) then u
      else if ports.Err? then u.(toast := Some(ports.error))
      else u.(cancel := Some(u.scans), status := PortBusy, hits := [], progress := None, scanStarted := true,
              job := ScanRunning(u.scans), scans := u.scans + 1)
    case HandleNext => if u.queue == [] then u else Handle(u)
    case StopPressed => if Busy(u) && u.cancel.Some? then u.(cancelled := u.cancelled + {u.cancel.value}) else u
    case MdnsReports(found) =>
      if u.job.MdnsRunning? then u.(queue := u.queue + [MdnsDone(found)], job := NoJob) else u
    case ScanReports(event) =>
      if u.job.ScanRunning? then u.(queue := u.queue + [ScanEvt(u.job.job, event)]) else u
    case ScanEnds(result) =>
      if u.job.ScanRunning? then u.(queue := u.queue + [ScanDone(u.job.job, result)], job := NoJob) else u
    case ToastSent(text) => u.(queue := u.queue + [Toast(text)])
  }

  // ---- The invariant ----

  function Signal(m: Msg): seq<Msg> {
    if m.Toast? then [] else [m]
  }

  /** The queued job messages; toasts from elsewhere may lie between them. */
  function Signals(queue: seq<Msg>): seq<Msg> {
    Collect(Signal, queue)
  }

  ghost predicate EventsOf(signals: seq<Msg>, job: nat) {
    forall m :: m in signals ==> m.ScanEvt? && m.job == job
  }

  /** What the running job, or the job that has finished but is not handled, leaves in the queue. */
  ghost predicate InStep(u: Ui) {
    var signals := Signals(u.queue);
    match u.status
    case Idle => u.job.NoJob? && signals == []
    case MdnsBusy =>
      (u.job.MdnsRunning? && signals == []) || (u.job.NoJob? && |signals| == 1 && signals[0].MdnsDone?)
    case PortBusy =>
      && u.scans > 0
      && ((u.job == ScanRunning(u.scans - 1) && EventsOf(signals, u.scans - 1))
          || (u.job.NoJob? && signals != []
              && EventsOf(signals[..|signals| - 1], u.scans - 1)
              && signals[|signals| - 1].ScanDone? && signals[|signals| - 1].job == u.scans - 1))
  }

  /** The flags of the window agree with its status. */
  ghost predicate FlagsAgree(u: Ui) {
    && (u.status.PortBusy? <==> u.cancel.Some?)
    && (u.status.PortBusy? <==> u.scanStarted)
    && (u.progress.Some? ==> u.status.PortBusy?)
    && (u.cancel.Some? ==> u.scans > 0 && u.cancel.value == u.scans - 1)
    && (forall token :: token in u.cancelled ==> token < u.scans)
  }

  /** Handled scan messages belong to scans that were started, events come before their scan's end,
      and the end of the current scan is still to be handled. */
  ghost predicate HandledInOrder(u: Ui) {
    && (forall m :: m in u.handled && (m.ScanEvt? || m.ScanDone?) ==> m.job < u.scans)
    && (forall i, j :: 0 <= i < j < |u.handled| && u.handled[i].ScanDone? && u.handled[j].ScanEvt? ==>
          u.handled[i].job != u.handled[j].job)
    && (u.status.PortBusy? ==> forall m :: m in u.handled && m.ScanDone? ==> m.job < u.scans - 1)
  }

  ghost predicate UiInv(u: Ui) {
    InStep(u) && FlagsAgree(u) && HandledInOrder(u)
  }

  lemma SignalsAppend(queue: seq<Msg>, m: Msg)
    ensures Signals(queue + [m]) == Signals(queue) + Signal(m)
  {
    assert (queue + [m])[..|queue|] == queue;
  }

  lemma SignalsPop(queue: seq<Msg>)
    requires queue != []
    ensures Signals(queue) == Signal(queue[0]) + Signals(queue[1..])
  {
    CollectConcat(Signal, [queue[0]], queue[1..]);
    assert queue == [queue[0]] + queue[1..];
    assert [queue[0]][..0] == [];
  }

  lemma {:induction false} SignalsHold(queue: seq<Msg>, m: Msg)
    requires m in queue && !m.Toast?
    ensures m in Signals(queue)
  {
    var n := |queue| - 1;
    if m != queue[n] {
      SignalsHold(queue[..n], m);
    }
  }

  lemma UiInvNext(u: Ui, e: Event)
    requires UiInv(u)
    ensures UiInv(Next(u, e))
  {
    hide Signals;
    match e
    case HandleNext =>
      if u.queue != [] {
        HandleKeeps(u);
      }
    case ToastSent(text) => SignalsAppend(u.queue, Toast(text));
    case MdnsReports(found) => SignalsAppend(u.queue, MdnsDone(found));
    case ScanReports(event) =>
      if u.job.ScanRunning? {
        SignalsAppend(u.queue, ScanEvt(u.job.job, event));
      }
    case ScanEnds(result) => EndKeeps(u, result);
    case _ =>
  }

  lemma EndKeeps(u: Ui, result: seq<Scan.Hit>)
    requires UiInv(u)
    ensures UiInv(Next(u, ScanEnds(result)))
  {
    hide Signals;
    if u.job.ScanRunning? {
      var signals := Signals(u.queue);
      SignalsAppend(u.queue, ScanDone(u.job.job, result));
      assert (signals + [ScanDone(u.job.job, result)])[..|signals|] == signals;
    }
  }

  lemma HandleKeeps(u: Ui)
    requires UiInv(u) && u.queue != []
    ensures UiInv(Handle(u))
  {
    hide Signals;
    HandleKeepsStep(u);
    HandleKeepsOrder(u);
  }

  /** The head of the queue is what the running or finished job can have sent first. */
  lemma NextSignal(u: Ui)
    requires InStep(u) && u.queue != [] && !u.queue[0].Toast?
    ensures match u.queue[0]
            case MdnsDone(_) => u.status.MdnsBusy? && u.job.NoJob? && Signals(u.queue[1..]) == []
            case ScanEvt(job, _) => u.status.PortBusy? && job == u.scans - 1
            case ScanDone(job, _) =>
              u.status.PortBusy? && u.job.NoJob? && job == u.scans - 1 && Signals(u.queue[1..]) == []
            case Toast(_) => true
  {
    hide Signals;
    SignalsPop(u.queue);
    var signals := Signals(u.queue);
    assert signals[0] == u.queue[0] && signals[1..] == Signals(u.queue[1..]);
    assert signals[0] in signals;
    if u.status.PortBusy? && |signals| > 1 && u.job.NoJob? {
      assert signals[..|signals| - 1][0] in signals[..|signals| - 1];
    }
  }

  lemma HandleKeepsStep(u: Ui)
    requires InStep(u) && u.queue != []
    ensures InStep(Handle(u))
  {
    hide Signals;
    SignalsPop(u.queue);
    var signals, rest := Signals(u.queue), Signals(u.queue[1..]);
    if u.queue[0].Toast? {
      assert signals == rest;
    } else {
      NextSignal(u);
      if u.queue[0].ScanEvt? {
        EventLeavesStep(u, signals, rest);
      }
    }
  }

  /** Taking an event off a running scan's signals leaves signals of the same shape. */
  lemma EventLeavesStep(u: Ui, signals: seq<Msg>, rest: seq<Msg>)
    requires InStep(u) && u.status.PortBusy? && signals == Signals(u.queue)
    requires signals != [] && signals[0].ScanEvt? && rest == signals[1..]
    ensures u.job != NoJob ==> EventsOf(rest, u.scans - 1)
    ensures u.job == NoJob ==>
              rest != [] && rest[|rest| - 1] == signals[|signals| - 1] && EventsOf(rest[..|rest| - 1], u.scans - 1)
  {
    hide Signals;
    if u.job == NoJob {
      assert rest[..|rest| - 1] == signals[..|signals| - 1][1..];
    }
  }

  lemma HandleKeepsOrder(u: Ui)
    requires InStep(u) && FlagsAgree(u) && HandledInOrder(u) && u.queue != []
    ensures FlagsAgree(Handle(u)) && HandledInOrder(Handle(u))
  {
    hide Signals;
    if !u.queue[0].Toast? {
      NextSignal(u);
    }
    hide InStep;
  }

  /** A history of the window, one state per event. */
  ghost predicate IsHistory(events: seq<Event>, states: seq<Ui>) {
    && |states| == |events| + 1 && states[0] == Opened()
    && forall k :: 0 <= k < |events| ==> states[k + 1] == Next(states[k], events[k])
  }

  lemma {:induction false} EveryUiStateIsSound(events: seq<Event>, states: seq<Ui>, k: nat)
    requires IsHistory(events, states) && k < |states|
    ensures UiInv(states[k])
  {
    if k > 0 {
      EveryUiStateIsSound(events, states, k - 1);
      UiInvNext(states[k - 1], events[k - 1]);
    }
  }

  predicate Completes(m: Msg) {
    m.MdnsDone? || m.ScanDone?
  }

  function Completions(queue: seq<Msg>): nat {
    if queue == [] then 0
    else Completions(queue[..|queue| - 1]) + if Completes(queue[|queue| - 1]) then 1 else 0
  }

  lemma {:induction false} CompletionsOfSignals(queue: seq<Msg>)
    ensures Completions(queue) == Completions(Signals(queue))
  {
    if queue != [] {
      var n := |queue| - 1;
      CompletionsOfSignals(queue[..n]);
      if !queue[n].Toast? {
        assert (Signals(queue[..n]) + [queue[n]])[..|Signals(queue[..n])|] == Signals(queue[..n]);
      } else {
        assert Signals(queue[..n]) + [] == Signals(queue[..n]);
      }
    }
  }

  lemma {:induction false} NoCompletions(signals: seq<Msg>, job: nat)
    requires EventsOf(signals, job)
    ensures Completions(signals) == 0
  {
    if signals != [] {
      assert signals[|signals| - 1] in signals;
      NoCompletions(signals[..|signals| - 1], job);
    }
  }

  /** In every reachable state of the window: PortBusy, a set cancel token and a set start time go
      together; progress is only shown while scanning; the window is busy exactly if one completion
      is still to be sent or queued; a scan about to start is not cancelled yet; and no event of a
      scan is handled after that scan's end. */
  lemma JobProtocol(events: seq<Event>, states: seq<Ui>, k: nat)
    requires IsHistory(events, states) && k < |states|
    ensures var u := states[k];
            && (u.status.PortBusy? <==> u.cancel.Some?) && (u.status.PortBusy? <==> u.scanStarted)
            && (u.progress.Some? ==> u.status.PortBusy?)
            && u.scans !in u.cancelled
            && Completions(u.queue) + (if u.job.NoJob? then 0 else 1) == (if Busy(u) then 1 else 0)
            && (forall i, j :: 0 <= i < j < |u.handled| && u.handled[i].ScanDone? && u.handled[j].ScanEvt? ==>
                  u.handled[i].job != u.handled[j].job)
  {
    hide Signals;
    EveryUiStateIsSound(events, states, k);
    var u := states[k];
    var signals := Signals(u.queue);
    CompletionsOfSignals(u.queue);
    if u.status.PortBusy? {
      if u.job.NoJob? {
        NoCompletions(signals[..|signals| - 1], u.scans - 1);
      } else {
        NoCompletions(signals, u.scans - 1);
      }
    } else if |signals| == 1 {
      assert signals[..0] == [];
    }
  }

  // ---- Draining the queue ----

  function Drained(u: Ui): Ui
    decreases |u.queue|
  {
    if u.queue == [] then u else Drained(Handle(u))
  }

  lemma {:induction false} ToastsKeepResults(u: Ui)
    requires Signals(u.queue) == []
    ensures var d := Drained(u); d.hits == u.hits && d.services == u.services
    decreases |u.queue|
  {
    if u.queue != [] {
      SignalsPop(u.queue);
      assert u.queue[0].Toast?;
      hide Signals;
      ToastsKeepResults(Handle(u));
    }
  }

  lemma HandleFrame(u: Ui)
    requires u.queue != []
    ensures var v := Handle(u);
            && v.queue == u.queue[1..] && v.handled == u.handled + [u.queue[0]]
            && v.job == u.job && v.scans == u.scans && v.cancelled == u.cancelled
  {
  }

  lemma {:induction false} DrainedFrame(u: Ui)
    ensures var d := Drained(u);
            && d.queue == [] && d.handled == u.handled + u.queue
            && d.job == u.job && d.scans == u.scans && d.cancelled == u.cancelled
    decreases |u.queue|
  {
    if u.queue != [] {
      HandleFrame(u);
      hide Handle;
      DrainedFrame(Handle(u));
      assert u.queue == [u.queue[0]] + u.queue[1..];
    }
  }

  /** A drained window has handled the queue in order; it keeps the invariant and is busy exactly if a
      job has still to report. */
  lemma {:induction false} DrainedWindow(u: Ui)
    requires UiInv(u)
    ensures var d := Drained(u);
            d.queue == [] && d.handled == u.handled + u.queue && d.job == u.job && d.scans == u.scans
    ensures UiInv(Drained(u)) && (Busy(Drained(u)) <==> u.job != NoJob)
    decreases |u.queue|
  {
    DrainedFrame(u);
    if u.queue != [] {
      HandleKeeps(u);
      hide UiInv;
      DrainedWindow(Handle(u));
    }
  }

  /** A drained window shows the result of the job that had finished. */
  lemma {:induction false} DrainedResults(u: Ui)
    requires UiInv(u)
    ensures forall m :: m in u.queue && m.ScanDone? ==> Drained(u).hits == m.hits
    ensures forall m :: m in u.queue && m.MdnsDone? ==> Drained(u).services == m.services
    decreases |u.queue|
  {
    if u.queue != [] {
      hide Signals;
      HandleKeeps(u);
      DrainedResults(Handle(u));
      if Completes(u.queue[0]) {
        NextSignal(u);
        ToastsKeepResults(Handle(u));
        hide UiInv;
        forall m | m in u.queue[1..] ensures !Completes(m) {
          NoSignals(u.queue[1..], m);
        }
      }
      hide UiInv;
      assert u.queue == [u.queue[0]] + u.queue[1..];
    }
  }

  lemma {:induction false} NoSignals(queue: seq<Msg>, m: Msg)
    requires Signals(queue) == [] && m in queue
    ensures m.Toast?
  {
    var n := |queue| - 1;
    if m != queue[n] {
      NoSignals(queue[..n], m);
    }
  }

  // ---- The window as it is written ----

  class App {
    var status: Status
    var cancel: Option<nat>
    var scanStarted: bool
    var progress: Option<(nat, nat)>
    var services: seq<AdbService>
    var hits: seq<Scan.Hit>
    var toast: Option<string>
    var queue: seq<Msg>
    var cancelled: set<nat>
    var scans: nat
    var job: Job
    ghost var handled: seq<Msg>

    ghost function View(): Ui
      reads this
    {
      Ui(status, cancel, scanStarted, progress, services, hits, toast, queue, job, scans, cancelled, handled)
    }

    constructor ()
      ensures View() == Opened() && UiInv(View())
    {
      status, cancel, scanStarted, progress := Idle, None, false, None;
      services, hits, toast, queue, cancelled, scans := [], [], None, [], {}, 0;
      job, handled := NoJob, [];
      new;
      StartMdnsScan();
    }

    method StartMdnsScan()
      modifies this`status, this`services, this`job
      ensures View() == Next(old(View()), StartMdns)
    {
      if status != Idle {
        return;
      }
      status := MdnsBusy;
      services := [];
      job := MdnsRunning;
    }

    method StartPortScan(ports: Result<seq<U16>, string>)
      modifies this`toast, this`cancel, this`status, this`hits, this`progress, this`scanStarted, this`scans, this`job
      ensures View() == Next(old(View()), StartScan(ports))
    {
      if status != Idle {
        return;
      }
      if ports.Err? {
        toast := Some(ports.error);
        return;
      }
      cancel := Some(scans);
      status := PortBusy;
      hits := [];
      progress := None;
      scanStarted := true;
      job := ScanRunning(scans);
      scans := scans + 1;
    }

    // What the background threads send.

    method ReportServices(found: seq<AdbService>)
      modifies this`queue, this`job
      ensures View() == Next(old(View()), MdnsReports(found))
    {
      if job.MdnsRunning? {
        queue := queue + [MdnsDone(found)];
        job := NoJob;
      }
    }

    method ReportEvent(event: Scan.ScanEvent)
      modifies this`queue
      ensures View() == Next(old(View()), ScanReports(event))
    {
      if job.ScanRunning? {
        queue := queue + [ScanEvt(job.job, event)];
      }
    }

    method ReportEnd(result: seq<Scan.Hit>)
      modifies this`queue, this`job
      ensures View() == Next(old(View()), ScanEnds(result))
    {
      if job.ScanRunning? {
        queue := queue + [ScanDone(job.job, result)];
        job := NoJob;
      }
    }

    method SendToast(text: string)
      modifies this`queue
      ensures View() == Next(old(View()), ToastSent(text))
    {
      queue := queue + [Toast(text)];
    }

    method PressStop()
      modifies this`cancelled
      ensures View() == Next(old(View()), StopPressed)
    {
      if status != Idle {
        match cancel
        case Some(token) => cancelled := cancelled + {token};
        case None =>
      }
    }

    method HandleMessage()
      requires queue != []
      modifies this
      ensures View() == Next(old(View()), HandleNext)
    {
      var msg := queue[0];
      queue := queue[1..];
      handled := handled + [msg];
      match msg
      case MdnsDone(found) =>
        services := found;
        status := Idle;
      case ScanEvt(_, event) =>
        if event.Progress? {
          progress := Some((event.done, event.total));
        }
      case ScanDone(_, found) =>
        hits := found;
        progress := None;
        cancel := None;
        status := Idle;
        scanStarted := false;
      case Toast(text) =>
        toast := Some(text);
    }

    /** Handle everything that is queued. */
    method PollMessages()
      modifies this
      ensures View() == Drained(old(View()))
    {
      while queue != []
        invariant Drained(View()) == Drained(old(View()))
        decreases |queue|
      {
        ghost var before := View();
        HandleMessage();
        assert View() == Handle(before);
      }
    }
  }
}
