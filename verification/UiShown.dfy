/** What the window shows, told from the events of its history alone. */
module UiShown {
  import opened Net
  import opened Discovery
  import opened UiProtocol
  import Mdns

  // ---- Accounts of a history ----

  /** The messages that an event puts into the channel. */
  function Messages(u: Ui, e: Event): seq<Msg> {
    match (e, u.job)
    case (MdnsReports(found), MdnsRunning) => [MdnsDone(found)]
    case (ScanReports(event), ScanRunning(j)) => [ScanEvt(j, event)]
    case (ScanEnds(result), ScanRunning(j)) => [ScanDone(j, result)]
    case (ToastSent(text), _) => [Toast(text)]
    case _ => []
  }

  function AllMessages(events: seq<Event>, states: seq<Ui>, k: nat): seq<Msg>
    requires k <= |events| && k < |states|
  {
    if k == 0 then [] else AllMessages(events, states, k - 1) + Messages(states[k - 1], events[k - 1])
  }

  /** What the last discovery that has reported found. */
  function LastFound(events: seq<Event>, states: seq<Ui>, k: nat): Option<seq<AdbService>>
    requires k <= |events| && k < |states|
  {
    if k == 0 then None
    else if events[k - 1].MdnsReports? && states[k - 1].job.MdnsRunning? then Some(events[k - 1].found)
    else LastFound(events, states, k - 1)
  }

  /** The discoveries that have reported. */
  function FoundCount(events: seq<Event>, states: seq<Ui>, k: nat): nat
    requires k <= |events| && k < |states|
  {
    if k == 0 then 0
    else FoundCount(events, states, k - 1)
         + if events[k - 1].MdnsReports? && states[k - 1].job.MdnsRunning? then 1 else 0
  }

  /** The discoveries that were started, the one of the opening included. */
  function SearchCount(events: seq<Event>, states: seq<Ui>, k: nat): nat
    requires k <= |events| && k < |states|
  {
    if k == 0 then 1
    else SearchCount(events, states, k - 1) + if events[k - 1].StartMdns? && states[k - 1].status.Idle? then 1 else 0
  }

  /** The scans that were started: with a good port range, while nothing ran. */
  function ScanCount(events: seq<Event>, states: seq<Ui>, k: nat): nat
    requires k <= |events| && k < |states|
  {
    if k == 0 then 0
    else ScanCount(events, states, k - 1)
         + if events[k - 1].StartScan? && events[k - 1].ports.Ok? && states[k - 1].status.Idle? then 1 else 0
  }

  /** The last notice: a rejected port range, or a toast that was handled. */
  function LastNotice(events: seq<Event>, states: seq<Ui>, k: nat): Option<string>
    requires k <= |events| && k < |states|
  {
    if k == 0 then None
    else
      var u, e := states[k - 1], events[k - 1];
      if e.StartScan? && e.ports.Err? && u.status.Idle? then Some(e.ports.error)
      else if e.HandleNext? && u.queue != [] && u.queue[0].Toast? then Some(u.queue[0].text)
      else LastNotice(events, states, k - 1)
  }

  /** Stop was pressed while this scan ran. */
  ghost predicate StoppedBy(events: seq<Event>, states: seq<Ui>, k: nat, scan: nat)
    requires k <= |events| && k < |states|
  {
    exists j :: 0 <= j < k && events[j].StopPressed? && states[j].status.PortBusy? && states[j].scans == scan + 1
  }

  // ---- Each account is kept ----

  /** The channel loses nothing, adds nothing and keeps the order. */
  lemma {:induction false} ChannelIsFifo(events: seq<Event>, states: seq<Ui>, k: nat)
    requires IsHistory(events, states) && k < |states|
    ensures states[k].handled + states[k].queue == AllMessages(events, states, k)
  {
    hide Next;
    if k == 0 {
      NothingSentYet();
    } else {
      ChannelIsFifo(events, states, k - 1);
      ChannelNext(states[k - 1], events[k - 1]);
    }
  }

  lemma NothingSentYet()
    ensures Opened().handled + Opened().queue == []
  {
  }

  lemma ChannelNext(u: Ui, e: Event)
    ensures var v := Next(u, e); v.handled + v.queue == u.handled + u.queue + Messages(u, e)
  {
    if e.HandleNext? && u.queue != [] {
      assert u.queue == [u.queue[0]] + u.queue[1..];
    }
  }

  /** Services are shown as follows: none while a discovery runs; else those of the last report. A
      report that is not handled yet waits as it was made. */
  ghost predicate ShowsFound(u: Ui, found: Option<seq<AdbService>>) {
    && (u.status.MdnsBusy? ==> u.services == [])
    && (!u.status.MdnsBusy? ==> found == Some(u.services))
    && (forall m :: m in u.queue && m.MdnsDone? ==> found == Some(m.services))
  }

  lemma ShowsFoundNext(u: Ui, e: Event, found: Option<seq<AdbService>>)
    requires UiInv(u) && ShowsFound(u, found)
    ensures ShowsFound(Next(u, e), if e.MdnsReports? && u.job.MdnsRunning? then Some(e.found) else found)
  {
    hide Signals, HandledInOrder;
    var v := Next(u, e);
    if e.HandleNext? && u.queue != [] {
      HandledFound(u, found);
    } else if e.MdnsReports? && u.job.MdnsRunning? {
      forall m | m in v.queue && m.MdnsDone? ensures m.services == e.found {
        if m in u.queue {
          NoDoneWaits(u, m);
          assert false;
        }
      }
    }
  }

  lemma HandledFound(u: Ui, found: Option<seq<AdbService>>)
    requires UiInv(u) && ShowsFound(u, found) && u.queue != []
    ensures ShowsFound(Handle(u), found)
  {
    hide Signals, HandledInOrder;
    assert u.queue[0] in u.queue;
    assert forall m :: m in u.queue[1..] ==> m in u.queue;
    if !u.queue[0].Toast? {
      NextSignal(u);
    }
  }

  /** While a discovery runs, no report of one is in the channel. */
  lemma NoDoneWaits(u: Ui, m: Msg)
    requires InStep(u) && u.job.MdnsRunning? && m in u.queue
    ensures !m.MdnsDone?
  {
    if m.MdnsDone? {
      SignalsHold(u.queue, m);
    }
  }

  lemma {:induction false} ShownServicesWereReported(events: seq<Event>, states: seq<Ui>, k: nat)
    requires IsHistory(events, states) && k < |states|
    ensures ShowsFound(states[k], LastFound(events, states, k))
  {
    hide Next, ShowsFound, UiInv;
    if k == 0 {
      OpenedShowsNothing();
    } else {
      ShownServicesWereReported(events, states, k - 1);
      EveryUiStateIsSound(events, states, k - 1);
      ShowsFoundNext(states[k - 1], events[k - 1], LastFound(events, states, k - 1));
    }
  }

  lemma OpenedShowsNothing()
    ensures ShowsFound(Opened(), None)
  {
  }

  /** Every discovery but a running one has reported, so the last report is the last discovery's. */
  lemma {:induction false} EveryDiscoveryReports(events: seq<Event>, states: seq<Ui>, k: nat)
    requires IsHistory(events, states) && k < |states|
    ensures SearchCount(events, states, k)
         == FoundCount(events, states, k) + if states[k].job.MdnsRunning? then 1 else 0
  {
    hide Signals, HandledInOrder;
    if k > 0 {
      EveryDiscoveryReports(events, states, k - 1);
      EveryUiStateIsSound(events, states, k - 1);
      JobsChange(states[k - 1], events[k - 1]);
      hide Next, UiInv;
    }
  }

  lemma JobsChange(u: Ui, e: Event)
    requires InStep(u)
    ensures var v := Next(u, e);
            v.job.MdnsRunning? <==>
              (e.StartMdns? && u.status.Idle?) || (u.job.MdnsRunning? && !e.MdnsReports?)
    ensures u.status.Idle? ==> !u.job.MdnsRunning?
  {
    hide Signals;
  }

  /** Scans are numbered by their starts; a scan's token is set exactly if stop was pressed while it ran;
      hits are cleared while a scan runs. */
  lemma {:induction false} ScansAreCounted(events: seq<Event>, states: seq<Ui>, k: nat, scan: nat)
    requires IsHistory(events, states) && k < |states|
    ensures states[k].scans == ScanCount(events, states, k)
    ensures scan in states[k].cancelled <==> StoppedBy(events, states, k, scan)
    ensures states[k].status.PortBusy? ==> states[k].hits == []
  {
    hide Signals, HandledInOrder;
    if k > 0 {
      ScansAreCounted(events, states, k - 1, scan);
      EveryUiStateIsSound(events, states, k - 1);
      ScansChange(states[k - 1], events[k - 1], scan);
      hide Next, UiInv;
      StoppedNow(events, states, k, scan);
    }
  }

  lemma ScansChange(u: Ui, e: Event, scan: nat)
    requires UiInv(u)
    ensures var v := Next(u, e);
            && v.scans == u.scans + (if e.StartScan? && e.ports.Ok? && u.status.Idle? then 1 else 0)
            && (scan in v.cancelled <==>
                  scan in u.cancelled || (e.StopPressed? && u.status.PortBusy? && u.scans == scan + 1))
            && ((u.status.PortBusy? ==> u.hits == []) ==> v.status.PortBusy? ==> v.hits == [])
  {
    hide Signals, HandledInOrder;
  }

  lemma StoppedNow(events: seq<Event>, states: seq<Ui>, k: nat, scan: nat)
    requires 0 < k <= |events| && k < |states|
    ensures StoppedBy(events, states, k, scan) <==>
              || StoppedBy(events, states, k - 1, scan)
              || (events[k - 1].StopPressed? && states[k - 1].status.PortBusy? && states[k - 1].scans == scan + 1)
  {
  }

  /** The notice shown is the last one. */
  lemma {:induction false} LastNoticeIsShown(events: seq<Event>, states: seq<Ui>, k: nat)
    requires IsHistory(events, states) && k < |states|
    ensures states[k].toast == LastNotice(events, states, k)
  {
    if k > 0 {
      LastNoticeIsShown(events, states, k - 1);
    }
  }

  // ---- Discoveries by what they received ----

  /** The n-th discovery reports what discovery makes of the n-th list of datagrams. */
  ghost predicate Discovers(events: seq<Event>, states: seq<Ui>, received: nat -> seq<seq<Byte>>)
    requires |states| == |events| + 1
  {
    forall k :: 0 <= k < |events| && events[k].MdnsReports? && states[k].job.MdnsRunning? ==>
      events[k].found == Mdns.Discovered(received(FoundCount(events, states, k)))
  }

  lemma {:induction false} LastFoundByCount(
    events: seq<Event>, states: seq<Ui>, received: nat -> seq<seq<Byte>>, k: nat)
    requires |states| == |events| + 1 && Discovers(events, states, received) && k <= |events|
    ensures LastFound(events, states, k)
         == if FoundCount(events, states, k) == 0 then None
            else Some(Mdns.Discovered(received(FoundCount(events, states, k) - 1)))
  {
    hide Mdns.Discovered;
    if k > 0 {
      LastFoundByCount(events, states, received, k - 1);
    }
  }

  /** Whenever no discovery runs, the window shows the services that the last one discovered. */
  lemma ShownServicesWereDiscovered(
    events: seq<Event>, states: seq<Ui>, received: nat -> seq<seq<Byte>>, k: nat)
    requires IsHistory(events, states) && Discovers(events, states, received) && k < |states|
    requires !states[k].status.MdnsBusy?
    ensures SearchCount(events, states, k) > 0
    ensures states[k].services == Mdns.Discovered(received(SearchCount(events, states, k) - 1))
  {
    hide Mdns.Discovered, Next, LastFound, FoundCount, SearchCount, Signals, HandledInOrder;
    ShownServicesWereReported(events, states, k);
    LastFoundByCount(events, states, received, k);
    EveryDiscoveryReports(events, states, k);
    EveryUiStateIsSound(events, states, k);
  }
}
