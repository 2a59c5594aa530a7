/** The stateful parts of Nexus: the stored journey of the server, and the variables of one browser tab. */
module NexusClass {
  import opened Prelude
  import opened JourneyModel
  import opened NexusModel

  /** The `journey` and `revision` columns of one account; `history` remembers every version. */
  class JourneyServer {
    var journey: Journey
    var revision: nat
    ghost var history: seq<Journey>

    ghost predicate Valid()
      reads this
    {
      |history| == revision + 1 && history[revision] == journey
    }

    constructor ()
      ensures Valid() && history == [EMPTY_JOURNEY]
    {
      journey, revision, history := EMPTY_JOURNEY, 0, [EMPTY_JOURNEY];
    }

    method GetJourney() returns (s: Snapshot)
      requires Valid()
      ensures s.revision < |history| && s == Snapshot(history[s.revision], |history| - 1)
    {
      s := Snapshot(journey, revision);
    }

    /** The conditional update: `None` is the 409. */
    method UpdateJourney(data: Snapshot) returns (written: Option<nat>)
      requires Valid()
      modifies this
      ensures Valid()
      ensures written == if data.revision == old(revision) then Some(|history| - 1) else None
      ensures history == if written.Some? then old(history) + [data.journey] else old(history)
      ensures forall s: System, id: nat ::
        s.history == old(history) && id < |s.puts| && s.puts[id].outcome == InFlight
        && s.puts[id].revision == data.revision && s.puts[id].journey == data.journey ==>
          var u := Update(s, id);
          u.history == history && (u.puts[id].outcome == Accepted <==> written.Some?)
    {
      if data.revision == revision {
        journey, revision, history := data.journey, revision + 1, history + [data.journey];
        return Some(data.revision + 1);
      }
      return None;
    }
  }

  /** What a handler sends before it waits. */
  datatype Request = Nothing | GetJourney | PutJourney(data: Snapshot)

  class JourneyClient {
    var startup: Startup
    var phase: Phase
    var loggedIn: bool
    var sessionExpired: bool
    var loaded: bool
    var journey: Journey
    var revision: nat
    var pending: bool
    var conflict: bool
    var draftRaw: Option<Draft>
    /** Local storage. */
    var stored: Option<Draft>

    ghost function View(): Tab
      reads this
    {
      Tab(startup, phase, loggedIn, sessionExpired, loaded, journey, revision, pending, conflict, draftRaw, stored)
    }

    constructor (stored: Option<Draft>)
      ensures View() == Opened(stored)
    {
      startup, phase, loggedIn, sessionExpired, loaded := FindingSession, Idle, false, false, false;
      journey, revision, pending, conflict := EMPTY_JOURNEY, 0, false, false;
      draftRaw, this.stored := None, stored;
    }

    /** The page is loaded anew: only local storage survives. */
    method Reload()
      modifies this
      ensures View() == Opened(old(stored))
    {
      startup, phase, loggedIn, sessionExpired, loaded := FindingSession, Idle, false, false, false;
      journey, revision, pending, conflict := EMPTY_JOURNEY, 0, false, false;
      draftRaw := None;
    }

    method SaveDraft(now: Moment)
      modifies this
      ensures View() == NexusModel.SaveDraft(old(View()), now)
    {
      if !loggedIn {
        return;
      }
      if stored != draftRaw {
        conflict := true;
        return;
      }
      var raw := Some(Draft(journey, revision, now));
      stored := raw;
      draftRaw := raw;
    }

    method ClearDraft()
      modifies this
      ensures View() == NexusModel.ClearDraft(old(View()))
      ensures old(stored) != old(draftRaw) ==> stored == old(stored)
    {
      if stored == draftRaw {
        stored := None;
      } else if stored.Some? {
        conflict := true;
      }
      draftRaw := None;
    }

    method ApplySnapshot(s: Snapshot)
      modifies this`journey, this`revision
      ensures journey == s.journey && revision == s.revision
    {
      journey := s.journey;
      revision := s.revision;
    }

    method Load(s: Snapshot)
      modifies this
      ensures View() == NexusModel.Load(old(View()), s)
    {
      ApplySnapshot(s);
      loaded := true;
      draftRaw := if loggedIn then stored else None;
      if draftRaw.Some? {
        var draft := draftRaw.value;
        if draft.journey != s.journey {
          journey := draft.journey;
          pending := true;
          conflict := draft.revision != s.revision;
          revision := draft.revision;
        } else {
          ClearDraft();
        }
      }
    }

    method Sync() returns (request: Request)
      modifies this
      ensures View() == BeginSync(old(View()))
      ensures phase == SyncPut && old(phase) == Idle ==> request == PutJourney(Snapshot(journey, revision)) && pending
      ensures request.GetJourney? <==> phase == SyncGet && old(phase) == Idle
      ensures request.PutJourney? <==> phase == SyncPut && old(phase) == Idle
    {
      if !loggedIn || phase != Idle || startup != Done || conflict {
        return Nothing;
      }
      if pending {
        phase := SyncPut;
        return PutJourney(Snapshot(journey, revision));
      }
      phase := SyncGet;
      return GetJourney;
    }

    /** `sync` after its PUT: the new revision, or `None` for a 409. */
    method SyncWritten(answer: Option<nat>)
      modifies this
      ensures View() == match answer
        case Some(r) => WriteAccepted(old(View()), r)
        case None => WriteRefused(old(View()))
    {
      if answer.Some? {
        revision := answer.value;
        pending := false;
        ClearDraft();
      } else {
        conflict := true;
      }
      phase := Idle;
    }

    /** `sync` after its GET; a page that never loaded asks again through `load`. */
    method SyncRead(s: Snapshot) returns (request: Request)
      modifies this
      ensures View() == SnapshotArrived(old(View()), s)
      ensures request == if old(loaded) then Nothing else GetJourney
    {
      if !loaded {
        phase := SyncLoad;
        return GetJourney;
      }
      if s.revision != revision {
        ApplySnapshot(s);
      }
      phase := Idle;
      return Nothing;
    }

    method Change(j: Journey, now: Moment) returns (request: Request)
      modifies this
      ensures View() == NexusModel.Change(old(View()), j, now)
      ensures TabInv(old(View())) && CanEdit(old(View())) ==>
        request == PutJourney(Snapshot(j, old(revision))) && stored == Some(Draft(j, old(revision), now))
      ensures request == (if phase == SyncPut && CanEdit(old(View())) then PutJourney(Snapshot(journey, revision))
                          else Nothing)
    {
      if !loggedIn || !loaded || startup != Done || phase != Idle || conflict || sessionExpired {
        return Nothing;
      }
      journey := j;
      pending := true;
      SaveDraft(now);
      request := Sync();
    }

    method SignIn()
      modifies this
      ensures View() == BeginAuthenticate(old(View()))
    {
      phase := Authenticating(if loggedIn && pending then Some(Snapshot(journey, revision)) else None);
    }

    method SignedIn()
      requires phase.Authenticating?
      modifies this
      ensures View() == SessionGranted(old(View()))
    {
      loggedIn := true;
      sessionExpired := false;
      pending := false;
      conflict := false;
      loaded := false;
      phase := AuthLoad(phase.previous);
    }

    /** The rest of `authenticate`, from the answer to the GET of `load`. */
    method SignedInRead(s: Snapshot, now: Moment)
      requires phase.AuthLoad?
      modifies this
      ensures View() == FinishAuthenticate(old(View()), s, now)
    {
      hide NexusModel.Load, NexusModel.SaveDraft;
      var previous := phase.previous;
      Load(s);
      phase := Idle;
      if previous.Some? && previous.value.journey != journey {
        var serverRevision := revision;
        journey := previous.value.journey;
        revision := previous.value.revision;
        pending := true;
        conflict := conflict || revision != serverRevision;
        SaveDraft(now);
      }
    }

    method ResolveRead(s: Snapshot) returns (request: Request)
      requires phase.ResolveGet?
      modifies this
      ensures old(phase).useLocal ==>
        View() == old(View()).(phase := ResolvePut) && request == PutJourney(Snapshot(old(journey), s.revision))
      ensures !old(phase).useLocal ==>
        View() == Settled(old(View()).(journey := s.journey, revision := s.revision)) && request == Nothing
    {
      if phase.useLocal {
        phase := ResolvePut;
        return PutJourney(Snapshot(journey, s.revision));
      }
      ApplySnapshot(s);
      Settle();
      return Nothing;
    }

    method ResolveWritten(answer: Option<nat>)
      modifies this
      ensures View() == match answer
        case Some(r) => Settled(old(View())).(revision := r)
        case None => old(View()).(phase := Idle)
    {
      if answer.Some? {
        revision := answer.value;
        Settle();
      }
      phase := Idle;
    }

    method Settle()
      modifies this
      ensures View() == Settled(old(View()))
    {
      stored := None;
      draftRaw := None;
      conflict := false;
      pending := false;
      phase := Idle;
    }

    method Logout() returns (sent: bool)
      modifies this`phase
      ensures sent == (old(phase) == Idle && !pending && !conflict)
      ensures phase == if sent then LoggingOut else old(phase)
    {
      if phase != Idle || pending || conflict {
        return false;
      }
      phase := LoggingOut;
      return true;
    }

    /** A draft in local storage survives the end of a logout exactly if the page does not remember it. */
    method LoggedOut()
      modifies this
      ensures View() == FinishLogout(old(View()))
      ensures TabInv(old(View())) && old(stored).Some? ==> (stored == old(stored) <==> old(draftRaw).None?)
    {
      ClearDraft();
      loggedIn := false;
      loaded := false;
      journey := EMPTY_JOURNEY;
      phase := Idle;
    }

    method RequestFailed(unauthorised: bool)
      modifies this
      ensures View() == Failed(old(View()), unauthorised)
    {
      if phase in {SyncPut, SyncGet, SyncLoad} && unauthorised {
        sessionExpired := true;
      }
      phase := Idle;
    }

    /** Whatever happens to a browser of the system, this page does, and sends: its state follows `React`, and the
        PUT it hands to the network is the one `React` adds to the system. */
    method Dispatch(s: System, k: nat, d: Device, event: Event) returns (request: Request)
      requires s.history != [] && d.tab == View()
      modifies this
      ensures View() == React(s, k, d, event).device.tab
      ensures match React(s, k, d, event).sent
        case Some(p) => request == PutJourney(Snapshot(p.journey, p.revision))
        case None => !request.PutJourney?
    {
      request := Nothing;
      if event.Edit? || event.Sync? || event.ServerRead? {
        request := DispatchSending(s, k, d, event);
      } else if event.SnapshotLoaded? || event.SnapshotRead? || event.PutAnswered? {
        request := DispatchAnswer(s, k, d, event);
      } else {
        request := DispatchSession(s, k, d, event);
      }
    }

    method DispatchSending(s: System, k: nat, d: Device, event: Event) returns (request: Request)
      requires s.history != [] && d.tab == View() && (event.Edit? || event.Sync? || event.ServerRead?)
      modifies this
      ensures View() == React(s, k, d, event).device.tab
      ensures match React(s, k, d, event).sent
        case Some(p) => request == PutJourney(Snapshot(p.journey, p.revision))
        case None => !request.PutJourney?
    {
      match event
      case Edit(j, now) => request := Change(j, now);
      case Sync => request := Sync();
      case ServerRead(r) =>
        request := Nothing;
        if phase.ResolveGet? && d.since <= r < |s.history| {
          request := ResolveRead(Snapshot(s.history[r], r));
        }
    }

    method DispatchAnswer(s: System, k: nat, d: Device, event: Event) returns (request: Request)
      requires s.history != [] && d.tab == View()
      requires event.SnapshotLoaded? || event.SnapshotRead? || event.PutAnswered?
      modifies this
      ensures View() == React(s, k, d, event).device.tab
      ensures React(s, k, d, event).sent.None? && !request.PutJourney?
    {
      hide NexusModel.Load, FinishAuthenticate, NexusModel.ClearDraft;
      request := Nothing;
      match event
      case SnapshotLoaded(r, now) =>
        if d.since <= r < |s.history| {
          ArriveSnapshot(Snapshot(s.history[r], r), now);
        }
      case SnapshotRead(r) =>
        if phase == SyncGet && d.since <= r < |s.history| {
          request := SyncRead(Snapshot(s.history[r], r));
        }
      case PutAnswered =>
        if d.put < |s.puts| && s.puts[d.put].outcome != InFlight {
          var p := s.puts[d.put];
          var answer := if p.outcome == Accepted then Some(p.revision + 1) else None;
          if phase == SyncPut {
            SyncWritten(answer);
          } else if phase == ResolvePut {
            ResolveWritten(answer);
          }
        }
    }

    /** The GET of `load` is answered, to whichever handler sent it. */
    method ArriveSnapshot(snapshot: Snapshot, now: Moment)
      modifies this
      ensures var t := old(View());
        View() == if t.startup == LoadingJourney then NexusModel.Load(t, snapshot).(startup := Done)
                  else if t.phase.AuthLoad? then FinishAuthenticate(t, snapshot, now)
                  else if t.phase == SyncLoad then NexusModel.Load(t, snapshot).(phase := Idle)
                  else t
    {
      hide NexusModel.Load, FinishAuthenticate;
      if startup == LoadingJourney {
        Load(snapshot);
        startup := Done;
      } else if phase.AuthLoad? {
        SignedInRead(snapshot, now);
      } else if phase == SyncLoad {
        Load(snapshot);
        phase := Idle;
      }
    }

    method DispatchSession(s: System, k: nat, d: Device, event: Event) returns (request: Request)
      requires s.history != [] && d.tab == View() && SessionEvent(event)
      modifies this
      ensures View() == React(s, k, d, event).device.tab
      ensures React(s, k, d, event).sent.None? && !request.PutJourney?
    {
      request := Nothing;
      match event
      case Reload => Reload();
      case Boot =>
        if startup == Done && phase == Idle && !loggedIn {
          startup := FindingSession;
        }
      case SessionFound =>
        if startup == FindingSession {
          loggedIn := true;
          startup := LoadingJourney;
          request := GetJourney;
        }
      case StartupFailed => startup := Done;
      case SignIn =>
        if startup == Done && phase == Idle && (!loggedIn || sessionExpired) {
          SignIn();
        }
      case SignedIn =>
        if phase.Authenticating? {
          SignedIn();
          request := GetJourney;
        }
      case Resolve(useLocal) =>
        if startup == Done && phase == Idle && loggedIn && conflict && !sessionExpired {
          phase := ResolveGet(useLocal);
          request := GetJourney;
        }
      case SignOut =>
        if loggedIn {
          var sent := Logout();
        }
      case SignedOut =>
        if phase == LoggingOut {
          LoggedOut();
        }
      case Fail(unauthorised) => RequestFailed(unauthorised);
    }
  }
}
