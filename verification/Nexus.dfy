/**
 Nexus synchronisation: the compare-and-swap journey of the server (`nexus/server/app.py`) and the client of one
 browser tab (`nexus/src/composables/useJourney.ts`), as functions on values. An asynchronous handler is cut at
 its awaits. Two handlers can be suspended at once: `startup` says where `boot` waits, `phase` where the one that
 set `busy` does.
 */
module NexusModel {
  import opened Prelude
  import opened JourneyModel

  type Moment = nat

  datatype Snapshot = Snapshot(journey: Journey, revision: nat)

  /** The JSON text kept in local storage; two texts are equal when their contents are. */
  datatype Draft = Draft(journey: Journey, revision: nat, updatedAt: Moment)

  /** Where `boot` waits; `loading` is `startup != Done`. */
  datatype Startup = Done | FindingSession | LoadingJourney

  /** Where the other handler waits; `busy` is `phase != Idle`. */
  datatype Phase =
    | Idle
    | SyncPut | SyncGet | SyncLoad
    | Authenticating(previous: Option<Snapshot>) | AuthLoad(previous: Option<Snapshot>)
    | ResolveGet(useLocal: bool) | ResolvePut
    | LoggingOut

  /** The variables of `useJourney`, and `stored`, the entry of this account in the browser's local storage. */
  datatype Tab = Tab(startup: Startup, phase: Phase, loggedIn: bool, sessionExpired: bool, loaded: bool,
                     journey: Journey, revision: nat, pending: bool, conflict: bool, draftRaw: Option<Draft>,
                     stored: Option<Draft>)

  // ----- The client. -----

  /** A page load keeps nothing but local storage. */
  function Opened(stored: Option<Draft>): Tab {
    Tab(FindingSession, Idle, false, false, false, EMPTY_JOURNEY, 0, false, false, None, stored)
  }

  predicate CanEdit(t: Tab) {
    t.loggedIn && t.loaded && t.startup == Done && t.phase == Idle && !t.conflict && !t.sessionExpired
  }

  function SaveDraft(t: Tab, now: Moment): Tab {
    if !t.loggedIn then t
    else if t.stored != t.draftRaw then t.(conflict := true)
    else
      var raw := Some(Draft(t.journey, t.revision, now));
      t.(stored := raw, draftRaw := raw)
  }

  function ClearDraft(t: Tab): Tab {
    if t.stored == t.draftRaw then t.(stored := None, draftRaw := None)
    else if t.stored.Some? then t.(conflict := true, draftRaw := None)
    else t.(draftRaw := None)
  }

  /** The local storage entry of whoever is signed in; nobody else's is ever written. */
  function Entry(t: Tab): Option<Draft> {
    if t.loggedIn then t.stored else None
  }

  /** `load` once the snapshot is there: a draft that says something else is taken up again. */
  function Load(t: Tab, s: Snapshot): Tab {
    var l := t.(journey := s.journey, revision := s.revision, loaded := true, draftRaw := Entry(t));
    match Entry(t)
    case None => l
    case Some(draft) =>
      if draft.journey != s.journey
      then l.(journey := draft.journey, pending := true, conflict := draft.revision != s.revision,
              revision := draft.revision)
      else ClearDraft(l)
  }

  function BeginSync(t: Tab): Tab {
    if !t.loggedIn || t.phase != Idle || t.startup != Done || t.conflict then t
    else if t.pending then t.(phase := SyncPut)
    else t.(phase := SyncGet)
  }

  function WriteAccepted(t: Tab, revision: nat): Tab {
    ClearDraft(t.(revision := revision, pending := false, phase := Idle))
  }

  function WriteRefused(t: Tab): Tab {
    t.(conflict := true, phase := Idle)
  }

  function SnapshotArrived(t: Tab, s: Snapshot): Tab {
    if !t.loaded then t.(phase := SyncLoad)
    else if s.revision != t.revision then t.(journey := s.journey, revision := s.revision, phase := Idle)
    else t.(phase := Idle)
  }

  function Change(t: Tab, j: Journey, now: Moment): Tab {
    if CanEdit(t) then BeginSync(SaveDraft(t.(journey := j, pending := true), now)) else t
  }

  function BeginAuthenticate(t: Tab): Tab {
    var previous := if t.loggedIn && t.pending then Some(Snapshot(t.journey, t.revision)) else None;
    t.(phase := Authenticating(previous))
  }

  function SessionGranted(t: Tab): Tab
    requires t.phase.Authenticating?
  {
    t.(loggedIn := true, sessionExpired := false, pending := false, conflict := false, loaded := false,
       phase := AuthLoad(t.phase.previous))
  }

  /** `authenticate` after `load`: unsent changes of this page win over what was loaded. */
  function FinishAuthenticate(t: Tab, s: Snapshot, now: Moment): Tab
    requires t.phase.AuthLoad?
  {
    var previous := t.phase.previous;
    var l := Load(t, s).(phase := Idle);
    if previous.Some? && previous.value.journey != l.journey then
      SaveDraft(l.(journey := previous.value.journey, revision := previous.value.revision, pending := true,
                   conflict := l.conflict || previous.value.revision != l.revision), now)
    else l
  }

  /** The choice is explicit, so the draft goes whatever it holds. */
  function Settled(t: Tab): Tab {
    t.(stored := None, draftRaw := None, conflict := false, pending := false, phase := Idle)
  }

  function FinishLogout(t: Tab): Tab {
    ClearDraft(t).(loggedIn := false, loaded := false, journey := EMPTY_JOURNEY, phase := Idle)
  }

  /** The request of the busy handler fails; only `sync` looks for an expired session. */
  function Failed(t: Tab, unauthorised: bool): Tab {
    var syncing := t.phase in {SyncPut, SyncGet, SyncLoad};
    t.(phase := Idle, sessionExpired := t.sessionExpired || (syncing && unauthorised))
  }

  // ----- The system: one server, one account, several browsers. -----

  datatype Outcome = InFlight | Accepted | Stale

  /** A PUT on its way: `base` is the version its device had last loaded or written when it sent it. */
  datatype Put = Put(device: nat, revision: nat, journey: Journey, base: Journey, outcome: Outcome)

  /** A browser. `since` is the server's revision when the GET in progress was sent, `put` the PUT it waits for,
      `seen` the last version loaded or written, and `edit` the last change that nobody accepted or discarded. */
  datatype Device = Device(tab: Tab, since: nat, put: nat, seen: Journey, edit: Option<Journey>)

  /** `history[r]` is the journey at revision `r`. */
  datatype System = System(history: seq<Journey>, devices: seq<Device>, puts: seq<Put>)

  function Last(s: System): nat
    requires s.history != []
  {
    |s.history| - 1
  }

  datatype Event =
    | Reload | Boot | SessionFound | SnapshotLoaded(revision: nat, now: Moment)
    | Sync | SnapshotRead(revision: nat) | PutAnswered
    | Edit(journey: Journey, now: Moment)
    | SignIn | SignedIn
    | Resolve(useLocal: bool) | ServerRead(revision: nat)
    | SignOut | SignedOut
    | Fail(unauthorised: bool) | StartupFailed

  /** The server handles a PUT, or something happens in a browser. */
  datatype Step = Process(id: nat) | At(device: nat, event: Event)

  datatype Reaction = Reaction(device: Device, sent: Option<Put>)

  function Quiet(d: Device): Reaction {
    Reaction(d, None)
  }

  /** `update_journey`: the write counts only against the revision it names. */
  function Update(s: System, id: nat): System
    requires id < |s.puts| && s.history != []
  {
    var p := s.puts[id];
    if p.outcome != InFlight then s
    else if p.revision != Last(s) then s.(puts := s.puts[id := p.(outcome := Stale)])
    else
      System(s.history + [p.journey],
             if p.device < |s.devices| then s.devices[p.device := Delivered(s.devices[p.device], p.journey)] else s.devices,
             s.puts[id := p.(outcome := Accepted)])
  }

  function Delivered(d: Device, j: Journey): Device {
    if d.edit == Some(j) then d.(edit := None) else d
  }

  /** What `BeginSync` sends. */
  function Send(k: nat, d: Device, t: Tab, last: nat, id: nat): Reaction {
    if t.phase == SyncPut
    then Reaction(d.(tab := t, put := id), Some(Put(k, t.revision, t.journey, d.seen, InFlight)))
    else Quiet(d.(tab := t, since := last))
  }

  /** The answer to the GET inside `load`, from any server state since it was sent. A draft equal to what the
      server holds is no longer unsent. */
  function OnLoaded(d: Device, s: Snapshot, now: Moment): Device {
    var t := d.tab;
    var edit := if Entry(t).Some? && t.stored.value.journey == s.journey then None else d.edit;
    var loaded := if t.startup == LoadingJourney then Load(t, s).(startup := Done)
                  else if t.phase.AuthLoad? then FinishAuthenticate(t, s, now)
                  else Load(t, s).(phase := Idle);
    d.(tab := loaded, seen := s.journey, edit := edit)
  }

  function OnPutAnswered(d: Device, p: Put): Device {
    var t := d.tab;
    if t.phase == SyncPut then
      match p.outcome
      case InFlight => d
      case Accepted => d.(tab := WriteAccepted(t, p.revision + 1), seen := t.journey)
      case Stale => d.(tab := WriteRefused(t))
    else
      match p.outcome
      case InFlight => d
      case Accepted => d.(tab := Settled(t).(revision := p.revision + 1), seen := t.journey)
      case Stale => d.(tab := t.(phase := Idle))
  }

  /** `resolveConflict` once it has read the server. */
  function OnServerRead(k: nat, d: Device, s: Snapshot, id: nat): Reaction
    requires d.tab.phase.ResolveGet?
  {
    var t := d.tab;
    if t.phase.useLocal
    then Reaction(d.(tab := t.(phase := ResolvePut), seen := s.journey, put := id),
                  Some(Put(k, s.revision, t.journey, s.journey, InFlight)))
    else Quiet(d.(tab := Settled(t.(journey := s.journey, revision := s.revision)), seen := s.journey, edit := None))
  }

  /** Somebody waits for the GET inside `load`. */
  predicate AwaitsLoad(t: Tab) {
    t.startup == LoadingJourney || t.phase == SyncLoad || t.phase.AuthLoad?
  }

  predicate Readable(s: System, d: Device, revision: nat)
    requires s.history != []
  {
    d.since <= revision <= Last(s)
  }

  /** What a browser does on an event; an event that cannot happen now changes nothing. While `boot` is loading,
      the page offers no control but the logout. */
  function React(s: System, k: nat, d: Device, event: Event): Reaction
    requires s.history != []
  {
    var t, last := d.tab, Last(s);
    match event
    case Reload => Quiet(d.(tab := Opened(t.stored)))
    case Boot =>
      if t.startup == Done && t.phase == Idle && !t.loggedIn then Quiet(d.(tab := t.(startup := FindingSession)))
      else Quiet(d)
    case SessionFound =>
      if t.startup == FindingSession
      then Quiet(d.(tab := t.(loggedIn := true, startup := LoadingJourney), since := last)) else Quiet(d)
    case SnapshotLoaded(r, now) =>
      if AwaitsLoad(t) && Readable(s, d, r)
      then Quiet(OnLoaded(d, Snapshot(s.history[r], r), now)) else Quiet(d)
    case Sync =>
      if t.phase == Idle && t.startup == Done then Send(k, d, BeginSync(t), last, |s.puts|) else Quiet(d)
    case SnapshotRead(r) =>
      if t.phase == SyncGet && Readable(s, d, r)
      then Quiet(d.(tab := SnapshotArrived(t, Snapshot(s.history[r], r)), seen := s.history[r], since := last)) else Quiet(d)
    case PutAnswered =>
      if (t.phase == SyncPut || t.phase == ResolvePut) && d.put < |s.puts|
      then Quiet(OnPutAnswered(d, s.puts[d.put])) else Quiet(d)
    case Edit(j, now) =>
      if CanEdit(t) then Send(k, d.(edit := Some(j)), Change(t, j, now), last, |s.puts|) else Quiet(d)
    case SignIn =>
      if t.startup == Done && t.phase == Idle && (!t.loggedIn || t.sessionExpired)
      then Quiet(d.(tab := BeginAuthenticate(t))) else Quiet(d)
    case SignedIn => if t.phase.Authenticating? then Quiet(d.(tab := SessionGranted(t), since := last)) else Quiet(d)
    case Resolve(useLocal) =>
      if t.startup == Done && t.phase == Idle && t.loggedIn && t.conflict && !t.sessionExpired
      then Quiet(d.(tab := t.(phase := ResolveGet(useLocal)), since := last)) else Quiet(d)
    case ServerRead(r) =>
      if t.phase.ResolveGet? && Readable(s, d, r)
      then OnServerRead(k, d, Snapshot(s.history[r], r), |s.puts|) else Quiet(d)
    case SignOut =>
      if t.phase == Idle && t.loggedIn && !t.pending && !t.conflict
      then Quiet(d.(tab := t.(phase := LoggingOut))) else Quiet(d)
    case SignedOut => if t.phase == LoggingOut then Quiet(d.(tab := FinishLogout(t))) else Quiet(d)
    case Fail(unauthorised) => if t.phase != Idle then Quiet(d.(tab := Failed(t, unauthorised))) else Quiet(d)
    case StartupFailed => if t.startup != Done then Quiet(d.(tab := t.(startup := Done))) else Quiet(d)
  }

  function Next(s: System, step: Step): (n: System)
    requires s.history != []
    ensures s.history <= n.history
  {
    match step
    case Process(id) => if id < |s.puts| then Update(s, id) else s
    case At(k, event) =>
      if k < |s.devices| then
        var r := React(s, k, s.devices[k], event);
        System(s.history, s.devices[k := r.device], s.puts + if r.sent.Some? then [r.sent.value] else [])
      else s
  }

  function Run(s: System, steps: seq<Step>): (r: System)
    requires s.history != []
    ensures s.history <= r.history
    decreases steps
  {
    if steps == [] then s else Run(Next(s, steps[0]), steps[1..])
  }

  function Fresh(): Device {
    Device(Opened(None), 0, 0, EMPTY_JOURNEY, None)
  }

  /** A new account and `n` browsers about to open it. */
  function Start(n: nat): System {
    System([EMPTY_JOURNEY], seq(n, i => Fresh()), [])
  }

  // ----- Invariants. -----

  /** `t.stored` holds exactly what `t` shows. */
  predicate HoldsWork(t: Tab) {
    t.stored.Some? && t.stored.value.journey == t.journey && t.stored.value.revision == t.revision
  }

  /** What the page remembered before a login is what its draft says, if there is a draft. */
  predicate HoldsPrevious(stored: Option<Draft>, previous: Option<Snapshot>) {
    previous.Some? && stored.Some? ==>
      stored.value.journey == previous.value.journey && stored.value.revision == previous.value.revision
  }

  /** Each phase fixes what the handler relied on when it started waiting. */
  predicate PhaseInv(t: Tab) {
    match t.phase
    case Idle => true
    case SyncPut => t.loggedIn && t.pending && !t.conflict
    case SyncGet => t.loggedIn && !t.pending && !t.conflict
    case SyncLoad => t.loggedIn && !t.loaded && !t.pending && !t.conflict
    case Authenticating(previous) => HoldsPrevious(t.stored, previous)
    case AuthLoad(previous) =>
      t.loggedIn && !t.loaded && !t.pending && !t.conflict && HoldsPrevious(t.stored, previous)
    case ResolveGet(_) => t.loggedIn && t.conflict
    case ResolvePut => t.loggedIn && t.conflict
    case LoggingOut => t.loggedIn
  }

  /** Only a logout overlaps `boot`; one that overtakes it leaves a page that nobody is signed in to. */
  predicate StartupInv(t: Tab) {
    match t.startup
    case Done => true
    case FindingSession => !t.loggedIn && t.phase == Idle
    case LoadingJourney =>
      && (t.phase == Idle || (t.phase == LoggingOut && !t.pending && !t.conflict))
      && (!t.loggedIn ==> t.phase == Idle && !t.pending && (t.stored.Some? ==> t.conflict))
  }

  /** A page that says it has work pending knows what is in local storage, and if anything is there it is that
      work; a page that loaded, with nothing pending and no conflict, has nothing there. */
  predicate TabInv(t: Tab) {
    && (t.pending ==> t.draftRaw == t.stored && (t.stored.Some? ==> HoldsWork(t)))
    && (t.loaded && !t.pending && !t.conflict ==> t.stored.None?)
    && (t.draftRaw.Some? ==> t.draftRaw == t.stored)
    && PhaseInv(t) && StartupInv(t)
  }

  /** What a page shows or wants to send, without conflict, belongs to the server's version `revision`. */
  predicate UpToRevision(history: seq<Journey>, d: Device) {
    (d.tab.loaded || d.tab.pending) && !d.tab.conflict ==>
      && d.tab.revision < |history| && history[d.tab.revision] == d.seen
      && (!d.tab.pending ==> d.tab.journey == d.seen)
  }

  predicate Waiting(puts: seq<Put>, k: nat, d: Device) {
    d.tab.phase == SyncPut || d.tab.phase == ResolvePut ==>
      && d.put < |puts| && puts[d.put].device == k && puts[d.put].journey == d.tab.journey
      && (d.tab.phase == SyncPut ==> puts[d.put].revision == d.tab.revision)
  }

  predicate DeviceInv(history: seq<Journey>, puts: seq<Put>, k: nat, d: Device) {
    && TabInv(d.tab)
    && UpToRevision(history, d)
    && Waiting(puts, k, d)
  }

  /** Every PUT was based on the version it names; an accepted one is the next version, a refused one came late. */
  predicate PutsInv(history: seq<Journey>, puts: seq<Put>) {
    && (forall i :: 0 <= i < |puts| ==>
      && puts[i].revision < |history| && history[puts[i].revision] == puts[i].base
      && (puts[i].outcome == Accepted ==> puts[i].revision + 1 < |history| && history[puts[i].revision + 1] == puts[i].journey)
      && (puts[i].outcome == Stale ==> puts[i].revision + 1 < |history|))
    && (forall i, j :: 0 <= i < j < |puts| && puts[i].outcome == Accepted && puts[j].outcome == Accepted ==>
      puts[i].revision != puts[j].revision)
  }

  function AcceptedCount(puts: seq<Put>): nat {
    if puts == [] then 0 else (if puts[0].outcome == Accepted then 1 else 0) + AcceptedCount(puts[1..])
  }

  ghost predicate SystemInv(s: System) {
    && |s.history| == 1 + AcceptedCount(s.puts)
    && PutsInv(s.history, s.puts)
    && forall k :: 0 <= k < |s.devices| ==> DeviceInv(s.history, s.puts, k, s.devices[k])
  }

  /** The unsent change of a device is in its local storage. */
  predicate Kept(d: Device) {
    d.edit.Some? ==> d.tab.stored.Some? && d.tab.stored.value.journey == d.edit.value
  }

  /** A page with work pending that waits for a PUT the server has accepted has nothing unsent. */
  predicate Credited(puts: seq<Put>, d: Device) {
    d.tab.phase in {SyncPut, ResolvePut} && d.tab.pending && d.put < |puts| && puts[d.put].outcome == Accepted ==>
      d.edit.None?
  }

  ghost predicate NothingLost(s: System) {
    forall k :: 0 <= k < |s.devices| ==> Kept(s.devices[k]) && Credited(s.puts, s.devices[k])
  }

  /** The two steps that lose an unsent change: a logout that ends on a page which remembers the draft, and
      sending the visible version to settle a conflict on a page that has nothing pending itself. */
  predicate Loses(s: System, step: Step) {
    && step.At? && step.device < |s.devices|
    && var d := s.devices[step.device];
      && d.edit.Some?
      && (|| (step.event == SignedOut && d.tab.phase == LoggingOut && d.tab.draftRaw.Some?)
          || (step.event == PutAnswered && d.tab.phase == ResolvePut && !d.tab.pending && d.put < |s.puts|
              && s.puts[d.put].outcome == Accepted))
  }

  predicate Careful(s: System, steps: seq<Step>)
    requires s.history != []
    decreases steps
  {
    steps == [] || (!Loses(s, steps[0]) && Careful(Next(s, steps[0]), steps[1..]))
  }

  // ----- The server. -----

  lemma {:induction false} CountAppend(puts: seq<Put>, p: Put)
    requires p.outcome != Accepted
    ensures AcceptedCount(puts + [p]) == AcceptedCount(puts)
  {
    if puts != [] {
      assert (puts + [p])[1..] == puts[1..] + [p];
      CountAppend(puts[1..], p);
    }
  }

  lemma {:induction false} CountUpdate(puts: seq<Put>, id: nat, p: Put)
    requires id < |puts| && puts[id].outcome != Accepted
    ensures AcceptedCount(puts[id := p]) == AcceptedCount(puts) + if p.outcome == Accepted then 1 else 0
  {
    if id == 0 {
      assert puts[id := p][1..] == puts[1..];
    } else {
      assert puts[id := p][1..] == puts[1..][id - 1 := p];
      CountUpdate(puts[1..], id - 1, p);
    }
  }

  /** Nothing a device relies on disappears when the server gains a version or a PUT is sent or decided. */
  lemma DeviceInvGrows(history: seq<Journey>, more: seq<Journey>, puts: seq<Put>, later: seq<Put>, k: nat, d: Device)
    requires DeviceInv(history, puts, k, d)
    requires history <= more && |puts| <= |later|
    requires forall i :: 0 <= i < |puts| ==> later[i].(outcome := puts[i].outcome) == puts[i]
    ensures DeviceInv(more, later, k, d)
  {
    hide TabInv, PhaseInv;
    if (d.tab.phase == SyncPut || d.tab.phase == ResolvePut) {
      assert later[d.put].(outcome := puts[d.put].outcome) == puts[d.put];
    }
  }

  lemma UpdateKeepsPuts(s: System, id: nat)
    requires s.history != [] && id < |s.puts| && PutsInv(s.history, s.puts)
    ensures PutsInv(Update(s, id).history, Update(s, id).puts)
  {
  }

  lemma {:induction false} UpdateKeepsInv(s: System, id: nat)
    requires SystemInv(s) && id < |s.puts|
    ensures SystemInv(Update(s, id))
  {
    hide PutsInv, DeviceInv;
    var p, u := s.puts[id], Update(s, id);
    UpdateKeepsPuts(s, id);
    if p.outcome == InFlight {
      CountUpdate(s.puts, id, u.puts[id]);
      forall k | 0 <= k < |u.devices|
        ensures DeviceInv(u.history, u.puts, k, u.devices[k])
      {
        DeviceInvGrows(s.history, u.history, s.puts, u.puts, k, s.devices[k]);
        CreditKeepsInv(u.history, u.puts, k, s.devices[k], p.journey);
      }
    }
  }

  lemma CreditKeepsInv(history: seq<Journey>, puts: seq<Put>, k: nat, d: Device, j: Journey)
    requires DeviceInv(history, puts, k, d)
    ensures DeviceInv(history, puts, k, Delivered(d, j))
  {
    hide TabInv;
  }

  lemma CreditKeepsWork(s: System, id: nat, k: nat)
    requires SystemInv(s) && id < |s.puts| && k < |s.devices|
    requires Kept(s.devices[k]) && Credited(s.puts, s.devices[k])
    ensures Kept(Update(s, id).devices[k]) && Credited(Update(s, id).puts, Update(s, id).devices[k])
  {
    hide PutsInv, AcceptedCount;
    assert DeviceInv(s.history, s.puts, k, s.devices[k]);
  }

  // ----- The browser. -----

  lemma LoadKeepsTab(t: Tab, s: Snapshot)
    requires TabInv(t) && AwaitsLoad(t)
    ensures t.startup == LoadingJourney ==> TabInv(Load(t, s).(startup := Done))
    ensures t.startup != LoadingJourney ==> TabInv(Load(t, s).(phase := Idle))
  {
  }

  /** What the page remembered before the login comes back exactly when neither the draft nor the server
      already says it; with a draft in local storage it never has to. */
  lemma LoginRestoresIff(t: Tab, s: Snapshot, now: Moment)
    requires TabInv(t) && t.phase.AuthLoad?
    ensures FinishAuthenticate(t, s, now) == Load(t, s).(phase := Idle)
       <==> t.phase.previous.None? || t.stored.Some? || t.phase.previous.value.journey == s.journey
    ensures TabInv(FinishAuthenticate(t, s, now))
  {
    LoadKeepsTab(t, s);
  }

  lemma LoadedKeepsInv(history: seq<Journey>, puts: seq<Put>, k: nat, d: Device, r: nat, now: Moment)
    requires DeviceInv(history, puts, k, d) && r < |history| && AwaitsLoad(d.tab)
    ensures DeviceInv(history, puts, k, OnLoaded(d, Snapshot(history[r], r), now))
    ensures Kept(d) ==> Kept(OnLoaded(d, Snapshot(history[r], r), now))
  {
    var s := Snapshot(history[r], r);
    if d.tab.phase.AuthLoad? {
      LoginRestoresIff(d.tab, s, now);
    }
    LoadKeepsTab(d.tab, s);
  }

  lemma AnswerKeepsInv(history: seq<Journey>, puts: seq<Put>, k: nat, d: Device)
    requires DeviceInv(history, puts, k, d) && PutsInv(history, puts)
    requires d.tab.phase == SyncPut || d.tab.phase == ResolvePut
    ensures DeviceInv(history, puts, k, OnPutAnswered(d, puts[d.put]))
  {
    assert puts[d.put].revision < |history|;
  }

  /** Everything else a browser does on its own. */
  lemma EditKeepsTab(t: Tab, j: Journey, now: Moment)
    requires TabInv(t) && CanEdit(t)
    ensures var c := Change(t, j, now);
      && TabInv(c) && c.phase == SyncPut && c.journey == j && c.revision == t.revision && c.loaded && !c.conflict
      && c.stored == Some(Draft(j, t.revision, now))
  {
  }

  lemma SendKeepsInv(history: seq<Journey>, puts: seq<Put>, k: nat, d: Device, t: Tab)
    requires TabInv(t) && UpToRevision(history, d.(tab := t)) && PutsInv(history, puts) && history != []
    requires t.phase in {Idle, SyncPut, SyncGet} && (t.phase == SyncPut ==> t.pending && !t.conflict)
    ensures var r := Send(k, d, t, |history| - 1, |puts|);
      var more := puts + if r.sent.Some? then [r.sent.value] else [];
      DeviceInv(history, more, k, r.device) && PutsInv(history, more)
  {
  }

  lemma ReadKeepsInv(history: seq<Journey>, puts: seq<Put>, k: nat, d: Device, r: nat)
    requires DeviceInv(history, puts, k, d) && PutsInv(history, puts) && r < |history| && d.tab.phase.ResolveGet?
    ensures var o := OnServerRead(k, d, Snapshot(history[r], r), |puts|);
      var more := puts + if o.sent.Some? then [o.sent.value] else [];
      && DeviceInv(history, more, k, o.device) && PutsInv(history, more)
      && (o.sent.Some? ==> o.sent.value.outcome == InFlight)
  {
  }

  /** The events that only move a page through its session. */
  predicate SessionEvent(event: Event) {
    match event
    case Reload | Boot | SessionFound | SignIn | SignedIn | SignOut | SignedOut | StartupFailed => true
    case Resolve(_) | Fail(_) => true
    case _ => false
  }

  lemma SessionKeepsInv(s: System, k: nat, d: Device, event: Event)
    requires s.history != [] && DeviceInv(s.history, s.puts, k, d) && SessionEvent(event)
    ensures React(s, k, d, event).sent.None? && DeviceInv(s.history, s.puts, k, React(s, k, d, event).device)
  {
    hide OnLoaded, OnPutAnswered, OnServerRead, Send, SnapshotArrived, BeginSync, Change, CanEdit, Readable, AwaitsLoad;
  }

  lemma ReactKeepsInv(s: System, k: nat, d: Device, event: Event)
    requires SystemInv(s) && DeviceInv(s.history, s.puts, k, d)
    ensures var r := React(s, k, d, event);
      var more := s.puts + if r.sent.Some? then [r.sent.value] else [];
      && DeviceInv(s.history, more, k, r.device) && PutsInv(s.history, more)
      && (r.sent.Some? ==> r.sent.value.outcome == InFlight)
  {
    assert s.puts + [] == s.puts;
    if SessionEvent(event) {
      hide React, DeviceInv, PutsInv, AcceptedCount;
      SessionKeepsInv(s, k, d, event);
    } else {
      OtherKeepsInv(s, k, d, event);
    }
  }

  lemma OtherKeepsInv(s: System, k: nat, d: Device, event: Event)
    requires SystemInv(s) && DeviceInv(s.history, s.puts, k, d) && !SessionEvent(event)
    ensures var r := React(s, k, d, event);
      var more := s.puts + if r.sent.Some? then [r.sent.value] else [];
      && DeviceInv(s.history, more, k, r.device) && PutsInv(s.history, more)
      && (r.sent.Some? ==> r.sent.value.outcome == InFlight)
  {
    hide AcceptedCount, PutsInv, OnLoaded, OnPutAnswered, OnServerRead, Change;
    var t := d.tab;
    assert s.puts + [] == s.puts;
    match event
    case SnapshotLoaded(r, now) =>
      if AwaitsLoad(t) && Readable(s, d, r) {
        LoadedKeepsInv(s.history, s.puts, k, d, r, now);
      }
    case Sync =>
      if t.phase == Idle && t.startup == Done {
        SendKeepsInv(s.history, s.puts, k, d, BeginSync(t));
      }
    case Edit(j, now) =>
      if CanEdit(t) {
        EditKeepsTab(t, j, now);
        SendKeepsInv(s.history, s.puts, k, d.(edit := Some(j)), Change(t, j, now));
      }
    case ServerRead(r) =>
      if t.phase.ResolveGet? && Readable(s, d, r) {
        ReadKeepsInv(s.history, s.puts, k, d, r);
      }
    case PutAnswered =>
      if t.phase == SyncPut || t.phase == ResolvePut {
        AnswerKeepsInv(s.history, s.puts, k, d);
      }
    case SnapshotRead(_) =>
  }

  lemma NextKeepsInv(s: System, step: Step)
    requires SystemInv(s)
    ensures SystemInv(Next(s, step))
  {
    hide React, DeviceInv, PutsInv;
    match step
    case Process(id) =>
      if id < |s.puts| {
        UpdateKeepsInv(s, id);
      }
    case At(k, event) =>
      if k < |s.devices| {
        var r, n := React(s, k, s.devices[k], event), Next(s, step);
        ReactKeepsInv(s, k, s.devices[k], event);
        if r.sent.Some? {
          CountAppend(s.puts, r.sent.value);
        } else {
          assert s.puts + [] == s.puts;
        }
        forall i | 0 <= i < |n.devices|
          ensures DeviceInv(n.history, n.puts, i, n.devices[i])
        {
          if i != k {
            DeviceInvGrows(s.history, n.history, s.puts, n.puts, i, s.devices[i]);
          }
        }
      }
  }

  lemma SessionKeepsWork(s: System, k: nat, event: Event)
    requires s.history != [] && k < |s.devices| && SessionEvent(event)
    requires DeviceInv(s.history, s.puts, k, s.devices[k])
    requires Kept(s.devices[k]) && Credited(s.puts, s.devices[k])
    ensures var d := React(s, k, s.devices[k], event).device;
      && (Kept(d) <==> !Loses(s, At(k, event)))
      && (Kept(d) ==> Credited(s.puts, d))
  {
  }

  /** One browser's step keeps its unsent change exactly when it is not one of the losing ones. */
  lemma ReactKeepsWork(s: System, k: nat, event: Event)
    requires SystemInv(s) && k < |s.devices|
    requires Kept(s.devices[k]) && Credited(s.puts, s.devices[k])
    ensures var r := React(s, k, s.devices[k], event);
      var more := s.puts + if r.sent.Some? then [r.sent.value] else [];
      && (Kept(r.device) <==> !Loses(s, At(k, event)))
      && (Kept(r.device) ==> Credited(more, r.device))
  {
    assert DeviceInv(s.history, s.puts, k, s.devices[k]);
    assert s.puts + [] == s.puts;
    if SessionEvent(event) {
      hide React, DeviceInv, Kept, Credited, Loses;
      SessionKeepsInv(s, k, s.devices[k], event);
      SessionKeepsWork(s, k, event);
    } else {
      OtherKeepsWork(s, k, event);
    }
  }

  lemma OtherKeepsWork(s: System, k: nat, event: Event)
    requires SystemInv(s) && k < |s.devices| && !SessionEvent(event)
    requires Kept(s.devices[k]) && Credited(s.puts, s.devices[k])
    ensures var r := React(s, k, s.devices[k], event);
      var more := s.puts + if r.sent.Some? then [r.sent.value] else [];
      && (Kept(r.device) <==> !Loses(s, At(k, event)))
      && (Kept(r.device) ==> Credited(more, r.device))
  {
    hide AcceptedCount, PutsInv, OnLoaded, Change;
    var d := s.devices[k];
    assert DeviceInv(s.history, s.puts, k, d);
    assert s.puts + [] == s.puts;
    match event
    case SnapshotLoaded(r, now) =>
      if AwaitsLoad(d.tab) && Readable(s, d, r) {
        LoadedKeepsInv(s.history, s.puts, k, d, r, now);
        LoadedIsIdle(d, Snapshot(s.history[r], r), now);
      }
    case Edit(j, now) =>
      if CanEdit(d.tab) {
        EditKeepsTab(d.tab, j, now);
      }
    case _ =>
  }

  lemma LoadedIsIdle(d: Device, s: Snapshot, now: Moment)
    requires TabInv(d.tab) && AwaitsLoad(d.tab)
    ensures OnLoaded(d, s, now).tab.phase in {Idle, LoggingOut}
  {
  }

  /** The exact border: a step of a system in which nothing is lost loses something if and only if it is one of
      the two losing steps. */
  lemma NextLosesIff(s: System, step: Step)
    requires SystemInv(s) && NothingLost(s)
    ensures NothingLost(Next(s, step)) <==> !Loses(s, step)
  {
    hide React, PutsInv, DeviceInv, Kept, Loses;
    var n := Next(s, step);
    match step
    case Process(id) =>
      if id < |s.puts| {
        forall k | 0 <= k < |n.devices|
          ensures Kept(n.devices[k]) && Credited(n.puts, n.devices[k])
        {
          CreditKeepsWork(s, id, k);
        }
      }
      OnlyBrowsersLose(s, step);
    case At(k, event) =>
      if k < |s.devices| {
        ReactKeepsWork(s, k, event);
        forall i | 0 <= i < |n.devices| && i != k
          ensures Kept(n.devices[i]) && Credited(n.puts, n.devices[i])
        {
          assert DeviceInv(s.history, s.puts, i, s.devices[i]);
          StillCredited(s.history, s.puts, n.puts, i, s.devices[i]);
        }
        assert n.devices[k] == React(s, k, s.devices[k], event).device;
      } else {
        OnlyBrowsersLose(s, step);
      }
  }

  lemma OnlyBrowsersLose(s: System, step: Step)
    requires step.At? ==> step.device >= |s.devices|
    ensures !Loses(s, step)
  {
  }

  lemma StillCredited(history: seq<Journey>, puts: seq<Put>, more: seq<Put>, k: nat, d: Device)
    requires DeviceInv(history, puts, k, d) && Credited(puts, d) && puts <= more
    ensures Credited(more, d)
  {
  }

  // ----- Main results, over every run. -----

  lemma StartIsSound(n: nat)
    ensures SystemInv(Start(n)) && NothingLost(Start(n))
  {
  }

  lemma {:induction false} RunKeepsInv(s: System, steps: seq<Step>)
    requires SystemInv(s)
    ensures SystemInv(Run(s, steps))
    decreases steps
  {
    assert s.history != [];
    hide SystemInv, Next;
    if steps != [] {
      NextKeepsInv(s, steps[0]);
      RunKeepsInv(Next(s, steps[0]), steps[1..]);
    }
  }

  lemma {:induction false} RunLosesNothing(s: System, steps: seq<Step>)
    requires SystemInv(s) && NothingLost(s) && Careful(s, steps)
    ensures NothingLost(Run(s, steps))
    decreases steps
  {
    assert s.history != [];
    hide SystemInv, NothingLost, Next, Loses;
    if steps != [] {
      NextKeepsInv(s, steps[0]);
      NextLosesIff(s, steps[0]);
      RunLosesNothing(Next(s, steps[0]), steps[1..]);
    }
  }

  /** Over any interleaving of browsers, lost answers and delayed PUTs the revision counts the accepted writes,
      and each accepted write replaced exactly the version its device had last loaded or written. */
  lemma WritesReplaceWhatTheySaw(n: nat, steps: seq<Step>)
    ensures var s := Run(Start(n), steps);
      && s.history != []
      && Last(s) == AcceptedCount(s.puts)
      && (forall i :: 0 <= i < |s.puts| && s.puts[i].outcome == Accepted ==>
        && s.puts[i].revision < Last(s)
        && s.history[s.puts[i].revision] == s.puts[i].base
        && s.history[s.puts[i].revision + 1] == s.puts[i].journey)
      && (forall i, j :: 0 <= i < j < |s.puts| && s.puts[i].outcome == Accepted && s.puts[j].outcome == Accepted ==>
        s.puts[i].revision != s.puts[j].revision)
  {
    hide DeviceInv;
    StartIsSound(n);
    RunKeepsInv(Start(n), steps);
  }

  /** A page with no conflict and nothing pending shows the server's version of its revision. */
  lemma SyncedPagesAgreeWithTheServer(n: nat, steps: seq<Step>, k: nat)
    requires k < |Run(Start(n), steps).devices|
    ensures var s := Run(Start(n), steps); var t := s.devices[k].tab;
      t.loaded && !t.conflict && !t.pending ==>
        t.revision < |s.history| && t.journey == s.history[t.revision] && t.stored.None?
  {
    hide PutsInv;
    StartIsSound(n);
    RunKeepsInv(Start(n), steps);
    var s := Run(Start(n), steps);
    assert DeviceInv(s.history, s.puts, k, s.devices[k]);
  }

  /** Unless one of the two losing steps is taken, an unsent change is in local storage until the server has it
      or the user discards it. */
  lemma {:induction false} UnsentChangesAreKept(n: nat, steps: seq<Step>, k: nat)
    requires Careful(Start(n), steps) && k < |Run(Start(n), steps).devices|
    ensures Kept(Run(Start(n), steps).devices[k])
  {
    hide SystemInv;
    StartIsSound(n);
    RunLosesNothing(Start(n), steps);
  }
}
