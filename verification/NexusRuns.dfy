/** Runs of the Nexus system in which something is lost: the losing steps of `NexusModel.Loses` can be reached. */
module NexusRuns {
  import opened Prelude
  import opened JourneyModel
  import opened NexusModel

  lemma {:induction false} RunSplit(s: System, first: seq<Step>, second: seq<Step>)
    requires s.history != []
    ensures Run(s, first + second) == Run(Run(s, first), second)
    decreases first
  {
    hide Next;
    if first == [] {
      assert first + second == second;
    } else {
      assert (first + second)[0] == first[0] && (first + second)[1..] == first[1..] + second;
      RunSplit(Next(s, first[0]), first[1..], second);
    }
  }

  lemma RunAt(s: System, steps: seq<Step>, i: nat)
    requires s.history != [] && i < |steps|
    ensures Run(s, steps[i..]) == if i + 1 == |steps| then Next(s, steps[i]) else Run(Next(s, steps[i]), steps[i + 1..])
  {
    assert steps[i..][1..] == steps[i + 1..];
  }

  // ----- The common beginning: a first change is written, a second one is made offline. -----

  function EditTwice(i: Journey, j: Journey): seq<Step> {
    [At(0, SessionFound), At(0, SnapshotLoaded(0, 0)), At(0, Edit(i, 1)), Process(0), At(0, PutAnswered),
     At(0, Edit(j, 2)), At(0, Fail(false))]
  }

  function DraftOf(j: Journey): Option<Draft> {
    Some(Draft(j, 1, 2))
  }

  /** One browser whose last change `j` nobody else has; the server is at `history`. */
  function Alone(history: seq<Journey>, i: Journey, j: Journey, tab: Tab, since: nat, put: nat, more: seq<Put>): System {
    System(history, [Device(tab, since, put, i, Some(j))],
           [Put(0, 0, i, EMPTY_JOURNEY, Accepted), Put(0, 1, j, i, InFlight)] + more)
  }

  function Offline(i: Journey, j: Journey): System {
    Alone([EMPTY_JOURNEY, i], i, j, Tab(Done, Idle, true, false, true, j, 1, true, false, DraftOf(j), DraftOf(j)), 0, 1, [])
  }

  /** The first change is on the server. */
  function Written(i: Journey): System {
    System([EMPTY_JOURNEY, i], [Device(Tab(Done, Idle, true, false, true, i, 1, false, false, None, None), 0, 0, i, None)],
           [Put(0, 0, i, EMPTY_JOURNEY, Accepted)])
  }

  lemma FirstChange(i: Journey)
    ensures var steps := EditTwice(i, i);
      Run(Start(1), steps[..5]) == Written(i)
  {
    hide Run;
    var steps := EditTwice(i, i)[..5];
    var s1 := Next(Start(1), steps[0]);
    var s2 := Next(s1, steps[1]);
    var s3 := Next(s2, steps[2]);
    var s4 := Next(s3, steps[3]);
    assert s1.devices == [Device(Opened(None).(loggedIn := true, startup := LoadingJourney), 0, 0, EMPTY_JOURNEY, None)];
    assert s2.devices == [Device(Tab(Done, Idle, true, false, true, EMPTY_JOURNEY, 0, false, false, None, None),
                                 0, 0, EMPTY_JOURNEY, None)];
    assert s2.puts == [];
    var draft := Some(Draft(i, 0, 1));
    var sending := Tab(Done, SyncPut, true, false, true, i, 0, true, false, draft, draft);
    assert s3.devices == [Device(sending, 0, 0, EMPTY_JOURNEY, Some(i))];
    assert s3.puts == [Put(0, 0, i, EMPTY_JOURNEY, InFlight)];
    assert s4.devices == [Device(sending, 0, 0, EMPTY_JOURNEY, None)];
    assert steps[0..] == steps;
    RunAt(Start(1), steps, 0);
    RunAt(s1, steps, 1);
    RunAt(s2, steps, 2);
    RunAt(s3, steps, 3);
    RunAt(s4, steps, 4);
  }

  lemma MovesOffline(i: Journey, j: Journey)
    ensures Run(Written(i), [At(0, Edit(j, 2)), At(0, Fail(false))]) == Offline(i, j)
  {
    hide Run;
    var steps := [At(0, Edit(j, 2)), At(0, Fail(false))];
    var s1 := Next(Written(i), steps[0]);
    var o := Offline(i, j);
    assert s1 == o.(devices := [o.devices[0].(tab := o.devices[0].tab.(phase := SyncPut))]);
    assert steps[0..] == steps;
    RunAt(Written(i), steps, 0);
    RunAt(s1, steps, 1);
  }

  lemma SecondChange(i: Journey, j: Journey)
    ensures Run(Start(1), EditTwice(i, j)) == Offline(i, j)
  {
    assert Start(1).history != [];
    hide Run, Start, Next;
    FirstChange(i);
    MovesOffline(i, j);
    var first, second := EditTwice(i, i)[..5], [At(0, Edit(j, 2)), At(0, Fail(false))];
    assert EditTwice(i, j) == first + second;
    RunSplit(Start(1), first, second);
  }

  /** Nobody accepted or discarded the change `j`, and no draft of it is left. */
  ghost predicate HasLost(s: System, j: Journey) {
    && |s.devices| == 1 && s.devices[0].edit == Some(j) && s.devices[0].tab.stored.None?
    && s.history != [] && j !in s.history[1..]
  }

  // ----- First: a logout after a login whose `load` failed. -----

  const SESSION_EXPIRES: seq<Step> := [At(0, Sync), At(0, Fail(true))]
  const LOGIN_WITHOUT_LOAD: seq<Step> := [At(0, SignIn), At(0, SignedIn), At(0, Fail(false))]
  const LOGOUT: seq<Step> := [At(0, SignOut), At(0, SignedOut)]

  function Expired(i: Journey, j: Journey): System {
    Alone([EMPTY_JOURNEY, i], i, j, Offline(i, j).devices[0].tab.(sessionExpired := true), 0, 2, [Put(0, 1, j, i, InFlight)])
  }

  function NotLoaded(i: Journey, j: Journey): System {
    var tab := Offline(i, j).devices[0].tab.(pending := false, loaded := false);
    Alone([EMPTY_JOURNEY, i], i, j, tab, 1, 2, [Put(0, 1, j, i, InFlight)])
  }

  lemma SessionExpires(i: Journey, j: Journey)
    ensures Run(Offline(i, j), SESSION_EXPIRES) == Expired(i, j)
  {
    hide Run;
    var s1 := Next(Offline(i, j), SESSION_EXPIRES[0]);
    var e := Expired(i, j);
    assert s1 == e.(devices := [e.devices[0].(tab := Offline(i, j).devices[0].tab.(phase := SyncPut))]);
    assert SESSION_EXPIRES[0..] == SESSION_EXPIRES;
    RunAt(Offline(i, j), SESSION_EXPIRES, 0);
    RunAt(s1, SESSION_EXPIRES, 1);
  }

  lemma LoginDoesNotLoad(i: Journey, j: Journey)
    ensures Run(Expired(i, j), LOGIN_WITHOUT_LOAD) == NotLoaded(i, j)
  {
    hide Run;
    var steps := LOGIN_WITHOUT_LOAD;
    var s1 := Next(Expired(i, j), steps[0]);
    var s2 := Next(s1, steps[1]);
    var previous := Some(Snapshot(j, 1));
    var d, e := Expired(i, j).devices[0], NotLoaded(i, j).devices[0];
    assert s1 == Expired(i, j).(devices := [d.(tab := d.tab.(phase := Authenticating(previous)))]);
    assert s2 == NotLoaded(i, j).(devices := [e.(tab := e.tab.(phase := AuthLoad(previous)))]);
    assert steps[0..] == steps;
    RunAt(Expired(i, j), steps, 0);
    RunAt(s1, steps, 1);
    RunAt(s2, steps, 2);
  }

  lemma LogoutForgets(i: Journey, j: Journey)
    requires i != j
    ensures HasLost(Run(NotLoaded(i, j), LOGOUT), j)
  {
    hide Run;
    var s1 := Next(NotLoaded(i, j), LOGOUT[0]);
    assert LOGOUT[0..] == LOGOUT;
    RunAt(NotLoaded(i, j), LOGOUT, 0);
    RunAt(s1, LOGOUT, 1);
  }

  lemma LogoutAfterFailedLoadLoses(i: Journey, j: Journey)
    requires i != j
    ensures HasLost(Run(Start(1), EditTwice(i, j) + (SESSION_EXPIRES + (LOGIN_WITHOUT_LOAD + LOGOUT))), j)
  {
    assert Start(1).history != [];
    hide Run, Start, Next, EditTwice, HasLost;
    SecondChange(i, j);
    SessionExpires(i, j);
    LoginDoesNotLoad(i, j);
    LogoutForgets(i, j);
    RunSplit(Start(1), EditTwice(i, j), SESSION_EXPIRES + (LOGIN_WITHOUT_LOAD + LOGOUT));
    RunSplit(Offline(i, j), SESSION_EXPIRES, LOGIN_WITHOUT_LOAD + LOGOUT);
    RunSplit(Expired(i, j), LOGIN_WITHOUT_LOAD, LOGOUT);
  }

  // ----- Second: a logout while `boot` is still loading. -----

  const LEAVE_WHILE_LOADING: seq<Step> :=
    [At(0, Reload), At(0, SessionFound), At(0, SignOut), At(0, SnapshotLoaded(1, 3)), At(0, SignedOut)]

  /** Signed out, with `pending` still set by the load that the logout overlapped. */
  function LeftPending(i: Journey, j: Journey, loggedIn: bool): System {
    Alone([EMPTY_JOURNEY, i], i, j, Tab(Done, Idle, loggedIn, false, false, EMPTY_JOURNEY, 1, true, false, None, None), 1, 1, [])
  }

  lemma LeavesWhileLoading(i: Journey, j: Journey)
    requires i != j
    ensures Run(Offline(i, j), LEAVE_WHILE_LOADING) == LeftPending(i, j, false)
  {
    hide Run;
    var steps := LEAVE_WHILE_LOADING;
    var o := Offline(i, j);
    var d := o.devices[0];
    var s1 := Next(o, steps[0]);
    assert s1 == o.(devices := [d.(tab := Opened(DraftOf(j)))]);
    var s2 := Next(s1, steps[1]);
    var found := d.(tab := Opened(DraftOf(j)).(loggedIn := true, startup := LoadingJourney), since := 1);
    assert s2 == o.(devices := [found]);
    var s3 := Next(s2, steps[2]);
    assert s3 == o.(devices := [found.(tab := found.tab.(phase := LoggingOut))]);
    var s4 := Next(s3, steps[3]);
    assert s4 == o.(devices := [found.(tab := d.tab.(phase := LoggingOut))]);
    assert steps[0..] == steps;
    RunAt(o, steps, 0);
    RunAt(s1, steps, 1);
    RunAt(s2, steps, 2);
    RunAt(s3, steps, 3);
    RunAt(s4, steps, 4);
  }

  lemma LogoutDuringLoadLoses(i: Journey, j: Journey)
    requires i != j
    ensures HasLost(Run(Start(1), EditTwice(i, j) + LEAVE_WHILE_LOADING), j)
  {
    assert Start(1).history != [];
    hide Run, Start, Next, EditTwice;
    SecondChange(i, j);
    LeavesWhileLoading(i, j);
    RunSplit(Start(1), EditTwice(i, j), LEAVE_WHILE_LOADING);
  }

  // ----- What the stale `pending` does next: a page that never loaded empties the server. -----

  /** A login whose answer is lost leaves a session behind, which the next connection attempt finds. */
  const RETRY: seq<Step> :=
    [At(0, SignIn), At(0, Fail(false)), At(0, Boot), At(0, SessionFound), At(0, StartupFailed)]
  const SYNC_REACHES_THE_SERVER: seq<Step> := [At(0, Sync), Process(2)]

  lemma QuietStep(s: System, event: Event, d: Device, after: Device)
    requires s.history != [] && s.devices == [d] && React(s, 0, d, event) == Quiet(after)
    ensures Next(s, At(0, event)) == s.(devices := [after])
  {
    hide React;
    assert s.puts + [] == s.puts;
  }

  lemma LostLogin(s: System, d: Device)
    requires s.history != [] && s.devices == [d] && d.tab.startup == Done && d.tab.phase == Idle && !d.tab.loggedIn
    ensures Next(Next(s, At(0, SignIn)), At(0, Fail(false))) == s
  {
    hide Next;
    var d1 := d.(tab := BeginAuthenticate(d.tab));
    QuietStep(s, SignIn, d, d1);
    QuietStep(s.(devices := [d1]), Fail(false), d1, d);
  }

  lemma FindsSession(s: System, d: Device)
    requires s.history != [] && s.devices == [d] && d.tab.startup == Done && d.tab.phase == Idle && !d.tab.loggedIn
    ensures Next(Next(Next(s, At(0, Boot)), At(0, SessionFound)), At(0, StartupFailed))
         == s.(devices := [d.(tab := d.tab.(loggedIn := true), since := Last(s))])
  {
    hide Next;
    var d1 := d.(tab := d.tab.(startup := FindingSession));
    var d2 := d.(tab := d.tab.(loggedIn := true, startup := LoadingJourney), since := Last(s));
    QuietStep(s, Boot, d, d1);
    QuietStep(s.(devices := [d1]), SessionFound, d1, d2);
    QuietStep(s.(devices := [d2]), StartupFailed, d2, d2.(tab := d2.tab.(startup := Done)));
  }

  lemma RetryFindsTheSession(s: System, d: Device)
    requires s.history != [] && s.devices == [d] && d.tab.startup == Done && d.tab.phase == Idle && !d.tab.loggedIn
    ensures Run(s, RETRY) == s.(devices := [d.(tab := d.tab.(loggedIn := true), since := Last(s))])
  {
    hide Run, Next;
    LostLogin(s, d);
    FindsSession(s, d);
    assert RETRY[0..] == RETRY;
    RunAt(s, RETRY, 0);
    RunAt(Next(s, RETRY[0]), RETRY, 1);
    RunAt(s, RETRY, 2);
    RunAt(Next(s, RETRY[2]), RETRY, 3);
    RunAt(Next(Next(s, RETRY[2]), RETRY[3]), RETRY, 4);
  }

  lemma SyncEmpties(i: Journey, j: Journey)
    ensures Run(LeftPending(i, j, true), SYNC_REACHES_THE_SERVER).history == [EMPTY_JOURNEY, i, EMPTY_JOURNEY]
  {
    hide Run;
    var steps := SYNC_REACHES_THE_SERVER;
    var s0 := LeftPending(i, j, true);
    var s1 := Next(s0, steps[0]);
    assert s1.puts == s0.puts + [Put(0, 1, EMPTY_JOURNEY, i, InFlight)];
    assert steps[0..] == steps;
    RunAt(s0, steps, 0);
    RunAt(s1, steps, 1);
  }

  /** The user never asked for the empty journey, yet it replaces the one on the server. */
  lemma StalePendingEmptiesTheServer(i: Journey, j: Journey)
    requires i != j
    ensures Run(Start(1), EditTwice(i, j) + (LEAVE_WHILE_LOADING + (RETRY + SYNC_REACHES_THE_SERVER))).history
         == [EMPTY_JOURNEY, i, EMPTY_JOURNEY]
  {
    assert Start(1).history != [];
    hide Run, Start, Next, EditTwice;
    SecondChange(i, j);
    LeavesWhileLoading(i, j);
    RetryFindsTheSession(LeftPending(i, j, false), LeftPending(i, j, false).devices[0]);
    SyncEmpties(i, j);
    RunSplit(Start(1), EditTwice(i, j), LEAVE_WHILE_LOADING + (RETRY + SYNC_REACHES_THE_SERVER));
    RunSplit(Offline(i, j), LEAVE_WHILE_LOADING, RETRY + SYNC_REACHES_THE_SERVER);
    RunSplit(LeftPending(i, j, false), RETRY, SYNC_REACHES_THE_SERVER);
  }

  /** When that can happen, for every state a run reaches: what `sync` sends is the draft in local storage, unless
      there is none although the page says something is pending. */
  lemma SyncSendsTheDraftIff(n: nat, steps: seq<Step>, k: nat)
    requires k < |Run(Start(n), steps).devices|
    ensures var s := Run(Start(n), steps); var d := s.devices[k]; var r := React(s, k, d, Sync);
      r.sent.Some? ==>
        (d.tab.stored.Some? && r.sent.value.journey == d.tab.stored.value.journey
           && r.sent.value.revision == d.tab.stored.value.revision
         <==> d.tab.draftRaw.Some?)
  {
    hide PutsInv;
    StartIsSound(n);
    RunKeepsInv(Start(n), steps);
    var s := Run(Start(n), steps);
    assert DeviceInv(s.history, s.puts, k, s.devices[k]);
  }

  // ----- Third: settling a conflict left over from a logout on a page that never loaded. -----

  const REOPEN: seq<Step> := [At(0, Reload), At(0, StartupFailed)]
  const SEND_VISIBLE: seq<Step> := [At(0, Resolve(true)), At(0, ServerRead(1)), Process(2), At(0, PutAnswered)]

  /** A page that never loaded, over the draft of `j`. */
  function Unloaded(i: Journey, j: Journey, loggedIn: bool, conflict: bool, since: nat): System {
    var tab := Opened(DraftOf(j)).(startup := Done, loggedIn := loggedIn, conflict := conflict);
    Alone([EMPTY_JOURNEY, i], i, j, tab, since, 1, [])
  }

  lemma Reopens(i: Journey, j: Journey)
    ensures Run(Offline(i, j), REOPEN) == Unloaded(i, j, false, false, 0)
  {
    hide Run;
    var o := Offline(i, j);
    var s1 := Next(o, REOPEN[0]);
    assert s1 == o.(devices := [o.devices[0].(tab := Opened(DraftOf(j)))]);
    assert REOPEN[0..] == REOPEN;
    RunAt(o, REOPEN, 0);
    RunAt(s1, REOPEN, 1);
  }

  lemma SignsInUnloaded(i: Journey, j: Journey)
    ensures Run(Unloaded(i, j, false, false, 0), LOGIN_WITHOUT_LOAD) == Unloaded(i, j, true, false, 1)
  {
    hide Run;
    var steps := LOGIN_WITHOUT_LOAD;
    var s0, s3 := Unloaded(i, j, false, false, 0), Unloaded(i, j, true, false, 1);
    var s1 := Next(s0, steps[0]);
    var s2 := Next(s1, steps[1]);
    var d, e := s0.devices[0], s3.devices[0];
    assert s1 == s0.(devices := [d.(tab := d.tab.(phase := Authenticating(None)))]);
    assert s2 == s3.(devices := [e.(tab := e.tab.(phase := AuthLoad(None)))]);
    assert steps[0..] == steps;
    RunAt(s0, steps, 0);
    RunAt(s1, steps, 1);
    RunAt(s2, steps, 2);
  }

  lemma LogoutRaisesTheAlarm(i: Journey, j: Journey)
    ensures Run(Unloaded(i, j, true, false, 1), LOGOUT) == Unloaded(i, j, false, true, 1)
  {
    hide Run;
    var s0 := Unloaded(i, j, true, false, 1);
    var s1 := Next(s0, LOGOUT[0]);
    var d := s0.devices[0];
    assert s1 == s0.(devices := [d.(tab := d.tab.(phase := LoggingOut))]);
    assert LOGOUT[0..] == LOGOUT;
    RunAt(s0, LOGOUT, 0);
    RunAt(s1, LOGOUT, 1);
  }

  lemma SendsTheEmptyPage(i: Journey, j: Journey)
    requires j != i && j != EMPTY_JOURNEY
    ensures HasLost(Run(Unloaded(i, j, true, true, 1), SEND_VISIBLE), j)
  {
    hide Run;
    var steps := SEND_VISIBLE;
    var s0 := Unloaded(i, j, true, true, 1);
    var d := s0.devices[0];
    var s1 := Next(s0, steps[0]);
    assert s1 == s0.(devices := [d.(tab := d.tab.(phase := ResolveGet(true)))]);
    var s2 := Next(s1, steps[1]);
    var waiting := [d.(tab := d.tab.(phase := ResolvePut), put := 2)];
    var put := Put(0, 1, EMPTY_JOURNEY, i, InFlight);
    assert s2 == System([EMPTY_JOURNEY, i], waiting, s0.puts + [put]);
    var s3 := Next(s2, steps[2]);
    assert s3 == System([EMPTY_JOURNEY, i, EMPTY_JOURNEY], waiting, s0.puts + [put.(outcome := Accepted)]);
    assert steps[0..] == steps;
    RunAt(s0, steps, 0);
    RunAt(s1, steps, 1);
    RunAt(s2, steps, 2);
    RunAt(s3, steps, 3);
  }

  lemma SettlingLoses(i: Journey, j: Journey)
    requires j != i && j != EMPTY_JOURNEY
    ensures HasLost(Run(Start(1), EditTwice(i, j)
                                  + (REOPEN + (LOGIN_WITHOUT_LOAD + (LOGOUT + (RETRY + SEND_VISIBLE))))), j)
  {
    assert Start(1).history != [];
    hide Run, Start, Next, EditTwice, HasLost;
    SecondChange(i, j);
    Reopens(i, j);
    SignsInUnloaded(i, j);
    LogoutRaisesTheAlarm(i, j);
    RetryFindsTheSession(Unloaded(i, j, false, true, 1), Unloaded(i, j, false, true, 1).devices[0]);
    SendsTheEmptyPage(i, j);
    RunSplit(Start(1), EditTwice(i, j), REOPEN + (LOGIN_WITHOUT_LOAD + (LOGOUT + (RETRY + SEND_VISIBLE))));
    RunSplit(Offline(i, j), REOPEN, LOGIN_WITHOUT_LOAD + (LOGOUT + (RETRY + SEND_VISIBLE)));
    RunSplit(Unloaded(i, j, false, false, 0), LOGIN_WITHOUT_LOAD, LOGOUT + (RETRY + SEND_VISIBLE));
    RunSplit(Unloaded(i, j, true, false, 1), LOGOUT, RETRY + SEND_VISIBLE);
    RunSplit(Unloaded(i, j, false, true, 1), RETRY, SEND_VISIBLE);
  }
}
