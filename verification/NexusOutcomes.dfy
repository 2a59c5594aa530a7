/**
 What each step of a Nexus page leads to (`nexus/src/composables/useJourney.ts`): when a conflict arises and when it
 ends, and what synchronising, editing, settling, signing in and signing out leave behind.
 */
module NexusOutcomes {
  import opened Prelude
  import opened JourneyModel
  import opened NexusModel

  /** The page of device `k` after an event. */
  function After(s: System, k: nat, event: Event): Tab
    requires s.history != [] && k < |s.devices|
  {
    React(s, k, s.devices[k], event).device.tab
  }

  lemma DeviceOf(s: System, k: nat)
    requires SystemInv(s) && k < |s.devices|
    ensures DeviceInv(s.history, s.puts, k, s.devices[k])
  {
  }

  // ----- Conflicts. -----

  /** A stored draft says something else than the server, and was made on another revision. */
  predicate OldDraft(t: Tab, j: Journey, r: nat) {
    Entry(t).Some? && t.stored.value.journey != j && t.stored.value.revision != r
  }

  /** What a login remembers, with no draft of it stored, says something else and belongs to another revision. */
  predicate OldMemory(t: Tab, j: Journey, r: nat) {
    && t.startup != LoadingJourney && t.phase.AuthLoad? && t.stored.None? && t.phase.previous.Some?
    && t.phase.previous.value.journey != j && t.phase.previous.value.revision != r
  }

  /** The events that put a page without conflict into one. */
  predicate Raises(s: System, d: Device, event: Event)
    requires s.history != []
  {
    var t := d.tab;
    match event
    case PutAnswered => t.phase == SyncPut && d.put < |s.puts| && s.puts[d.put].outcome == Stale
    case SnapshotLoaded(r, _) =>
      AwaitsLoad(t) && d.since <= r < |s.history| && (OldDraft(t, s.history[r], r) || OldMemory(t, s.history[r], r))
    case SignedOut => t.phase == LoggingOut && t.stored.Some? && t.draftRaw.None?
    case _ => false
  }

  /** The events that end one. */
  predicate Clears(s: System, d: Device, event: Event)
    requires s.history != []
  {
    var t := d.tab;
    match event
    case Reload => true
    case SignedIn => t.phase.Authenticating?
    case ServerRead(r) => t.phase == ResolveGet(false) && d.since <= r < |s.history|
    case PutAnswered => t.phase == ResolvePut && d.put < |s.puts| && s.puts[d.put].outcome == Accepted
    case SnapshotLoaded(r, _) =>
      && AwaitsLoad(t) && d.since <= r < |s.history|
      && Entry(t).Some? && t.stored.value.journey != s.history[r] && t.stored.value.revision == r
    case _ => false
  }

  lemma LoadedConflict(s: System, k: nat, r: nat, now: Moment)
    requires SystemInv(s) && k < |s.devices| && AwaitsLoad(s.devices[k].tab) && s.devices[k].since <= r < |s.history|
    ensures var d := s.devices[k]; var event := SnapshotLoaded(r, now);
      After(s, k, event).conflict <==> if d.tab.conflict then !Clears(s, d, event) else Raises(s, d, event)
  {
    hide PutsInv, AcceptedCount;
    DeviceOf(s, k);
  }

  lemma SessionConflict(s: System, k: nat, event: Event)
    requires SystemInv(s) && k < |s.devices| && SessionEvent(event)
    ensures var d := s.devices[k];
      After(s, k, event).conflict <==> if d.tab.conflict then !Clears(s, d, event) else Raises(s, d, event)
  {
    hide PutsInv, AcceptedCount, OnLoaded, OnPutAnswered, OnServerRead, Send, SnapshotArrived, BeginSync, Change;
    DeviceOf(s, k);
  }

  /** Exactly these steps start and end a conflict, in every state a run reaches: a refused write, taking up a draft
      made on another revision, a logout that finds a draft the page does not remember; a reload, a login, the user's
      choice, taking up a draft made on this revision. */
  lemma ConflictIff(s: System, k: nat, event: Event)
    requires SystemInv(s) && k < |s.devices|
    ensures var d := s.devices[k];
      After(s, k, event).conflict <==> if d.tab.conflict then !Clears(s, d, event) else Raises(s, d, event)
  {
    hide PutsInv, AcceptedCount;
    if SessionEvent(event) {
      SessionConflict(s, k, event);
    } else if event.SnapshotLoaded? {
      if AwaitsLoad(s.devices[k].tab) && s.devices[k].since <= event.revision < |s.history| {
        LoadedConflict(s, k, event.revision, event.now);
      }
    } else {
      hide OnLoaded;
      DeviceOf(s, k);
    }
  }

  // ----- Background synchronisation. -----

  predicate Quiet(t: Tab) {
    t.loggedIn && t.loaded && t.startup == Done && t.phase == Idle && !t.pending && !t.conflict
  }

  /** A loaded page that reads a version of the server shows that version, with nothing pending and no conflict. */
  lemma ReadVersionIsShown(s: System, k: nat, r: nat)
    requires SystemInv(s) && k < |s.devices| && s.devices[k].tab.phase == SyncGet && s.devices[k].tab.loaded
    requires s.devices[k].since <= r < |s.history|
    ensures var t := After(s, k, SnapshotRead(r));
      && t.journey == s.history[r] && t.revision == r && !t.pending && !t.conflict
      && t.phase == Idle && t.loaded && t.loggedIn && t.stored.None?
  {
    hide PutsInv, AcceptedCount;
    DeviceOf(s, k);
  }

  /** A quiet page that completes one synchronisation shows what the server held when it answered. */
  lemma QuietSyncShowsTheServer(s: System, k: nat)
    requires SystemInv(s) && k < |s.devices| && Quiet(s.devices[k].tab)
    ensures var s1 := Next(s, At(k, Sync));
      var s2 := Next(s1, At(k, SnapshotRead(Last(s))));
      && s2.history == s.history && s2.puts == s.puts && |s2.devices| == |s.devices|
      && var t := s2.devices[k].tab;
      Quiet(t) && t.journey == s.history[Last(s)] && t.revision == Last(s)
  {
    hide PutsInv, AcceptedCount, OnLoaded;
    DeviceOf(s, k);
    var s1 := Next(s, At(k, Sync));
    assert s.puts + [] == s.puts;
    assert s1.devices[k].tab.phase == SyncGet && s1.devices[k].since == Last(s);
    NextKeepsInv(s, At(k, Sync));
    hide SystemInv;
    ReadVersionIsShown(s1, k, Last(s));
  }

  // ----- Editing. -----

  /** An edit is stored and sent, on the version the page had; only an expired session stops it. */
  lemma EditIsStoredAndSent(s: System, k: nat, j: Journey, now: Moment)
    requires SystemInv(s) && k < |s.devices|
    requires var t := s.devices[k].tab;
      t.loggedIn && t.loaded && t.startup == Done && t.phase == Idle && !t.conflict && !t.sessionExpired
    ensures var d := s.devices[k]; var n := Next(s, At(k, Edit(j, now)));
      && n.history == s.history
      && n.puts == s.puts + [Put(k, d.tab.revision, j, d.seen, InFlight)]
      && |n.devices| == |s.devices| && n.devices[k].put == |s.puts| && n.devices[k].tab.phase == SyncPut
      && n.devices[k].tab.journey == j && n.devices[k].tab.revision == d.tab.revision
      && n.devices[k].tab.stored == Some(Draft(j, d.tab.revision, now)) && n.devices[k].edit == Some(j)
  {
    hide PutsInv, AcceptedCount, OnLoaded;
    DeviceOf(s, k);
    EditKeepsTab(s.devices[k].tab, j, now);
  }

  /** On the server's current version the write goes through, and the page is quiet with the new version. */
  lemma CurrentEditIsWritten(s: System, k: nat, j: Journey, now: Moment)
    requires SystemInv(s) && k < |s.devices|
    requires var t := s.devices[k].tab;
      && t.loggedIn && t.loaded && t.startup == Done && t.phase == Idle && !t.conflict && !t.sessionExpired
      && t.revision == Last(s)
    ensures var s1 := Next(s, At(k, Edit(j, now)));
      var s2 := Next(s1, Process(|s.puts|));
      var s3 := Next(s2, At(k, PutAnswered));
      && s3.history == s.history + [j] && |s3.devices| == |s.devices|
      && var d := s3.devices[k];
      Quiet(d.tab) && d.tab.journey == j && d.tab.revision == Last(s) + 1 && d.tab.stored.None? && d.edit.None?
  {
    EditIsStoredAndSent(s, k, j, now);
    NextKeepsInv(s, At(k, Edit(j, now)));
    var s1 := Next(s, At(k, Edit(j, now)));
    SentWriteSettles(s1, k, |s.puts|);
  }

  lemma SentWriteSettles(s: System, k: nat, id: nat)
    requires SystemInv(s) && k < |s.devices| && id < |s.puts| && s.puts[id].outcome == InFlight
    requires var d := s.devices[k];
      && d.tab.phase == SyncPut && d.put == id && d.edit == Some(d.tab.journey)
      && d.tab.loaded && d.tab.revision == Last(s)
    ensures var s2 := Next(s, Process(id));
      var s3 := Next(s2, At(k, PutAnswered));
      && s3.history == s.history + [s.devices[k].tab.journey] && |s3.devices| == |s.devices|
      && var d := s3.devices[k];
      && Quiet(d.tab) && d.tab.journey == s.devices[k].tab.journey && d.tab.revision == Last(s) + 1
      && d.tab.stored.None? && d.edit.None?
  {
    hide PutsInv, AcceptedCount, OnLoaded, Load;
    DeviceOf(s, k);
    var s2 := Next(s, Process(id));
    assert s2.devices[k] == s.devices[k].(edit := None);
    assert s2.puts[id] == s.puts[id].(outcome := Accepted);
  }

  // ----- Settling a conflict. -----

  /** Taking the server's side shows the version just read and forgets the draft. */
  lemma ServerSideIsTaken(s: System, k: nat, r: nat)
    requires SystemInv(s) && k < |s.devices| && s.devices[k].tab.phase == ResolveGet(false)
    requires s.devices[k].since <= r < |s.history|
    ensures var t := After(s, k, ServerRead(r));
      && t.journey == s.history[r] && t.revision == r
      && !t.conflict && !t.pending && t.stored.None? && t.draftRaw.None? && t.phase == Idle
    ensures React(s, k, s.devices[k], ServerRead(r)).sent.None?
  {
  }

  /** Taking one's own side sends what is shown against the version just read; once accepted, that is the server's next
      version and the page is settled on it. */
  lemma OwnSideIsSent(s: System, k: nat, r: nat)
    requires SystemInv(s) && k < |s.devices| && s.devices[k].tab.phase == ResolveGet(true)
    requires s.devices[k].since <= r < |s.history|
    ensures var d := s.devices[k]; var reaction := React(s, k, d, ServerRead(r));
      && reaction.sent == Some(Put(k, r, d.tab.journey, s.history[r], InFlight))
      && reaction.device.tab == d.tab.(phase := ResolvePut) && reaction.device.put == |s.puts|
  {
  }

  lemma OwnSideIsSettled(s: System, k: nat)
    requires SystemInv(s) && k < |s.devices| && s.devices[k].tab.phase == ResolvePut
    requires s.puts[s.devices[k].put].outcome == Accepted
    ensures var d := s.devices[k]; var t := After(s, k, PutAnswered);
      && t.revision < |s.history| && t.journey == s.history[t.revision] == d.tab.journey
      && t.revision == s.puts[d.put].revision + 1
      && !t.conflict && !t.pending && t.stored.None? && t.draftRaw.None? && t.phase == Idle
  {
    hide AcceptedCount;
    DeviceOf(s, k);
  }

  // ----- Sessions. -----

  /** The end of a logout: nobody is signed in and nothing of the journey is shown. */
  lemma LogoutShowsNothing(s: System, k: nat)
    requires SystemInv(s) && k < |s.devices| && s.devices[k].tab.phase == LoggingOut
    ensures var t := After(s, k, SignedOut);
      !t.loggedIn && !t.loaded && t.journey == EMPTY_JOURNEY && t.phase == Idle && t.draftRaw.None?
  {
  }

  /** A failed request ends the wait and nothing else; that the session has expired is noticed exactly by a
      synchronisation that is refused for it, and forgotten by a login. */
  lemma FailureOnlyEndsTheWait(s: System, k: nat, unauthorised: bool)
    requires SystemInv(s) && k < |s.devices|
    ensures var t := s.devices[k].tab; var after := After(s, k, Fail(unauthorised));
      && after == t.(phase := Idle, sessionExpired := after.sessionExpired)
      && (after.sessionExpired <==> t.sessionExpired || (unauthorised && t.phase in {SyncPut, SyncGet, SyncLoad}))
  {
  }

  lemma LoginStartsAfresh(s: System, k: nat)
    requires SystemInv(s) && k < |s.devices| && s.devices[k].tab.phase.Authenticating?
    ensures var t := s.devices[k].tab; var after := After(s, k, SignedIn);
      && after.loggedIn && !after.sessionExpired && !after.pending && !after.conflict && !after.loaded
      && after.phase == AuthLoad(t.phase.previous)
      && after.stored == t.stored && after.journey == t.journey
  {
  }

  /** What a load shows: a draft that says something else, as pending work on its own revision; else the server's
      version, and then no draft is left. */
  lemma LoadShows(s: System, k: nat, r: nat, now: Moment)
    requires SystemInv(s) && k < |s.devices| && AwaitsLoad(s.devices[k].tab) && s.devices[k].tab.loggedIn
    requires s.devices[k].since <= r < |s.history|
    requires s.devices[k].tab.phase.AuthLoad? ==> s.devices[k].tab.phase.previous.None? || s.devices[k].tab.stored.Some?
    ensures var t := s.devices[k].tab; var after := After(s, k, SnapshotLoaded(r, now));
      && after.loaded && after.startup == Done
      && if t.stored.Some? && t.stored.value.journey != s.history[r] then
        && after.journey == t.stored.value.journey && after.revision == t.stored.value.revision
        && after.pending && after.stored == t.stored && after.draftRaw == t.stored
        && (after.conflict <==> t.stored.value.revision != r)
      else
        after.journey == s.history[r] && after.revision == r && after.stored.None?
  {
    hide PutsInv, AcceptedCount;
    DeviceOf(s, k);
    if s.devices[k].tab.phase.AuthLoad? {
      LoginRestoresIff(s.devices[k].tab, Snapshot(s.history[r], r), now);
    }
  }

  /** Work that is pending when a login begins is still there after the load that follows, with a draft in local storage
      or without, unless the server already has it. */
  lemma PendingWorkSurvivesLogin(s: System, k: nat, r: nat, now: Moment)
    requires SystemInv(s) && k < |s.devices| && r == Last(s)
    requires var t := s.devices[k].tab;
      t.loggedIn && t.pending && t.sessionExpired && t.startup == Done && t.phase == Idle
    ensures var before := s.devices[k].tab;
      var s1 := Next(s, At(k, SignIn));
      var s2 := Next(s1, At(k, SignedIn));
      var s3 := Next(s2, At(k, SnapshotLoaded(r, now)));
      && |s3.devices| == |s.devices| && s3.history == s.history
      && var t := s3.devices[k].tab;
      && t.loggedIn && t.loaded && t.phase == Idle && t.journey == before.journey
      && (before.journey != s.history[r] ==> t.pending && t.revision == before.revision && t.stored.Some?)
  {
    hide PutsInv, AcceptedCount;
    DeviceOf(s, k);
    var d := s.devices[k];
    var previous := Some(Snapshot(d.tab.journey, d.tab.revision));
    var s1 := Next(s, At(k, SignIn));
    assert s1.devices[k] == d.(tab := d.tab.(phase := Authenticating(previous)));
    var s2 := Next(s1, At(k, SignedIn));
    NextKeepsInv(s, At(k, SignIn));
    NextKeepsInv(s1, At(k, SignedIn));
    assert s2.devices[k].tab.phase == AuthLoad(previous) && s2.devices[k].since == r && s2.history == s.history;
    assert s2.devices[k].tab.stored == d.tab.stored;
    hide Next, React;
    RememberedWorkIsLoaded(s2, k, r, now);
  }

  lemma RememberedWorkIsLoaded(s: System, k: nat, r: nat, now: Moment)
    requires SystemInv(s) && k < |s.devices| && s.devices[k].since <= r < |s.history|
    requires s.devices[k].tab.phase.AuthLoad? && s.devices[k].tab.phase.previous.Some?
    ensures var before := s.devices[k].tab.phase.previous.value;
      var s3 := Next(s, At(k, SnapshotLoaded(r, now)));
      && |s3.devices| == |s.devices| && s3.history == s.history
      && var t := s3.devices[k].tab;
      && t.loggedIn && t.loaded && t.phase == Idle && t.journey == before.journey
      && (before.journey != s.history[r] ==> t.pending && t.revision == before.revision && t.stored.Some?)
  {
    hide PutsInv, AcceptedCount;
    DeviceOf(s, k);
  }
}
