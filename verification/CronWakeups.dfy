/** The wake-up protocol between the cron tools and the scheduler loop (TinyCTX/modules/cron/__main__.py):
    tool threads write the store and call `notify_change`, which sets the loop's event. */
module CronWakeups {

  /** Where the loop is: about to reload, working on what it loaded, or waiting with a time limit. */
  datatype Place = Reloading | Working | Waiting

  /** `version` counts writes to the store and `loaded` is the version the loop last read; `unnotified`
      writers have not yet called `notify_change`, and `scheduled` calls of it wait in the event loop. */
  datatype State = State(place: Place, version: nat, loaded: nat, unnotified: nat, scheduled: nat, flag: bool)

  datatype Event = Write | Notify | SetFlag | Reload | StartWaiting | WokenUp | TimedOut

  predicate Enabled(s: State, e: Event) {
    match e
    case Write => true
    case Notify => s.unnotified > 0
    case SetFlag => s.scheduled > 0
    case Reload => s.place.Reloading?
    case StartWaiting => s.place.Working?
    case WokenUp => s.place.Waiting? && s.flag
    case TimedOut => s.place.Waiting?
  }

  function Next(s: State, e: Event): State
    requires Enabled(s, e)
  {
    match e
    case Write => s.(version := s.version + 1, unnotified := s.unnotified + 1)
    case Notify => s.(unnotified := s.unnotified - 1, scheduled := s.scheduled + 1)
    case SetFlag => s.(scheduled := s.scheduled - 1, flag := true)
    case Reload => s.(place := Working, loaded := s.version)
    case StartWaiting => s.(place := Waiting)
    case WokenUp => s.(place := Reloading, flag := false)
    case TimedOut => s.(place := Reloading, flag := false)
  }

  predicate Initial(s: State) {
    s.place.Reloading? && s.version == s.loaded && s.unnotified == 0 && s.scheduled == 0 && !s.flag
  }

  predicate Behaviour(states: seq<State>, events: seq<Event>) {
    |states| == |events| + 1 && Initial(states[0])
    && forall i | 0 <= i < |events| :: Enabled(states[i], events[i]) && states[i + 1] == Next(states[i], events[i])
  }

  /** A write the loop has not read is about to be notified, about to set the flag, or the flag is up;
      or the loop is about to reload anyway. */
  predicate NothingMissed(s: State) {
    s.loaded <= s.version
    && (s.loaded < s.version ==> s.place.Reloading? || s.unnotified > 0 || s.scheduled > 0 || s.flag)
  }

  lemma {:induction false} NoWakeupIsLost(states: seq<State>, events: seq<Event>, i: nat)
    requires Behaviour(states, events) && i < |states|
    ensures NothingMissed(states[i])
  {
    if i > 0 {
      NoWakeupIsLost(states, events, i - 1);
    }
  }

  /** Once every notification has arrived, the loop sleeps only on a store it has read: with the flag
      down it has loaded the latest version, and with the flag up it can wake at once. */
  lemma SleepsOnlyOnAReadStore(states: seq<State>, events: seq<Event>, i: nat)
    requires Behaviour(states, events) && i < |states|
    requires states[i].place.Waiting? && states[i].unnotified == 0 && states[i].scheduled == 0
    ensures states[i].loaded == states[i].version || Enabled(states[i], WokenUp)
  {
    NoWakeupIsLost(states, events, i);
  }

  /** The flag, once up, stays up until the wait it ends, and the next thing the loop does is reload. */
  lemma {:induction false} FlagLeadsToReload(states: seq<State>, events: seq<Event>, i: nat, j: nat)
    requires Behaviour(states, events) && i <= j < |states| && states[i].flag
    requires forall k | i <= k < j :: events[k] != Reload
    ensures states[j].flag || states[j].place.Reloading?
  {
    if i < j {
      FlagLeadsToReload(states, events, i, j - 1);
    }
  }

  /** Between a notification and the next time the loop sleeps its full delay there is a reload, and it
      reads everything that was written before the notification arrived. */
  lemma ReloadBeforeTheNextFullSleep(states: seq<State>, events: seq<Event>, i: nat, j: nat)
    requires Behaviour(states, events) && i < j < |events| && events[i].SetFlag?
    requires events[j].TimedOut? && !states[j].flag
    ensures exists k :: i < k < j && events[k].Reload? && states[k + 1].loaded >= states[i].version
  {
    if forall k | i + 1 <= k < j :: events[k] != Reload {
      FlagLeadsToReload(states, events, i + 1, j);
    }
    var k :| i < k < j && events[k].Reload?;
    VersionGrows(states, events, i, k);
  }

  lemma {:induction false} VersionGrows(states: seq<State>, events: seq<Event>, i: nat, j: nat)
    requires Behaviour(states, events) && i <= j < |states|
    ensures states[i].version <= states[j].version
  {
    if i < j {
      VersionGrows(states, events, i, j - 1);
    }
  }

  // ----- What the steps add up to -----

  function Tally(events: seq<Event>, e: Event): nat {
    if events == [] then 0
    else Tally(events[..|events| - 1], e) + if events[|events| - 1] == e then 1 else 0
  }

  lemma TallyNext(events: seq<Event>, i: nat, e: Event)
    requires i < |events|
    ensures Tally(events[..i + 1], e) == Tally(events[..i], e) + if events[i] == e then 1 else 0
  {
    assert events[..i + 1][..i] == events[..i];
  }

  /** Every write is notified once and every notification sets the flag once; and the loop wakes up early no more often
      than it was notified. */
  lemma {:induction false} WakeupsArePaidFor(states: seq<State>, events: seq<Event>, i: nat)
    requires Behaviour(states, events) && i <= |events|
    ensures states[i].version == states[0].version + Tally(events[..i], Write)
    ensures states[i].unnotified == Tally(events[..i], Write) - Tally(events[..i], Notify)
    ensures states[i].scheduled == Tally(events[..i], Notify) - Tally(events[..i], SetFlag)
    ensures Tally(events[..i], WokenUp) + (if states[i].flag then 1 else 0) <= Tally(events[..i], SetFlag)
  {
    hide Tally;
    if i == 0 {
      NothingTallied(events);
    } else {
      WakeupsArePaidFor(states, events, i - 1);
      TallyNext(events, i - 1, Write);
      TallyNext(events, i - 1, Notify);
      TallyNext(events, i - 1, SetFlag);
      TallyNext(events, i - 1, WokenUp);
    }
  }

  lemma NothingTallied(events: seq<Event>)
    ensures forall e :: Tally(events[..0], e) == 0
  {}

  predicate IsOfLoop(e: Event) {
    e.Reload? || e.StartWaiting? || e.WokenUp? || e.TimedOut?
  }

  lemma {:induction false} PlaceStays(states: seq<State>, events: seq<Event>, i: nat, j: nat)
    requires Behaviour(states, events) && i <= j < |states| && forall k | i <= k < j :: !IsOfLoop(events[k])
    ensures states[j].place == states[i].place && states[j].loaded == states[i].loaded
    ensures states[i].flag ==> states[j].flag
  {
    if i < j {
      PlaceStays(states, events, i, j - 1);
    }
  }

  /** The loop reloads, waits and wakes up in turn, whatever happens in between; it goes on working with what it read
      when it reloaded, and it starts over with the flag down. */
  lemma LoopGoesRound(states: seq<State>, events: seq<Event>, i: nat, j: nat)
    requires Behaviour(states, events) && i < j < |events| && IsOfLoop(events[i]) && IsOfLoop(events[j])
    requires forall k | i < k < j :: !IsOfLoop(events[k])
    ensures events[i].Reload? ==> events[j].StartWaiting? && states[j].loaded == states[i].version
    ensures events[i].StartWaiting? ==> events[j].WokenUp? || events[j].TimedOut?
    ensures events[i].WokenUp? || events[i].TimedOut? ==> events[j].Reload? && !states[i + 1].flag
  {
    PlaceStays(states, events, i + 1, j);
  }

  /** Nobody is held up: a tool can always write, notify what it wrote and have its notification arrive, and the loop
      can always go on. */
  lemma NobodyIsHeldUp(s: State)
    ensures Enabled(s, Write) && (s.unnotified > 0 ==> Enabled(s, Notify)) && (s.scheduled > 0 ==> Enabled(s, SetFlag))
    ensures Enabled(s, Reload) || Enabled(s, StartWaiting) || Enabled(s, TimedOut)
    ensures Enabled(s, WokenUp) <==> s.flag && Enabled(s, TimedOut)
  {}
}
