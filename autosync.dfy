/**
 * The per-tenant auto-sync registry both dashboards keep: for each system id
 * an entry {enabled, intervalMinutes, timer handle, next sync time}, and the
 * interval timers it arms with setInterval and cancels with clearInterval.
 *
 * Timers are abstract: a handle is a number drawn from a counter, and the
 * live timers are a map from handle to the tenant whose sync the timer's
 * callback starts and the period it was armed with. Time is whole minutes.
 */
module AutoSync {

  import opened Opt
  import Dashboard

  type Handle = nat

  /** One tenant's entry (the page's AutoSyncConfig). */
  datatype Config = Config(
    idSistema: int,
    enabled: bool,
    intervalMinutes: int,
    handle: Option<Handle>,
    nextSyncTime: Option<int>)

  /** A live interval timer: whose sync its callback starts, and its period in milliseconds. */
  datatype Timer = Timer(tenant: int, periodMs: int)

  /** The entries, the live timers, and the next handle setInterval will hand out. */
  datatype RegistryState = RegistryState(
    configs: map<int, Config>,
    timers: map<Handle, Timer>,
    nextHandle: Handle)

  /** intervalMinutes * 60 * 1000, the delay passed to setInterval. */
  function PeriodMs(minutes: int): int
  {
    minutes * 60 * 1000
  }

  /** The stored entry, or the page's default `{ idSistema, enabled: false, intervalMinutes }`. */
  function Lookup(configs: map<int, Config>, id: int, defaultMinutes: int): Config
  {
    if id in configs then configs[id] else Config(id, false, defaultMinutes, None, None)
  }

  /** setInterval: a timer with a handle never handed out before becomes live. */
  function Armed(s: RegistryState, tenant: int, periodMs: int): RegistryState
  {
    RegistryState(s.configs, s.timers[s.nextHandle := Timer(tenant, periodMs)], s.nextHandle + 1)
  }

  /** clearInterval: the timer with that handle, if live, stops. */
  function Cleared(s: RegistryState, h: Handle): RegistryState
  {
    s.(timers := s.timers - {h})
  }

  // ---------------------------------------------------------------------------
  // Invariants

  /** An entry is Disabled (no timer, no next time) or Armed (its own live timer, with its interval). */
  ghost predicate EntryConsistent(s: RegistryState, t: int)
    requires t in s.configs
  {
    var c := s.configs[t];
    && c.idSistema == t
    && (c.enabled <==> c.handle.Some?)
    && (c.enabled <==> c.nextSyncTime.Some?)
    && (c.handle.Some? ==>
          c.handle.value in s.timers && s.timers[c.handle.value] == Timer(t, PeriodMs(c.intervalMinutes)))
  }

  /** Every entry is consistent and every live handle came from the counter. */
  ghost predicate Consistent(s: RegistryState)
  {
    && (forall h :: h in s.timers ==> h < s.nextHandle)
    && (forall t :: t in s.configs ==> EntryConsistent(s, t))
  }

  /** Every live timer is the one its tenant's entry holds: none was lost track of. */
  ghost predicate NoOrphans(s: RegistryState)
  {
    forall h :: h in s.timers ==> s.timers[h].tenant in s.configs && s.configs[s.timers[h].tenant].handle == Some(h)
  }

  /** The live timers whose callback syncs tenant `t`. */
  function LiveTimersOf(s: RegistryState, t: int): set<Handle>
  {
    set h | h in s.timers && s.timers[h].tenant == t
  }

  /**
   * In a consistent registry that has lost no timer, a tenant's live timers
   * are exactly the one its entry holds: one when enabled, none otherwise.
   */
  lemma LiveTimersAreStoredHandle(s: RegistryState, t: int)
    requires Consistent(s) && NoOrphans(s)
    ensures LiveTimersOf(s, t) == if t in s.configs && s.configs[t].handle.Some? then {s.configs[t].handle.value} else {}
    ensures |LiveTimersOf(s, t)| <= 1
    ensures |LiveTimersOf(s, t)| == 1 <==> Lookup(s.configs, t, 0).enabled
  {
  }

  // ---------------------------------------------------------------------------
  // handleAutoSyncToggle

  /**
   * Enabling arms a new timer with the entry's interval and records it with
   * next time now + interval, WITHOUT clearing any handle the entry already
   * holds. Disabling clears the held handle, if any, and records the entry
   * with no handle and no next time. The interval is kept either way.
   */
  function Toggled(s: RegistryState, defaultMinutes: int, id: int, enabled: bool, now: int): (r: RegistryState)
    ensures id in r.configs
    ensures forall t :: t != id ==> (t in r.configs <==> t in s.configs)
    ensures forall t :: t != id && t in s.configs ==> r.configs[t] == s.configs[t]
    ensures r.configs[id].idSistema == Lookup(s.configs, id, defaultMinutes).idSistema
    ensures r.configs[id].intervalMinutes == Lookup(s.configs, id, defaultMinutes).intervalMinutes
    ensures r.configs[id].enabled == enabled
    ensures enabled ==>
              && r.configs[id].handle == Some(s.nextHandle)
              && r.configs[id].nextSyncTime == Some(now + Lookup(s.configs, id, defaultMinutes).intervalMinutes)
              && r.timers == s.timers[s.nextHandle := Timer(id, PeriodMs(Lookup(s.configs, id, defaultMinutes).intervalMinutes))]
              && r.nextHandle == s.nextHandle + 1
    ensures !enabled ==>
              && r.configs[id].handle == None
              && r.configs[id].nextSyncTime == None
              && r.timers == s.timers - (match Lookup(s.configs, id, defaultMinutes).handle
                                         case Some(h) => {h}
                                         case None => {})
              && r.nextHandle == s.nextHandle
  {
    var config := Lookup(s.configs, id, defaultMinutes);
    if enabled then
      var armed := Armed(s, id, PeriodMs(config.intervalMinutes));
      var newConfig := config.(enabled := true, handle := Some(s.nextHandle),
                               nextSyncTime := Some(now + config.intervalMinutes));
      armed.(configs := s.configs[id := newConfig])
    else
      var cleared := if config.handle.Some? then Cleared(s, config.handle.value) else s;
      var newConfig := config.(enabled := false, handle := None, nextSyncTime := None);
      cleared.(configs := s.configs[id := newConfig])
  }

  lemma ToggledConsistent(s: RegistryState, defaultMinutes: int, id: int, enabled: bool, now: int)
    requires Consistent(s)
    ensures Consistent(Toggled(s, defaultMinutes, id, enabled, now))
  {
  }

  /**
   * The "at most one live timer per tenant" invariant survives a toggle,
   * provided that an enable is only ever applied to a disabled entry (as the
   * page's switch does: it offers "enable" only while the entry is off).
   */
  lemma ToggledKeepsNoOrphans(s: RegistryState, defaultMinutes: int, id: int, enabled: bool, now: int)
    requires Consistent(s) && NoOrphans(s)
    requires enabled ==> !Lookup(s.configs, id, defaultMinutes).enabled
    ensures NoOrphans(Toggled(s, defaultMinutes, id, enabled, now))
  {
  }

  /**
   * Enabling an entry that is already enabled leaks its timer: the old timer
   * stays live, still syncing the tenant, but no entry holds it any more, so
   * the tenant now has two live timers and no later call can clear the old one.
   */
  lemma EnableWhileEnabledLeaksTimer(s: RegistryState, defaultMinutes: int, id: int, now: int)
    requires Consistent(s)
    requires Lookup(s.configs, id, defaultMinutes).enabled
    ensures !NoOrphans(Toggled(s, defaultMinutes, id, true, now))
    ensures |LiveTimersOf(Toggled(s, defaultMinutes, id, true, now), id)| >= 2
  {
    var r := Toggled(s, defaultMinutes, id, true, now);
    assert EntryConsistent(s, id);
    var old_h := s.configs[id].handle.value;
    assert old_h in r.timers && r.timers[old_h].tenant == id;
    assert r.configs[id].handle != Some(old_h);
    assert {old_h, s.nextHandle} <= LiveTimersOf(r, id);
    assert |{old_h, s.nextHandle}| == 2;
    SubsetCardinality({old_h, s.nextHandle}, LiveTimersOf(r, id));
  }

  lemma SubsetCardinality<T>(a: set<T>, b: set<T>)
    requires a <= b
    ensures |a| <= |b|
  {
    assert b == a + (b - a);
  }

  // ---------------------------------------------------------------------------
  // handleIntervalChange

  /**
   * On an entry that is enabled and holds a handle: clear that timer, arm one
   * with the new interval, and set next time to now + new interval. On any
   * other entry: only the interval changes.
   */
  function IntervalChanged(s: RegistryState, defaultMinutes: int, id: int, minutes: int, now: int): (r: RegistryState)
    ensures id in r.configs
    ensures forall t :: t != id ==> (t in r.configs <==> t in s.configs)
    ensures forall t :: t != id && t in s.configs ==> r.configs[t] == s.configs[t]
    ensures r.configs[id].intervalMinutes == minutes
    ensures r.configs[id].enabled == Lookup(s.configs, id, defaultMinutes).enabled
    ensures r.configs[id].idSistema == Lookup(s.configs, id, defaultMinutes).idSistema
    ensures var c := Lookup(s.configs, id, defaultMinutes);
            c.enabled && c.handle.Some? ==>
              && r.configs[id].handle == Some(s.nextHandle)
              && r.configs[id].nextSyncTime == Some(now + minutes)
              && r.timers == (s.timers - {c.handle.value})[s.nextHandle := Timer(id, PeriodMs(minutes))]
              && r.nextHandle == s.nextHandle + 1
    ensures var c := Lookup(s.configs, id, defaultMinutes);
            !(c.enabled && c.handle.Some?) ==>
              && r.configs[id] == c.(intervalMinutes := minutes)
              && r.timers == s.timers
              && r.nextHandle == s.nextHandle
  {
    var config := Lookup(s.configs, id, defaultMinutes);
    if config.enabled && config.handle.Some? then
      var cleared := Cleared(s, config.handle.value);
      var armed := Armed(cleared, id, PeriodMs(minutes));
      var newConfig := config.(intervalMinutes := minutes, handle := Some(cleared.nextHandle),
                               nextSyncTime := Some(now + minutes));
      armed.(configs := s.configs[id := newConfig])
    else
      s.(configs := s.configs[id := config.(intervalMinutes := minutes)])
  }

  lemma IntervalChangedConsistent(s: RegistryState, defaultMinutes: int, id: int, minutes: int, now: int)
    requires Consistent(s)
    ensures Consistent(IntervalChanged(s, defaultMinutes, id, minutes, now))
  {
  }

  /** Changing an interval never leaves a timer behind: at most one live timer per tenant is kept. */
  lemma IntervalChangedKeepsNoOrphans(s: RegistryState, defaultMinutes: int, id: int, minutes: int, now: int)
    requires Consistent(s) && NoOrphans(s)
    ensures NoOrphans(IntervalChanged(s, defaultMinutes, id, minutes, now))
  {
  }

  /**
   * A tenant that has no entry yet is handled as `{ enabled: false,
   * intervalMinutes: defaultMinutes }` by both handlers: enabling uses the
   * default interval, disabling and changing the interval arm nothing.
   */
  lemma UnconfiguredTenantUsesDefault(s: RegistryState, defaultMinutes: int, id: int, minutes: int, now: int)
    requires id !in s.configs
    ensures Toggled(s, defaultMinutes, id, true, now).configs[id]
              == Config(id, true, defaultMinutes, Some(s.nextHandle), Some(now + defaultMinutes))
    ensures Toggled(s, defaultMinutes, id, true, now).timers[s.nextHandle] == Timer(id, PeriodMs(defaultMinutes))
    ensures Toggled(s, defaultMinutes, id, false, now)
              == s.(configs := s.configs[id := Config(id, false, defaultMinutes, None, None)])
    ensures IntervalChanged(s, defaultMinutes, id, minutes, now)
              == s.(configs := s.configs[id := Config(id, false, minutes, None, None)])
  {
  }

  // ---------------------------------------------------------------------------
  // The effect cleanup

  /** The handles the entries hold. */
  function HeldHandles(configs: map<int, Config>): (hs: set<Handle>)
    ensures forall t :: t in configs && configs[t].handle.Some? ==> configs[t].handle.value in hs
    ensures forall h :: h in hs ==> exists t :: t in configs && configs[t].handle == Some(h)
  {
    set t | t in configs && configs[t].handle.Some? :: configs[t].handle.value
  }

  /**
   * The effect cleanup: clearInterval on every handle held in the map it
   * captured. The handlers write into that very map before copying it, so
   * after an update the captured map is the new one.
   */
  function CleanedUp(s: RegistryState): (r: RegistryState)
    ensures r.configs == s.configs && r.nextHandle == s.nextHandle
    ensures forall h :: h in r.timers <==> h in s.timers && h !in HeldHandles(s.configs)
    ensures forall h :: h in r.timers ==> r.timers[h] == s.timers[h]
  {
    s.(timers := s.timers - HeldHandles(s.configs))
  }

  /** In a registry that has lost no timer, the cleanup stops every live timer. */
  lemma CleanupStopsEveryTimer(s: RegistryState)
    requires NoOrphans(s)
    ensures CleanedUp(s).timers == map[]
  {
    forall h | h in s.timers
      ensures h in HeldHandles(s.configs)
    {
      var t := s.timers[h].tenant;
      assert s.configs[t].handle == Some(h);
    }
  }

  /**
   * The trade-types page runs that cleanup after every update, since its
   * effect depends on the map. So switching a tenant on is undone at the
   * next render: the entry shows enabled, with a handle and a next time,
   * but no timer syncs the tenant, and the registry is no longer consistent.
   */
  lemma EnableUndoneByCleanup(s: RegistryState, defaultMinutes: int, id: int, now: int)
    requires Consistent(s) && NoOrphans(s)
    requires !Lookup(s.configs, id, defaultMinutes).enabled
    ensures var r := CleanedUp(Toggled(s, defaultMinutes, id, true, now));
            && r.configs[id].enabled
            && LiveTimersOf(r, id) == {}
            && !Consistent(r)
  {
    var toggled := Toggled(s, defaultMinutes, id, true, now);
    ToggledKeepsNoOrphans(s, defaultMinutes, id, true, now);
    CleanupStopsEveryTimer(toggled);
    var r := CleanedUp(toggled);
    assert !EntryConsistent(r, id);
  }

  // ---------------------------------------------------------------------------
  // The timer callback

  /** What a timer's callback starts: a sync of the tenant, under the contract's name. */
  datatype SyncRequest = SyncRequest(idSistema: int, empresa: string)

  /**
   * The callback looks the tenant up in the contract list it captured and
   * starts a sync only when it finds it; otherwise it does nothing.
   */
  function OnTimerFire(contracts: seq<Dashboard.Contract>, tenant: int): (r: Option<SyncRequest>)
    ensures r.Some? <==> exists i :: 0 <= i < |contracts| && contracts[i].idEmpresa == tenant
    ensures r.Some? ==> r.value.idSistema == tenant
    ensures r.Some? ==> exists i :: 0 <= i < |contracts| && contracts[i].idEmpresa == tenant
                                   && contracts[i].empresa == r.value.empresa
                                   && forall j :: 0 <= j < i ==> contracts[j].idEmpresa != tenant
  {
    match Dashboard.FirstContractIndex(contracts, tenant)
    case Some(i) => Some(SyncRequest(tenant, contracts[i].empresa))
    case None => None
  }

  // ---------------------------------------------------------------------------
  // The registry as the page holds it

  class Registry {
    /** The interval a tenant without an entry is given. */
    const defaultMinutes: int
    var configs: map<int, Config>
    var timers: map<Handle, Timer>
    var nextHandle: Handle

    function State(): RegistryState
      reads this
    {
      RegistryState(configs, timers, nextHandle)
    }

    ghost predicate Valid()
      reads this
    {
      Consistent(State())
    }

    /** No entries and no timers; the model's handle counter starts at 1. */
    constructor (defaultMinutes: int)
      ensures Valid() && NoOrphans(State())
      ensures this.defaultMinutes == defaultMinutes
      ensures configs == map[] && timers == map[] && nextHandle == 1
    {
      this.defaultMinutes := defaultMinutes;
      configs := map[];
      timers := map[];
      nextHandle := 1;
    }

    method SetInterval(tenant: int, periodMs: int) returns (h: Handle)
      modifies this
      ensures State() == Armed(old(State()), tenant, periodMs)
      ensures h == old(nextHandle)
    {
      h := nextHandle;
      timers := timers[h := Timer(tenant, periodMs)];
      nextHandle := nextHandle + 1;
    }

    method ClearInterval(h: Handle)
      modifies this
      ensures State() == Cleared(old(State()), h)
    {
      timers := timers - {h};
    }

    /** The trade-types page's effect cleanup, run after each update. */
    method CleanUp()
      modifies this
      ensures State() == CleanedUp(old(State()))
    {
      timers := timers - HeldHandles(configs);
    }

    method Toggle(id: int, enabled: bool, now: int)
      modifies this
      ensures old(Valid()) ==> Valid()
      ensures State() == Toggled(old(State()), defaultMinutes, id, enabled, now)
      ensures old(Valid()) && old(NoOrphans(State())) && (enabled ==> !old(Lookup(configs, id, defaultMinutes)).enabled)
              ==> NoOrphans(State())
    {
      ghost var before := State();
      var config := Lookup(configs, id, defaultMinutes);
      if enabled {
        var intervalId := SetInterval(id, PeriodMs(config.intervalMinutes));
        configs := configs[id := config.(enabled := true, handle := Some(intervalId),
                                         nextSyncTime := Some(now + config.intervalMinutes))];
      } else {
        if config.handle.Some? {
          ClearInterval(config.handle.value);
        }
        configs := configs[id := config.(enabled := false, handle := None, nextSyncTime := None)];
      }
      if Consistent(before) {
        ToggledConsistent(before, defaultMinutes, id, enabled, now);
      }
      if Consistent(before) && NoOrphans(before) && (enabled ==> !config.enabled) {
        ToggledKeepsNoOrphans(before, defaultMinutes, id, enabled, now);
      }
    }

    /**
     * The configuration dialog's switch: it shows the entry's `enabled` (false
     * when there is no entry) and, when flipped, toggles to the other value.
     * Used this way a toggle never enables an enabled entry, so no timer leaks.
     */
    method FlipSwitch(id: int, now: int)
      modifies this
      ensures old(Valid()) ==> Valid()
      ensures State() == Toggled(old(State()), defaultMinutes, id, !old(Lookup(configs, id, defaultMinutes)).enabled, now)
      ensures old(Valid()) && old(NoOrphans(State())) ==> NoOrphans(State())
    {
      var checked := Lookup(configs, id, defaultMinutes).enabled;
      Toggle(id, !checked, now);
    }

    method ChangeInterval(id: int, minutes: int, now: int)
      modifies this
      ensures old(Valid()) ==> Valid()
      ensures State() == IntervalChanged(old(State()), defaultMinutes, id, minutes, now)
      ensures old(Valid()) && old(NoOrphans(State())) ==> NoOrphans(State())
    {
      ghost var before := State();
      var config := Lookup(configs, id, defaultMinutes);
      if config.enabled && config.handle.Some? {
        ClearInterval(config.handle.value);
        var intervalId := SetInterval(id, PeriodMs(minutes));
        configs := configs[id := config.(intervalMinutes := minutes, handle := Some(intervalId),
                                         nextSyncTime := Some(now + minutes))];
      } else {
        configs := configs[id := config.(intervalMinutes := minutes)];
      }
      if Consistent(before) {
        IntervalChangedConsistent(before, defaultMinutes, id, minutes, now);
      }
      if Consistent(before) && NoOrphans(before) {
        IntervalChangedKeepsNoOrphans(before, defaultMinutes, id, minutes, now);
      }
    }
  }
}
