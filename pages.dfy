/**
 * The two dashboards that keep an auto-sync registry. They share the
 * handlers and differ in the interval a tenant without an entry is given
 * (30 minutes on the partners page, 60 on the trade-types page) and in when
 * their effect cleanup runs: only on unmount on the partners page, after
 * every update of the map on the trade-types page.
 */
module Pages {

  import opened Opt
  import AutoSync

  const PartnersDefaultMinutes: int := 30
  const TradeTypesDefaultMinutes: int := 60

  /** The partners page's empty registry. */
  method NewPartnersRegistry() returns (r: AutoSync.Registry)
    ensures fresh(r) && r.Valid() && AutoSync.NoOrphans(r.State())
    ensures r.defaultMinutes == PartnersDefaultMinutes
    ensures r.configs == map[] && r.timers == map[]
  {
    r := new AutoSync.Registry(PartnersDefaultMinutes);
  }

  /** The trade-types page's empty registry. */
  method NewTradeTypesRegistry() returns (r: AutoSync.Registry)
    ensures fresh(r) && r.Valid() && AutoSync.NoOrphans(r.State())
    ensures r.defaultMinutes == TradeTypesDefaultMinutes
    ensures r.configs == map[] && r.timers == map[]
  {
    r := new AutoSync.Registry(TradeTypesDefaultMinutes);
  }

  /**
   * Partners page: enable a tenant at minute 0 (default 30 minutes), then
   * change its interval to 60 at minute 10. One timer is left, with a period
   * of one hour, and the next sync is due at minute 70.
   */
  method EnableThenChangeInterval(id: int) returns (live: set<AutoSync.Handle>, next: Option<int>, periodMs: int)
    ensures |live| == 1
    ensures next == Some(70)
    ensures periodMs == 60 * 60 * 1000
  {
    var registry := NewPartnersRegistry();
    registry.Toggle(id, true, 0);
    assert registry.configs[id].nextSyncTime == Some(30);
    registry.ChangeInterval(id, 60, 10);
    live := AutoSync.LiveTimersOf(registry.State(), id);
    AutoSync.LiveTimersAreStoredHandle(registry.State(), id);
    assert AutoSync.EntryConsistent(registry.State(), id);
    next := registry.configs[id].nextSyncTime;
    periodMs := registry.timers[registry.configs[id].handle.value].periodMs;
  }

  /**
   * Trade-types page, as written: flipping a new tenant's switch arms a
   * one-hour timer; the re-render's cleanup stops it while the entry still
   * shows enabled. Flipping the switch again disables the entry, and after
   * the next cleanup no timer is live and the entry is disabled.
   */
  method FlipTwice(id: int)
    returns (armedPeriodMs: int, liveMid: set<AutoSync.Handle>, enabledMid: bool,
             liveAfter: set<AutoSync.Handle>, enabledAfter: bool)
    ensures armedPeriodMs == 60 * 60 * 1000
    ensures liveMid == {} && enabledMid
    ensures liveAfter == {}
    ensures !enabledAfter
  {
    var registry := NewTradeTypesRegistry();
    registry.FlipSwitch(id, 0);
    assert AutoSync.EntryConsistent(registry.State(), id);
    armedPeriodMs := registry.timers[registry.configs[id].handle.value].periodMs;
    AutoSync.CleanupStopsEveryTimer(registry.State());
    registry.CleanUp();
    liveMid := AutoSync.LiveTimersOf(registry.State(), id);
    enabledMid := registry.configs[id].enabled;
    registry.FlipSwitch(id, 5);
    registry.CleanUp();
    liveAfter := AutoSync.LiveTimersOf(registry.State(), id);
    enabledAfter := registry.configs[id].enabled;
  }

  /**
   * Trade-types page, as written: switching a new tenant on and letting the
   * page re-render runs the effect cleanup, which stops the timer just armed.
   * The entry still shows enabled, but no timer syncs the tenant.
   */
  method FlipThenRerender(id: int) returns (enabledAfter: bool, liveAfter: set<AutoSync.Handle>)
    ensures enabledAfter
    ensures liveAfter == {}
  {
    var registry := NewTradeTypesRegistry();
    registry.FlipSwitch(id, 0);
    AutoSync.CleanupStopsEveryTimer(registry.State());
    registry.CleanUp();
    enabledAfter := registry.configs[id].enabled;
    liveAfter := AutoSync.LiveTimersOf(registry.State(), id);
  }
}
