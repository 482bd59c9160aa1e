/** Runs of the loader from a fresh table: the event sequences a page goes
    through, and what every promise ends up with. */
module SdkScenarios {
  import opened Common
  import opened SdkLoader

  /** Before the SDK defines its global, `window` holds at most the ready
      wrapper, and `getGlobal` finds nothing. */
  lemma NothingLoadedYet(url: string, globalVar: string, readyVar: Option<string>)
    requires readyVar != Some(globalVar)
    ensures GetGlobal(InstallReady(map[], url, globalVar, readyVar), globalVar) == Undefined
  {
  }

  /** The state after `n` requests for one URL on a fresh loader whose
      `window` starts empty: one entry holding promises `0 .. n-1` and one
      `loadScriptFn` call. */
  method QueueRequests(url: string, globalVar: string, readyVar: Option<string>, n: nat)
    returns (loader: Loader)
    requires 1 <= n && readyVar != Some(globalVar)
    ensures fresh(loader) && loader.Valid()
    ensures loader.nextPromise == n && loader.settled == map[] && loader.calls == []
    ensures loader.scripts == [Script(url, globalVar, readyVar)]
    ensures loader.window == InstallReady(map[], url, globalVar, readyVar)
    ensures loader.pending.Keys == {url}
    ensures |loader.pending[url]| == n && forall k :: 0 <= k < n ==> loader.pending[url][k] == k
  {
    loader := new Loader(map[]);
    var first := loader.LoadSDK(url, globalVar, readyVar, _ => true);
    var i := 1;
    while i < n
      invariant 1 <= i <= n
      invariant loader.Valid()
      invariant loader.nextPromise == i && loader.settled == map[] && loader.calls == []
      invariant loader.scripts == [Script(url, globalVar, readyVar)]
      invariant loader.window == InstallReady(map[], url, globalVar, readyVar)
      invariant loader.pending.Keys == {url}
      invariant |loader.pending[url]| == i
      invariant forall k :: 0 <= k < i ==> loader.pending[url][k] == k
    {
      JoinPending(loader, url, globalVar, readyVar);
      i := i + 1;
    }
  }

  /** A request for a URL that is already pending, before the SDK has
      defined its global, joins the entry and requests no script. */
  method JoinPending(loader: Loader, url: string, globalVar: string, readyVar: Option<string>)
    requires loader.Valid() && readyVar != Some(globalVar)
    requires loader.window == InstallReady(map[], url, globalVar, readyVar)
    requires url in loader.pending
    modifies loader
    ensures loader.Valid()
    ensures loader.nextPromise == old(loader.nextPromise) + 1
    ensures loader.pending == old(loader.pending)[url := old(loader.pending[url]) + [old(loader.nextPromise)]]
    ensures loader.settled == old(loader.settled) && loader.calls == old(loader.calls)
    ensures loader.scripts == old(loader.scripts) && loader.window == old(loader.window)
  {
    NothingLoadedYet(url, globalVar, readyVar);
    var p := loader.LoadSDK(url, globalVar, readyVar, _ => true);
  }

  /** The SDK defines its global and success is signalled: by the load event
      without a ready variable, by the SDK calling the ready variable with
      one. Every waiting request resolves with the global. */
  method SignalSuccess(loader: Loader, url: string, globalVar: string, readyVar: Option<string>, sdk: JsValue)
    requires loader.Valid() && readyVar != Some(globalVar)
    requires loader.settled == map[] && loader.scripts == [Script(url, globalVar, readyVar)]
    requires loader.window == InstallReady(map[], url, globalVar, readyVar)
    requires url in loader.pending
    modifies loader
    ensures loader.settled == SettleAll(map[], old(loader.pending[url]), Resolved(sdk))
    ensures loader.scripts == old(loader.scripts)
  {
    loader.SetGlobal(globalVar, sdk);
    assert GetGlobal(loader.window, globalVar) == sdk;
    var threw;
    match readyVar
    case None =>
      threw := loader.ScriptLoaded(0);
    case Some(name) =>
      assert Lookup(loader.window, name) == Func(ReadyWrapper(url, globalVar, Undefined));
      threw := loader.CallGlobal(name);
  }

  /** `n` requests for one URL before its script finishes loading lead to
      exactly one `loadScriptFn` call, and once the SDK defines its global
      and success is signalled, every one of the `n` promises resolves with
      that global. */
  method ConcurrentLoads(url: string, globalVar: string, readyVar: Option<string>, n: nat, sdk: JsValue)
    returns (scriptCount: nat, outcomes: map<nat, Settlement>)
    requires 1 <= n
    requires readyVar != Some(globalVar)
    ensures scriptCount == 1
    ensures forall k :: 0 <= k < n ==> k in outcomes && outcomes[k] == Resolved(sdk)
  {
    var loader := QueueRequests(url, globalVar, readyVar, n);
    var waiters := loader.pending[url];
    SignalSuccess(loader, url, globalVar, readyVar, sdk);
    SettleAllSpec(map[], waiters, Resolved(sdk));
    forall k | 0 <= k < n ensures k in waiters {
      assert waiters[k] == k;
    }
    scriptCount := |loader.scripts|;
    outcomes := loader.settled;
  }

  /** A failed load rejects every waiting request with the error and clears
      the entry, so the next request for the URL calls `loadScriptFn` again. */
  method FailedLoadIsRetried(url: string, globalVar: string, e: JsValue)
    returns (first: Settlement, second: Settlement, retried: bool, retryPending: bool)
    ensures first == Rejected(e) && second == Rejected(e)
    ensures retried && retryPending
  {
    var loader := new Loader(map[]);
    var p0 := loader.LoadSDK(url, globalVar, None, _ => true);
    var p1 := loader.LoadSDK(url, globalVar, None, _ => true);
    assert loader.pending[url] == [p0, p1];
    var threw := loader.ScriptFailed(0, e);
    SettleAllSpec(map[], [p0, p1], Rejected(e));
    first := loader.settled[p0];
    second := loader.settled[p1];
    var p2 := loader.LoadSDK(url, globalVar, None, _ => true);
    retried := |loader.scripts| == 2 && loader.scripts[1].url == url;
    retryPending := p2 !in loader.settled && loader.pending[url] == [p2];
  }

  /** Success leaves the entry in the table: a later request whose `isLoaded`
      rejects the present global joins the old entry, no script is requested
      for it, and nothing is left to resolve it. */
  method StaleEntryAfterSuccess(url: string, globalVar: string, sdk: JsValue)
    returns (first: Settlement, laterSettled: bool, scriptCount: nat, joinedOld: bool)
    requires Truthy(sdk)
    ensures first == Resolved(sdk)
    ensures !laterSettled && scriptCount == 1 && joinedOld
  {
    var loader := new Loader(map[]);
    var p0 := loader.LoadSDK(url, globalVar, None, _ => true);
    loader.SetGlobal(globalVar, sdk);
    assert GetGlobal(loader.window, globalVar) == sdk;
    var threw := loader.ScriptLoaded(0);
    SettleAllSpec(map[], [p0], Resolved(sdk));
    first := loader.settled[p0];
    var p1 := loader.LoadSDK(url, globalVar, None, _ => false);
    laterSettled := p1 in loader.settled;
    scriptCount := |loader.scripts|;
    joinedOld := loader.pending[url] == [p0, p1];
  }

  /** A handler already installed under the ready variable still runs, before
      the loader's own requests are resolved. */
  method PreviousReadyHandlerRuns(url: string, globalVar: string, readyVar: string, id: nat, sdk: JsValue)
    returns (calls: seq<nat>, outcome: Settlement, threw: bool)
    requires readyVar != globalVar && Truthy(sdk)
    ensures calls == [id] && outcome == Resolved(sdk) && !threw
  {
    var loader := new Loader(map[readyVar := Func(Foreign(id))]);
    var p0 := loader.LoadSDK(url, globalVar, Some(readyVar), _ => true);
    assert Lookup(loader.window, readyVar) == Func(ReadyWrapper(url, globalVar, Func(Foreign(id))));
    loader.SetGlobal(globalVar, sdk);
    assert GetGlobal(loader.window, globalVar) == sdk;
    assert loader.pending[url] == [p0];
    WrapperCallsPreviousFirst(loader.window, loader.pending, url, globalVar, id);
    threw := loader.CallGlobal(readyVar);
    SettleAllSpec(map[], [p0], Resolved(sdk));
    calls := loader.calls;
    outcome := loader.settled[p0];
  }
}
