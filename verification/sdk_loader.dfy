/** `loadSDK`: the module-level table of pending SDK requests keyed by script
    URL, the global lookup `getGlobal`, and the callbacks a script load, a
    script error and an SDK's ready call run. Promises are numbered; the
    asynchronous callbacks are methods the environment calls. */
module SdkLoader {
  import opened Common

  /** The JavaScript values the loader reads from and stores into `window`.
      An object is a value here: the loader only reads its properties. */
  datatype JsValue =
    | Undefined
    | Null
    | Bool(b: bool)
    | Num(n: int)
    | Str(s: string)
    | Obj(fields: map<string, JsValue>)
    | Func(f: Callable)

  /** A function stored in `window`: one installed by other code (calling it
      is recorded by its number), or the ready wrapper `loadSDK` installs,
      closing over the URL, the SDK's global name and the handler it
      replaced. */
  datatype Callable =
    | Foreign(id: nat)
    | ReadyWrapper(url: string, globalVar: string, previous: JsValue)

  /** JavaScript truthiness. */
  predicate Truthy(v: JsValue)
  {
    match v
    case Undefined => false
    case Null => false
    case Bool(b) => b
    case Num(n) => n != 0
    case Str(s) => s != ""
    case Obj(_) => true
    case Func(_) => true
  }

  /** `window[key]`; a missing property reads as `undefined`. */
  function Lookup(window: map<string, JsValue>, key: string): JsValue
  {
    if key in window then window[key] else Undefined
  }

  /** `v[key]` for a value already known to be truthy; properties of
      primitives are not modelled and read as `undefined`. */
  function Field(v: JsValue, key: string): JsValue
  {
    if v.Obj? && key in v.fields then v.fields[key] else Undefined
  }

  /** `getGlobal(key)`: `window[key]` unless it is undefined, else a truthy
      `window.exports[key]`, else a truthy `window.module.exports[key]`,
      else undefined. */
  function GetGlobal(window: map<string, JsValue>, key: string): (r: JsValue)
    ensures Lookup(window, key) != Undefined ==> r == Lookup(window, key)
    ensures Lookup(window, key) == Undefined && r != Undefined ==>
              Truthy(r)
              && (r == Field(Lookup(window, "exports"), key)
                  || r == Field(Field(Lookup(window, "module"), "exports"), key))
    ensures r == Undefined <==>
              Lookup(window, key) == Undefined
              && !Truthy(Field(Lookup(window, "exports"), key))
              && !Truthy(Field(Field(Lookup(window, "module"), "exports"), key))
    ensures Lookup(window, key) == Undefined && Truthy(Field(Lookup(window, "exports"), key)) ==>
              r == Field(Lookup(window, "exports"), key)
    ensures Lookup(window, key) == Undefined && !Truthy(Field(Lookup(window, "exports"), key))
            && Truthy(Field(Field(Lookup(window, "module"), "exports"), key)) ==>
              r == Field(Field(Lookup(window, "module"), "exports"), key)
  {
    var own := Lookup(window, key);
    var exports := Lookup(window, "exports");
    var moduleObj := Lookup(window, "module");
    if own != Undefined then own
    else if Truthy(exports) && Truthy(Field(exports, key)) then Field(exports, key)
    else if Truthy(moduleObj) && Truthy(Field(moduleObj, "exports"))
            && Truthy(Field(Field(moduleObj, "exports"), key)) then
      Field(Field(moduleObj, "exports"), key)
    else Undefined
  }

  /** A `null` (or any other defined) value in `window` hides the exports
      tables, even when they hold a loaded SDK. */
  lemma WindowShadowsExports(window: map<string, JsValue>, key: string, sdk: JsValue)
    requires Lookup(window, key) == Null
    requires Lookup(window, "exports") == Obj(map[key := sdk]) && Truthy(sdk)
    ensures GetGlobal(window, key) == Null
    ensures !Truthy(GetGlobal(window, key))
  {
  }

  /** `window.exports` is consulted before `window.module.exports`: when
      both hold a truthy value under the key, the first one is returned. */
  lemma ExportsBeforeModuleExports(window: map<string, JsValue>, key: string, exports: map<string, JsValue>, moduleExports: map<string, JsValue>)
    requires key !in window
    requires Lookup(window, "exports") == Obj(exports) && key in exports && Truthy(exports[key])
    requires Lookup(window, "module") == Obj(map["exports" := Obj(moduleExports)])
    requires key in moduleExports && Truthy(moduleExports[key])
    ensures GetGlobal(window, key) == exports[key]
  {
  }

  /** How a promise settled. */
  datatype Settlement = Resolved(value: JsValue) | Rejected(error: JsValue)

  /** Resolving or rejecting every promise of `waiters` in turn with
      `outcome`; a promise that has already settled keeps its settlement. */
  function SettleAll(settled: map<nat, Settlement>, waiters: seq<nat>, outcome: Settlement): (r: map<nat, Settlement>)
    ensures settled.Keys <= r.Keys
    ensures forall w :: w in r ==> w in settled || w in waiters
    decreases |waiters|
  {
    if waiters == [] then settled
    else
      var w := waiters[0];
      SettleAll(if w in settled then settled else settled[w := outcome], waiters[1..], outcome)
  }

  /** Settling a batch settles exactly the batch's promises that were still
      pending, all with the same outcome, and leaves earlier settlements
      alone. */
  lemma {:induction false} SettleAllSpec(settled: map<nat, Settlement>, waiters: seq<nat>, outcome: Settlement)
    ensures forall w :: w in SettleAll(settled, waiters, outcome) <==> w in settled || w in waiters
    ensures forall w :: w in settled ==> SettleAll(settled, waiters, outcome)[w] == settled[w]
    ensures forall w :: w in waiters && w !in settled ==> SettleAll(settled, waiters, outcome)[w] == outcome
    decreases |waiters|
  {
    if waiters != [] {
      var w := waiters[0];
      var next := if w in settled then settled else settled[w := outcome];
      SettleAllSpec(next, waiters[1..], outcome);
      assert forall x :: x in waiters <==> x == w || x in waiters[1..];
    }
  }

  /** One call of `loadScriptFn`: the URL and the names its callbacks close
      over. */
  datatype Script = Script(url: string, globalVar: string, readyVar: Option<string>)

  /** `window` after `loadSDK` installs its ready wrapper, when it has a
      ready variable. */
  function InstallReady(window: map<string, JsValue>, url: string, globalVar: string, readyVar: Option<string>): (r: map<string, JsValue>)
    ensures readyVar.None? ==> r == window
    ensures readyVar.Some? ==>
              Lookup(r, readyVar.value) == Func(ReadyWrapper(url, globalVar, Lookup(window, readyVar.value)))
              && forall k :: k != readyVar.value ==> Lookup(r, k) == Lookup(window, k)
  {
    match readyVar
    case None => window
    case Some(name) => window[name := Func(ReadyWrapper(url, globalVar, Lookup(window, name)))]
  }

  /** What calling a function value does to the promises and to the log of
      foreign calls, and whether it throws. */
  datatype CallResult = CallResult(threw: bool, settled: map<nat, Settlement>, calls: seq<nat>)

  /** Calling `f()`: a foreign handler is recorded; the ready wrapper first
      calls the handler it replaced when that is not undefined (giving up if
      it throws), then resolves every request pending for its URL with the
      current global, and throws when no entry exists for the URL; calling
      anything that is not a function throws a TypeError. */
  function CallEffect(f: JsValue, window: map<string, JsValue>, pending: map<string, seq<nat>>,
                      settled: map<nat, Settlement>, calls: seq<nat>): (r: CallResult)
    ensures !f.Func? ==> r == CallResult(true, settled, calls)
    ensures |calls| <= |r.calls| && r.calls[..|calls|] == calls
    decreases f
  {
    match f
    case Func(Foreign(id)) => CallResult(false, settled, calls + [id])
    case Func(ReadyWrapper(url, globalVar, previous)) =>
      var before :=
        if previous == Undefined then CallResult(false, settled, calls)
        else CallEffect(previous, window, pending, settled, calls);
      if before.threw then before
      else if url !in pending then CallResult(true, before.settled, before.calls)
      else CallResult(false, SettleAll(before.settled, pending[url], Resolved(GetGlobal(window, globalVar))), before.calls)
    case _ => CallResult(true, settled, calls)
  }

  /** A call never unsettles or changes a settled promise, settles only
      promises waiting in the table, and only appends to the call log. */
  lemma {:induction false} CallEffectMonotone(f: JsValue, window: map<string, JsValue>, pending: map<string, seq<nat>>,
                                              settled: map<nat, Settlement>, calls: seq<nat>)
    ensures var r := CallEffect(f, window, pending, settled, calls);
            (forall w :: w in settled ==> w in r.settled && r.settled[w] == settled[w])
            && (forall w :: w in r.settled && w !in settled ==> exists u :: u in pending && w in pending[u])
            && |calls| <= |r.calls| && r.calls[..|calls|] == calls
    decreases f
  {
    match f
    case Func(Foreign(id)) =>
      assert (calls + [id])[..|calls|] == calls;
    case Func(ReadyWrapper(url, globalVar, previous)) =>
      var before :=
        if previous == Undefined then CallResult(false, settled, calls)
        else CallEffect(previous, window, pending, settled, calls);
      if previous != Undefined {
        CallEffectMonotone(previous, window, pending, settled, calls);
      }
      if !before.threw && url in pending {
        SettleAllSpec(before.settled, pending[url], Resolved(GetGlobal(window, globalVar)));
      }
    case _ =>
  }

  /** The ready wrapper runs the handler it replaced before resolving: with
      a foreign handler underneath, the handler is recorded and every
      request for the URL is resolved with the SDK global. */
  lemma WrapperCallsPreviousFirst(window: map<string, JsValue>, pending: map<string, seq<nat>>,
                                  url: string, globalVar: string, id: nat)
    requires url in pending
    ensures CallEffect(Func(ReadyWrapper(url, globalVar, Func(Foreign(id)))), window, pending, map[], [])
            == CallResult(false, SettleAll(map[], pending[url], Resolved(GetGlobal(window, globalVar))), [id])
  {
  }

  /** A replaced value that is defined but not a function (`null`, say) makes
      the wrapper throw before it resolves anything. */
  lemma NonFunctionPreviousThrows(window: map<string, JsValue>, pending: map<string, seq<nat>>,
                                  settled: map<nat, Settlement>, calls: seq<nat>,
                                  url: string, globalVar: string, previous: JsValue)
    requires previous != Undefined && !previous.Func?
    ensures CallEffect(Func(ReadyWrapper(url, globalVar, previous)), window, pending, settled, calls)
            == CallResult(true, settled, calls)
  {
  }

  /** Every promise number waiting in some entry of the table. */
  ghost function Waiting(pending: map<string, seq<nat>>): set<nat>
  {
    set u, w | u in pending && w in pending[u] :: w
  }

  /** Every entry of the table is non-empty and has had its script
      requested (after a success that script may already have loaded), promise numbers below `next` have been handed
      out, and every one of them has either settled or is waiting in the
      table. */
  ghost predicate Tracked(pending: map<string, seq<nat>>, scripts: seq<Script>,
                          settled: map<nat, Settlement>, next: nat)
  {
    (forall u :: u in pending ==> pending[u] != [] && exists s :: s in scripts && s.url == u)
    && (forall u, w :: u in pending && w in pending[u] ==> w < next)
    && (forall w :: w in settled ==> w < next)
    && (forall w: nat :: w < next && w !in settled ==> w in Waiting(pending))
  }

  /** Resolving a new promise at once keeps every request tracked. */
  lemma TrackedResolveNew(pending: map<string, seq<nat>>, scripts: seq<Script>,
                          settled: map<nat, Settlement>, next: nat, outcome: Settlement)
    requires Tracked(pending, scripts, settled, next)
    ensures Tracked(pending, scripts, settled[next := outcome], next + 1)
  {
  }

  /** A new promise that joins an existing entry is tracked. */
  lemma TrackedJoin(pending: map<string, seq<nat>>, scripts: seq<Script>,
                    settled: map<nat, Settlement>, next: nat, url: string)
    requires Tracked(pending, scripts, settled, next) && url in pending
    ensures Tracked(pending[url := pending[url] + [next]], scripts, settled, next + 1)
  {
    var joined := pending[url] + [next];
    var after := pending[url := joined];
    forall w: nat | w < next + 1 && w !in settled ensures w in Waiting(after) {
      if w == next {
        assert joined[|joined| - 1] == w;
        assert w in after[url];
      } else {
        assert w in Waiting(pending);
        var u :| u in pending && w in pending[u];
        assert w in after[u];
      }
    }
  }

  /** A new entry for a new URL, with its script requested, is tracked. */
  lemma TrackedCreate(pending: map<string, seq<nat>>, scripts: seq<Script>,
                      settled: map<nat, Settlement>, next: nat, script: Script)
    requires Tracked(pending, scripts, settled, next) && script.url !in pending
    ensures Tracked(pending[script.url := [next]], scripts + [script], settled, next + 1)
  {
    var after := pending[script.url := [next]];
    var scripts' := scripts + [script];
    assert scripts'[|scripts|] == script;
    forall u | u in after ensures exists s :: s in scripts' && s.url == u {
      if u != script.url {
        var s :| s in scripts && s.url == u;
        assert s in scripts';
      }
    }
    forall w: nat | w < next + 1 && w !in settled ensures w in Waiting(after) {
      if w == next {
        assert w in after[script.url];
      } else {
        assert w in Waiting(pending);
        var u :| u in pending && w in pending[u];
        assert w in after[u];
      }
    }
  }

  /** Settling the waiters of an entry, which stays, keeps every request
      tracked. */
  lemma TrackedSettle(pending: map<string, seq<nat>>, scripts: seq<Script>,
                      settled: map<nat, Settlement>, next: nat, url: string, outcome: Settlement)
    requires Tracked(pending, scripts, settled, next) && url in pending
    ensures Tracked(pending, scripts, SettleAll(settled, pending[url], outcome), next)
  {
    SettleAllSpec(settled, pending[url], outcome);
  }

  /** Rejecting the waiters of an entry and deleting it keeps every request
      tracked. */
  lemma TrackedReject(pending: map<string, seq<nat>>, scripts: seq<Script>,
                      settled: map<nat, Settlement>, next: nat, url: string, e: JsValue)
    requires Tracked(pending, scripts, settled, next) && url in pending
    ensures Tracked(pending - {url}, scripts, SettleAll(settled, pending[url], Rejected(e)), next)
  {
    var after := SettleAll(settled, pending[url], Rejected(e));
    SettleAllSpec(settled, pending[url], Rejected(e));
    forall w: nat | w < next && w !in after ensures w in Waiting(pending - {url}) {
      assert w in Waiting(pending);
      var u :| u in pending && w in pending[u];
      assert u != url;
      assert w in (pending - {url})[u];
    }
  }

  /** The loader's state: `window`, the `pendingSDKRequests` table, the
      `loadScriptFn` calls made, the settlement of every promise handed out,
      and the calls made to foreign handlers. */
  class Loader {
    var window: map<string, JsValue>
    var pending: map<string, seq<nat>>
    var scripts: seq<Script>
    var settled: map<nat, Settlement>
    var calls: seq<nat>
    var nextPromise: nat

    /** The bookkeeping `Tracked` states. */
    ghost predicate Valid()
      reads this
    {
      Tracked(pending, scripts, settled, nextPromise)
    }

    constructor(window0: map<string, JsValue>)
      ensures window == window0 && pending == map[] && scripts == [] && settled == map[]
      ensures calls == [] && nextPromise == 0
      ensures Valid()
    {
      window := window0;
      pending := map[];
      scripts := [];
      settled := map[];
      calls := [];
      nextPromise := 0;
    }

    /** Other code (the SDK's own script, say) sets a global. */
    method SetGlobal(key: string, v: JsValue)
      requires Valid()
      modifies this
      ensures window == old(window)[key := v]
      ensures pending == old(pending) && scripts == old(scripts) && settled == old(settled)
      ensures calls == old(calls) && nextPromise == old(nextPromise)
      ensures Valid()
    {
      window := window[key := v];
    }

    /** `loadSDK(url, sdkGlobalVar, sdkReadyVar, isLoaded)`, returning the
        number of the promise it hands out. An SDK that is present and loaded
        resolves it at once; otherwise a request for a URL already in the
        table joins that entry, and the first request for a URL creates the
        entry, installs the ready wrapper and calls `loadScriptFn` once. */
    method LoadSDK(url: string, globalVar: string, readyVar: Option<string>, isLoaded: JsValue -> bool)
      returns (promise: nat)
      requires Valid()
      modifies this
      ensures promise == old(nextPromise) && nextPromise == promise + 1
      ensures calls == old(calls)
      ensures var existing := GetGlobal(old(window), globalVar);
              if Truthy(existing) && isLoaded(existing) then
                settled == old(settled)[promise := Resolved(existing)]
                && pending == old(pending) && scripts == old(scripts) && window == old(window)
              else if url in old(pending) then
                pending == old(pending)[url := old(pending)[url] + [promise]]
                && scripts == old(scripts) && window == old(window) && settled == old(settled)
              else
                pending == old(pending)[url := [promise]]
                && scripts == old(scripts) + [Script(url, globalVar, readyVar)]
                && window == InstallReady(old(window), url, globalVar, readyVar)
                && settled == old(settled)
      ensures |scripts| <= |old(scripts)| + 1
      ensures Valid()
    {
      promise := nextPromise;
      var existing := GetGlobal(window, globalVar);
      if Truthy(existing) && isLoaded(existing) {
        TrackedResolveNew(pending, scripts, settled, promise, Resolved(existing));
        settled := settled[promise := Resolved(existing)];
        nextPromise := nextPromise + 1;
        return;
      }
      if url in pending {
        TrackedJoin(pending, scripts, settled, promise, url);
        pending := pending[url := pending[url] + [promise]];
        nextPromise := nextPromise + 1;
        return;
      }
      TrackedCreate(pending, scripts, settled, promise, Script(url, globalVar, readyVar));
      pending := pending[url := [promise]];
      window := InstallReady(window, url, globalVar, readyVar);
      scripts := scripts + [Script(url, globalVar, readyVar)];
      nextPromise := nextPromise + 1;
    }

    /** `pendingSDKRequests[url].forEach(...)`: settles every promise of
        `waiters`, in order, with `outcome`. */
    method SettleEach(waiters: seq<nat>, outcome: Settlement)
      modifies this
      ensures settled == SettleAll(old(settled), waiters, outcome)
      ensures window == old(window) && pending == old(pending) && scripts == old(scripts)
      ensures calls == old(calls) && nextPromise == old(nextPromise)
    {
      var i := 0;
      while i < |waiters|
        invariant 0 <= i <= |waiters|
        invariant SettleAll(settled, waiters[i..], outcome) == SettleAll(old(settled), waiters, outcome)
        invariant window == old(window) && pending == old(pending) && scripts == old(scripts)
        invariant calls == old(calls) && nextPromise == old(nextPromise)
      {
        assert waiters[i..][1..] == waiters[i + 1..];
        if waiters[i] !in settled {
          settled := settled[waiters[i] := outcome];
        }
        i := i + 1;
      }
    }

    /** The load callback of the `i`-th script: without a ready variable it
        resolves every request for the URL with the current global and
        leaves the entry in place; it throws when no entry exists; with a
        ready variable it does nothing. */
    method ScriptLoaded(i: nat) returns (threw: bool)
      requires Valid() && i < |scripts|
      modifies this
      ensures var s := old(scripts)[i];
              threw <==> s.readyVar.None? && s.url !in old(pending)
      ensures var s := old(scripts)[i];
              settled == if s.readyVar.None? && s.url in old(pending)
                         then SettleAll(old(settled), old(pending)[s.url], Resolved(GetGlobal(old(window), s.globalVar)))
                         else old(settled)
      ensures window == old(window) && pending == old(pending) && scripts == old(scripts)
      ensures calls == old(calls) && nextPromise == old(nextPromise)
      ensures Valid()
    {
      var s := scripts[i];
      threw := false;
      if s.readyVar.None? {
        if s.url !in pending {
          threw := true;
          return;
        }
        TrackedSettle(pending, scripts, settled, nextPromise, s.url, Resolved(GetGlobal(window, s.globalVar)));
        SettleEach(pending[s.url], Resolved(GetGlobal(window, s.globalVar)));
      }
    }

    /** The error callback of the `i`-th script: rejects every request for
        the URL with the error and deletes the entry; throws when no entry
        exists. */
    method ScriptFailed(i: nat, e: JsValue) returns (threw: bool)
      requires Valid() && i < |scripts|
      modifies this
      ensures var url := old(scripts)[i].url;
              (threw <==> url !in old(pending))
              && (url in old(pending) ==>
                    settled == SettleAll(old(settled), old(pending)[url], Rejected(e))
                    && pending == old(pending) - {url})
              && (url !in old(pending) ==> settled == old(settled) && pending == old(pending))
      ensures window == old(window) && scripts == old(scripts)
      ensures calls == old(calls) && nextPromise == old(nextPromise)
      ensures Valid()
    {
      var url := scripts[i].url;
      if url !in pending {
        threw := true;
        return;
      }
      threw := false;
      TrackedReject(pending, scripts, settled, nextPromise, url, e);
      SettleEach(pending[url], Rejected(e));
      pending := pending - {url};
    }

    /** Calling the function value `f`, as `CallEffect` describes. */
    method Invoke(f: JsValue) returns (threw: bool)
      requires Valid()
      modifies this
      ensures CallResult(threw, settled, calls) == CallEffect(f, old(window), old(pending), old(settled), old(calls))
      ensures window == old(window) && pending == old(pending) && scripts == old(scripts)
      ensures nextPromise == old(nextPromise)
      ensures Valid()
      decreases f
    {
      match f
      case Func(Foreign(id)) =>
        calls := calls + [id];
        threw := false;
      case Func(ReadyWrapper(url, globalVar, previous)) =>
        if previous != Undefined {
          threw := Invoke(previous);
          if threw {
            return;
          }
        }
        if url !in pending {
          threw := true;
          return;
        }
        TrackedSettle(pending, scripts, settled, nextPromise, url, Resolved(GetGlobal(window, globalVar)));
        SettleEach(pending[url], Resolved(GetGlobal(window, globalVar)));
        threw := false;
      case _ =>
        threw := true;
    }

    /** The SDK calls `window[name]()`, its ready variable. */
    method CallGlobal(name: string) returns (threw: bool)
      requires Valid()
      modifies this
      ensures CallResult(threw, settled, calls) == CallEffect(Lookup(old(window), name), old(window), old(pending), old(settled), old(calls))
      ensures window == old(window) && pending == old(pending) && scripts == old(scripts)
      ensures nextPromise == old(nextPromise)
      ensures Valid()
    {
      threw := Invoke(Lookup(window, name));
    }
  }
}
