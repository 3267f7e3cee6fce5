/** The countdown inside `loadShaders`: how many fetches it waits for, which
    fetches are still outstanding, and when its promise settles.  Network
    completions arrive as explicit steps. */
module ShaderLoading {
  import opened JsValues

  /** The two `.then` branches of `loadShaders`, by the URL that guards them. */
  datatype Fetch = FragmentFetch | VertexFetch

  /** The state of the promise `loadShaders` returns; it settles once. */
  datatype Outcome = Pending | Resolved | Rejected

  /** The local counter `nShadersToLoad`, the fetches not yet completed, and the promise. */
  datatype Countdown = Countdown(pending: int, outstanding: set<Fetch>, outcome: Outcome)
  {
    /** The counter matches the outstanding fetches, and the promise is
        pending exactly while some fetch is. */
    predicate Consistent()
    {
      pending == |outstanding| &&
      (outcome == Pending <==> pending > 0)
    }

    /** One fetch completes: the counter goes down by one and the promise
        resolves when it reaches zero (a settled promise stays as it is). */
    function Complete(f: Fetch): (r: Countdown)
      requires Consistent() && f in outstanding
      ensures r.Consistent()
      ensures r.pending == pending - 1
      ensures r.outstanding == outstanding - {f}
      ensures r.outcome == Resolved <==> pending == 1
      ensures r.outcome != Rejected
    {
      var n := pending - 1;
      Countdown(n, outstanding - {f}, if n == 0 && outcome == Pending then Resolved else outcome)
    }
  }

  /** The initial value of `nShadersToLoad`: one per truthy URL. */
  function ShadersToLoad(fragmentShaderUrl: Nullable<string>, vertexShaderUrl: Nullable<string>): (n: nat)
    ensures n <= 2
    ensures n == 0 <==> !Truthy(fragmentShaderUrl) && !Truthy(vertexShaderUrl)
    ensures n == 2 <==> Truthy(fragmentShaderUrl) && Truthy(vertexShaderUrl)
  {
    (if Truthy(fragmentShaderUrl) then 1 else 0) + (if Truthy(vertexShaderUrl) then 1 else 0)
  }

  /** The fetches `loadShaders` issues: one per truthy URL. */
  function Issued(fragmentShaderUrl: Nullable<string>, vertexShaderUrl: Nullable<string>): (s: set<Fetch>)
    ensures FragmentFetch in s <==> Truthy(fragmentShaderUrl)
    ensures VertexFetch in s <==> Truthy(vertexShaderUrl)
    ensures |s| == ShadersToLoad(fragmentShaderUrl, vertexShaderUrl)
  {
    (if Truthy(fragmentShaderUrl) then {FragmentFetch} else {}) + (if Truthy(vertexShaderUrl) then {VertexFetch} else {})
  }

  /** The countdown when `loadShaders` returns: rejected at once when there is
      nothing to load, otherwise pending on every issued fetch. */
  function Start(fragmentShaderUrl: Nullable<string>, vertexShaderUrl: Nullable<string>): (c: Countdown)
    ensures c.Consistent()
    ensures c.pending == ShadersToLoad(fragmentShaderUrl, vertexShaderUrl)
    ensures c.outstanding == Issued(fragmentShaderUrl, vertexShaderUrl)
    ensures c.outcome == Rejected <==> c.pending == 0
    ensures c.outcome != Resolved
  {
    var n := ShadersToLoad(fragmentShaderUrl, vertexShaderUrl);
    Countdown(n, Issued(fragmentShaderUrl, vertexShaderUrl), if n == 0 then Rejected else Pending)
  }

  /** The URL each issued fetch requests, in issue order.  Both branches pass
      the fragment URL to `loadShader`, so the vertex URL is never requested. */
  function RequestedUrls(fragmentShaderUrl: Nullable<string>, vertexShaderUrl: Nullable<string>): (r: seq<Nullable<string>>)
    ensures |r| == ShadersToLoad(fragmentShaderUrl, vertexShaderUrl)
    ensures forall i :: 0 <= i < |r| ==> r[i] == fragmentShaderUrl
  {
    (if Truthy(fragmentShaderUrl) then [fragmentShaderUrl] else [])
      + (if Truthy(vertexShaderUrl) then [fragmentShaderUrl] else [])
  }

  /** No two completions of one fetch, and only fetches still outstanding. */
  predicate Completable(c: Countdown, fetches: seq<Fetch>)
  {
    (forall i :: 0 <= i < |fetches| ==> fetches[i] in c.outstanding) &&
    (forall i, j :: 0 <= i < j < |fetches| ==> fetches[i] != fetches[j])
  }

  /** The countdown after the given completions, in order. */
  function CompleteAll(c: Countdown, fetches: seq<Fetch>): (r: Countdown)
    requires c.Consistent() && Completable(c, fetches)
    ensures r.Consistent()
    decreases |fetches|
  {
    if fetches == [] then c
    else
      var next := c.Complete(fetches[0]);
      assert Completable(next, fetches[1..]) by {
        forall i | 0 <= i < |fetches[1..]| ensures fetches[1..][i] in next.outstanding {
          assert fetches[1..][i] == fetches[i + 1] != fetches[0];
        }
      }
      CompleteAll(next, fetches[1..])
  }

  /** A pending countdown drops by one per completion and resolves exactly when
      every fetch it waited for has completed, in whatever order they arrive. */
  lemma {:induction false} ResolvesAtLastCompletion(c: Countdown, fetches: seq<Fetch>)
    requires c.Consistent() && c.outcome == Pending && Completable(c, fetches)
    ensures CompleteAll(c, fetches).pending == c.pending - |fetches|
    ensures CompleteAll(c, fetches).outcome == Resolved <==> |fetches| == c.pending
    ensures CompleteAll(c, fetches).outcome != Rejected
    decreases |fetches|
  {
    if fetches != [] {
      var next := c.Complete(fetches[0]);
      assert Completable(next, fetches[1..]) by {
        forall i | 0 <= i < |fetches[1..]| ensures fetches[1..][i] in next.outstanding {
          assert fetches[1..][i] == fetches[i + 1] != fetches[0];
        }
      }
      if |fetches| > 1 {
        assert fetches[1..][0] in next.outstanding;
        ResolvesAtLastCompletion(next, fetches[1..]);
      }
    }
  }

  /** With both URLs, the load is still pending after either completion alone
      and resolves after the second; the order does not matter. */
  lemma BothUrlsResolveAfterBoth(fragmentShaderUrl: Nullable<string>, vertexShaderUrl: Nullable<string>, first: Fetch)
    requires Truthy(fragmentShaderUrl) && Truthy(vertexShaderUrl)
    ensures Start(fragmentShaderUrl, vertexShaderUrl).Complete(first).outcome == Pending
    ensures var second := if first == FragmentFetch then VertexFetch else FragmentFetch;
            Start(fragmentShaderUrl, vertexShaderUrl).Complete(first).Complete(second).outcome == Resolved
  {
  }

  /** With neither URL the promise is rejected and no fetch is outstanding, so
      no completion step (which needs an outstanding fetch) can ever resolve it. */
  lemma NoUrlsNeverResolves(fragmentShaderUrl: Nullable<string>, vertexShaderUrl: Nullable<string>)
    requires !Truthy(fragmentShaderUrl) && !Truthy(vertexShaderUrl)
    ensures Start(fragmentShaderUrl, vertexShaderUrl).outcome == Rejected
    ensures Start(fragmentShaderUrl, vertexShaderUrl).outstanding == {}
  {
  }
}
