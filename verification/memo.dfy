/**
 * The "one promise at a time, retry after failure" cache shared by
 * `loadJurisdictionBoundary` (js/layers.js) and `loadProjectsOnce`
 * (js/services/projectsService.js): a module variable holds the pending or
 * settled promise, a call returns it when set and otherwise starts a new
 * request, and the request's failure handler sets the variable back to
 * null. Promises are identified by the number of requests started so far.
 */
module Memo {
  import opened Values

  /** The cached promise (if any) and how many requests have been started. */
  datatype MemoView = MemoView(cached: Option<nat>, issued: nat)

  /** Every cached promise is one that was started. */
  predicate MemoValid(v: MemoView) {
    v.cached.Some? ==> 1 <= v.cached.value <= v.issued
  }

  /** A call: the cached promise, or a newly started one that is then cached. */
  function LoadView(v: MemoView): (MemoView, nat) {
    if v.cached.Some? then (v, v.cached.value)
    else (MemoView(Some(v.issued + 1), v.issued + 1), v.issued + 1)
  }

  /** The failure handler: forget the promise. */
  function FailView(v: MemoView): MemoView {
    v.(cached := None)
  }

  /**
   * A call returns the cached promise without starting a request when one
   * is cached; otherwise it starts exactly one request, whose promise is
   * new, and caches it.
   */
  lemma LoadEffect(v: MemoView)
    requires MemoValid(v)
    ensures var (w, p) := LoadView(v);
      MemoValid(w) && w.cached == Some(p)
      && (v.cached.Some? ==> p == v.cached.value && w == v)
      && (v.cached.None? ==> w.issued == v.issued + 1 && p > v.issued)
  {
  }

  /** Two calls with no failure in between return the same promise and start at most one request. */
  lemma {:induction false} LoadTwiceSame(v: MemoView)
    requires MemoValid(v)
    ensures var (w, p) := LoadView(v);
      var (w2, p2) := LoadView(w);
      p2 == p && w2 == w && w.issued <= v.issued + 1
  {
    LoadEffect(v);
    var (w, p) := LoadView(v);
    LoadEffect(w);
  }

  /** After a failure the next call retries: it starts a request no earlier call was given. */
  lemma {:induction false} RetryAfterFailure(v: MemoView)
    requires MemoValid(v)
    ensures var (w, p) := LoadView(FailView(v));
      MemoValid(w) && p == v.issued + 1
      && (v.cached.Some? ==> p != v.cached.value)
  {
    LoadEffect(FailView(v));
  }

  /** The cached promise of a loader. */
  class PromiseMemo {
    /** the module variable holding the promise; `None` is `null` */
    var cached: Option<nat>
    /** how many requests have been started */
    var issued: nat

    constructor ()
      ensures View() == MemoView(None, 0) && MemoValid(View())
    {
      cached := None;
      issued := 0;
    }

    function View(): MemoView
      reads this
    {
      MemoView(cached, issued)
    }

    /** `if (promise) return promise; promise = start(); return promise;` */
    method Load() returns (p: nat, started: bool)
      requires MemoValid(View())
      modifies this
      ensures (View(), p) == LoadView(old(View()))
      ensures started <==> old(cached).None?
      ensures MemoValid(View()) && cached == Some(p)
    {
      LoadEffect(View());
      if cached.Some? {
        return cached.value, false;
      }
      issued := issued + 1;
      cached := Some(issued);
      return issued, true;
    }

    /** The `.catch` handler: `promise = null`. */
    method Fail()
      requires MemoValid(View())
      modifies this
      ensures View() == FailView(old(View())) && MemoValid(View())
    {
      cached := None;
    }
  }
}
