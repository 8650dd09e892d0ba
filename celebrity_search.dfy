/**
 * The search-as-you-type session: a query change (re)arms a 350 ms debounce
 * timer; when it fires, the previous lookup is aborted and a new one is
 * started under the next request id; a lookup's answer is applied only if
 * its id is still the current one. Timers and promises are replaced by
 * events the caller delivers one at a time.
 */
module CelebritySearch {
  import opened Wrappers
  import opened JsString
  import CelebrityService

  type Celebrity = CelebrityService.Celebrity

  /** The `limit` every lookup is started with. */
  const SearchLimit := 8
  /** The message shown when a lookup fails for another reason than an abort. */
  const SearchError := "Erreur de recherche (Wikipedia/Wikidata)."

  /** One call of the celebrity lookup: the query it was given and its `limit`. */
  datatype Lookup = Lookup(query: string, limit: int)

  /** How every lookup is started: with limit 8 and a non-empty trimmed query. */
  predicate StartedWell(l: Lookup) {
    l.limit == SearchLimit && l.query != "" && IsTrimmed(l.query)
  }

  /** `StartedWell` holds of every lookup in `ls`. */
  predicate AllStartedWell(ls: seq<Lookup>) {
    ls == [] || (AllStartedWell(ls[..|ls| - 1]) && StartedWell(ls[|ls| - 1]))
  }

  /** `AllStartedWell` is the pointwise property. */
  lemma {:induction false} AllStartedWellIff(ls: seq<Lookup>)
    ensures AllStartedWell(ls) <==> forall k :: 0 <= k < |ls| ==> StartedWell(ls[k])
  {
    if ls != [] {
      AllStartedWellIff(ls[..|ls| - 1]);
      assert forall k :: 0 <= k < |ls| - 1 ==> ls[..|ls| - 1][k] == ls[k];
    }
  }

  class SearchSession {
    /** The query the hook was last rendered with. */
    var query: string
    var results: seq<Celebrity>
    var loading: bool
    var error: string
    /** The request id counter; the id of the most recent lookup. */
    var requestId: nat
    /** The current abort controller, named by the id of the lookup it was created for. */
    var controller: Option<nat>
    /** The controllers whose abort has been called. */
    var aborted: set<nat>
    /** The pending debounce timeout, with the trimmed query it will look up. */
    var timer: Option<string>
    /** The lookups started and not yet settled, by id. */
    var inFlight: set<nat>
    /** Every lookup started, in order; `lookups[k]` is the one with id `k + 1`. */
    var lookups: seq<Lookup>

    /**
     * The bookkeeping the hook keeps consistent: one started lookup per id,
     * the controller of the newest id is the current one, every in-flight
     * lookup older than the current id has been aborted, and every lookup
     * (and the one the pending timer will start) has a non-empty trimmed
     * query and limit 8.
     */
    ghost predicate Valid()
      reads this`requestId, this`controller, this`inFlight, this`aborted, this`lookups, this`timer
    {
      && |lookups| == requestId
      && controller == (if requestId == 0 then None else Some(requestId))
      && (forall id :: id in inFlight ==> 1 <= id <= requestId)
      && (forall id :: id in inFlight && id < requestId ==> id in aborted)
      && (forall id :: id in aborted ==> 1 <= id <= requestId)
      && AllStartedWell(lookups)
      && (timer.Some? ==> timer.value != "" && IsTrimmed(timer.value))
    }

    /** The hook's first render with `initialQuery`, followed by its effect. */
    constructor Mount(initialQuery: string)
      ensures Valid()
      ensures query == initialQuery && requestId == 0 && lookups == [] && inFlight == {}
      ensures Trim(initialQuery) == "" ==> results == [] && !loading && error == "" && timer == None
      ensures Trim(initialQuery) != "" ==> results == [] && loading && error == "" && timer == Some(Trim(initialQuery))
    {
      query := initialQuery;
      results := [];
      loading := false;
      error := "";
      requestId := 0;
      controller := None;
      aborted := {};
      timer := None;
      inFlight := {};
      lookups := [];
      new;
      QueryEffect();
    }

    /** The effect body, run with `query` already updated and no timer pending. */
    method QueryEffect()
      requires Valid() && timer == None
      modifies this`results, this`loading, this`error, this`aborted, this`timer
      ensures Valid()
      ensures Trim(query) == "" ==>
        results == [] && !loading && error == "" && timer == None
        && aborted == old(aborted) + (if controller.Some? then {controller.value} else {})
      ensures Trim(query) != "" ==>
        results == old(results) && loading && error == "" && timer == Some(Trim(query))
        && aborted == old(aborted)
    {
      var q := Trim(query);
      if q == "" {
        results := [];
        loading := false;
        error := "";
        AbortCurrent();
      } else {
        ArmTimer(q);
      }
    }

    /** `abortRef.current?.abort()`: the current controller, if any, is aborted. */
    method AbortCurrent()
      requires Valid()
      modifies this`aborted
      ensures Valid()
      ensures aborted == old(aborted) + (if controller.Some? then {controller.value} else {})
    {
      if controller.Some? {
        aborted := aborted + {controller.value};
      }
    }

    /** The non-blank branch of the effect: loading, no error, and the debounce timer armed for the trimmed query `q`. */
    method ArmTimer(q: string)
      requires Valid() && q != "" && IsTrimmed(q)
      modifies this`loading, this`error, this`timer
      ensures Valid()
      ensures loading && error == "" && timer == Some(q)
    {
      loading := true;
      error := "";
      timer := Some(q);
    }

    /**
     * The hook is rendered with `q`. The effect reruns only when the query
     * differs: its cleanup clears the pending timer, then a blank query
     * resets the results and aborts the current lookup, and any other query
     * sets `loading` and arms a timer for the trimmed query.
     */
    method QueryChanged(q: string)
      requires Valid()
      modifies this`query, this`results, this`loading, this`error, this`aborted, this`timer
      ensures Valid()
      ensures query == q
      ensures q == old(query) ==> unchanged(this)
      ensures q != old(query) && Trim(q) == "" ==>
        results == [] && !loading && error == "" && timer == None
        && aborted == old(aborted) + (if controller.Some? then {controller.value} else {})
      ensures q != old(query) && Trim(q) != "" ==>
        results == old(results) && loading && error == "" && timer == Some(Trim(q)) && aborted == old(aborted)
    {
      if q == query {
        return;
      }
      timer := None;
      query := q;
      QueryEffect();
    }

    /**
     * The debounce timeout fires: the current lookup is aborted, the id
     * counter is incremented, and a lookup for the timer's query with limit
     * 8 is started under the new id with a fresh controller.
     */
    method TimerFired()
      requires Valid() && timer.Some?
      modifies this`timer, this`aborted, this`requestId, this`controller, this`inFlight, this`lookups
      ensures Valid()
      ensures requestId == old(requestId) + 1
      ensures lookups == old(lookups) + [Lookup(old(timer).value, SearchLimit)]
      ensures inFlight == old(inFlight) + {requestId} && requestId !in old(inFlight)
      ensures controller == Some(requestId)
      ensures aborted == old(aborted) + (if old(controller).Some? then {old(controller).value} else {})
      ensures requestId !in aborted
      ensures timer == None
    {
      var q := timer.value;
      AbortCurrent();
      timer := None;
      StartLookup(q);
    }

    /** Second half of the timeout: a new id, a fresh controller, and the lookup for `q` started under them. */
    method StartLookup(q: string)
      requires Valid() && q != "" && IsTrimmed(q)
      requires requestId == 0 || requestId in aborted
      modifies this`requestId, this`controller, this`inFlight, this`lookups
      ensures Valid()
      ensures requestId == old(requestId) + 1 && controller == Some(requestId)
      ensures lookups == old(lookups) + [Lookup(q, SearchLimit)]
      ensures inFlight == old(inFlight) + {requestId} && requestId !in old(inFlight)
      ensures requestId !in aborted
    {
      requestId := requestId + 1;
      controller := Some(requestId);
      inFlight := inFlight + {requestId};
      lookups := lookups + [Lookup(q, SearchLimit)];
      assert lookups[..|lookups| - 1] == old(lookups);
    }

    /**
     * The lookup with id `id` resolved with `data`. It is applied, and
     * `loading` cleared, only when `id` is still the current id; an
     * outdated answer changes nothing visible.
     */
    method Resolved(id: nat, data: seq<Celebrity>)
      requires Valid() && id in inFlight
      modifies this`inFlight, this`results, this`loading
      ensures Valid()
      ensures inFlight == old(inFlight) - {id}
      ensures id == requestId ==> results == data && !loading
      ensures id != requestId ==> results == old(results) && loading == old(loading)
    {
      inFlight := inFlight - {id};
      if id != requestId {
        return;
      }
      results := data;
      loading := false;
    }

    /**
     * The lookup with id `id` failed. If its controller was aborted nothing
     * is shown; otherwise the error message replaces the results. Only the
     * current lookup clears `loading`. A failure of an outdated lookup
     * changes nothing visible, because every outdated lookup was aborted.
     */
    method Rejected(id: nat)
      requires Valid() && id in inFlight
      modifies this`inFlight, this`results, this`error, this`loading
      ensures Valid()
      ensures inFlight == old(inFlight) - {id}
      ensures id in aborted ==> results == old(results) && error == old(error)
      ensures id !in aborted ==> results == [] && error == SearchError
      ensures loading == (if id == requestId then false else old(loading))
      ensures id != requestId ==> results == old(results) && error == old(error) && loading == old(loading)
    {
      inFlight := inFlight - {id};
      if id !in aborted {
        error := SearchError;
        results := [];
      }
      if id == requestId {
        loading := false;
      }
    }
  }

  /** Typing `q1` and then `q2` before the timeout fires starts a single lookup, for `q2`. */
  method DebouncedBurst(q1: string, q2: string)
    requires q1 != "" && IsTrimmed(q1) && q2 != "" && IsTrimmed(q2) && q1 != q2
  {
    var s := new SearchSession.Mount("");
    TrimKeepsTrimmed(q1);
    TrimKeepsTrimmed(q2);
    s.QueryChanged(q1);
    s.QueryChanged(q2);
    s.TimerFired();
    assert s.lookups == [Lookup(q2, SearchLimit)];
  }

  /** The answer of the first lookup, arriving after the second one's, does not overwrite it. */
  method OutdatedAnswerDiscarded(q1: string, q2: string, first: seq<Celebrity>, second: seq<Celebrity>)
    requires q1 != "" && IsTrimmed(q1) && q2 != "" && IsTrimmed(q2) && q1 != q2
  {
    var s := new SearchSession.Mount("");
    TrimKeepsTrimmed(q1);
    TrimKeepsTrimmed(q2);
    s.QueryChanged(q1);
    s.TimerFired();
    s.QueryChanged(q2);
    s.TimerFired();
    s.Resolved(2, second);
    s.Resolved(1, first);
    assert s.results == second && !s.loading;
  }

  /**
   * Clearing the query aborts the current lookup but keeps its id current:
   * if that lookup still resolves, its answer is shown under the blank query.
   */
  method ClearedQueryKeepsLastId(q: string, late: seq<Celebrity>)
    requires q != "" && IsTrimmed(q)
  {
    var s := new SearchSession.Mount("");
    TrimKeepsTrimmed(q);
    s.QueryChanged(q);
    s.TimerFired();
    var id := s.requestId;
    s.QueryChanged("");
    assert s.results == [] && id in s.aborted;
    s.Resolved(id, late);
    assert s.query == "" && s.results == late;
  }
}
