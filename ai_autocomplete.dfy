/** The editor's autocomplete hook as a state machine: the shown suggestion, the
    loading flag, the debounce timer reference and the id of the latest request,
    together with the timers the browser holds. Each handler of the hook is a
    method; time passing is the event `Fire`, and the reply of the query is the
    event `Completed` or `Error`. */
module AIAutocomplete {
  import opened Wrappers

  /** A scheduled `setTimeout` callback: its handle and what it closed over. */
  datatype Timer = Timer(handle: nat, requestId: nat, fullText: string, cursorPosition: int)

  /** The variables of the `getSmartSuggestion` query. */
  datatype Query = Query(fullText: string, cursorPosition: int)

  /** `data.getSmartSuggestion` of a completed query. */
  datatype SmartSuggestion = SmartSuggestion(success: bool, suggestion: Option<string>)

  /** The timers of `timers` other than the one with `handle`: `clearTimeout`. */
  function Cancel(timers: seq<Timer>, handle: nat): (r: seq<Timer>)
    ensures forall t :: t in r <==> t in timers && t.handle != handle
    ensures |r| <= |timers|
  {
    if timers == [] then []
    else (if timers[0].handle == handle then [] else [timers[0]]) + Cancel(timers[1..], handle)
  }

  /** A completion carries a suggestion when it succeeded with a non-empty text. */
  predicate Usable(data: Option<SmartSuggestion>) {
    data.Some? && data.value.success && data.value.suggestion.Some? && data.value.suggestion.value != ""
  }

  class Autocomplete {
    var suggestion: string
    var isLoading: bool
    /** `debounceTimeoutRef.current`: the handle of the last timer set, if any. */
    var debounceTimeout: Option<nat>
    /** `lastRequestRef.current`. */
    var lastRequest: Option<nat>
    /** The timers set and neither cleared nor run yet. */
    var pending: seq<Timer>
    /** The source of request ids, in place of `Date.now()`. */
    var clock: nat
    /** The next handle `setTimeout` hands out; handles are positive, so truthy. */
    var nextHandle: nat

    /** At most one timer is pending: the one the reference names, closed over
        the latest request id. */
    ghost predicate Valid()
      reads this
    {
      && |pending| <= 1
      && (pending != [] ==> debounceTimeout == Some(pending[0].handle) && lastRequest == Some(pending[0].requestId))
      && (lastRequest.Some? ==> lastRequest.value < clock)
      && (debounceTimeout.Some? ==> 1 <= debounceTimeout.value < nextHandle)
      && nextHandle >= 1
    }

    constructor ()
      ensures Valid()
      ensures suggestion == "" && !isLoading && debounceTimeout == None && lastRequest == None && pending == []
      ensures clock == 0 && nextHandle == 1
    {
      suggestion := "";
      isLoading := false;
      debounceTimeout := None;
      lastRequest := None;
      pending := [];
      clock := 0;
      nextHandle := 1;
    }

    /** `requestSuggestion`: clear the previous timer, hide the suggestion, take a
        new request id and schedule the one-second debounce timer for it. */
    method RequestSuggestion(fullText: string, cursorPosition: int)
      requires Valid()
      modifies this
      ensures Valid()
      ensures suggestion == "" && isLoading == old(isLoading)
      ensures lastRequest == Some(old(clock)) && clock == old(clock) + 1
      ensures debounceTimeout == Some(old(nextHandle)) && nextHandle == old(nextHandle) + 1
      ensures pending == [Timer(old(nextHandle), old(clock), fullText, cursorPosition)]
    {
      if debounceTimeout.Some? {
        pending := Cancel(pending, debounceTimeout.value);
      }
      assert pending == [];
      suggestion := "";
      var requestId := clock;
      clock := clock + 1;
      lastRequest := Some(requestId);
      var handle := nextHandle;
      nextHandle := nextHandle + 1;
      debounceTimeout := Some(handle);
      pending := [Timer(handle, requestId, fullText, cursorPosition)];
    }

    /** The browser runs the timer with `handle`, if it is still pending: the
        query is made, and loading shown, only for the latest request id. */
    method Fire(handle: nat) returns (query: Option<Query>)
      requires Valid()
      modifies this
      ensures Valid()
      ensures pending == Cancel(old(pending), handle)
      ensures query.Some? <==>
        exists i :: 0 <= i < |old(pending)| && old(pending)[i].handle == handle && old(lastRequest) == Some(old(pending)[i].requestId)
      ensures forall i :: 0 <= i < |old(pending)| && old(pending)[i].handle == handle && query.Some? ==>
        query.value == Query(old(pending)[i].fullText, old(pending)[i].cursorPosition)
      ensures isLoading == (query.Some? || old(isLoading))
      ensures suggestion == old(suggestion) && lastRequest == old(lastRequest) && debounceTimeout == old(debounceTimeout)
      ensures clock == old(clock) && nextHandle == old(nextHandle)
    {
      query := None;
      if pending != [] && pending[0].handle == handle {
        var timer := pending[0];
        pending := [];
        if lastRequest == Some(timer.requestId) {
          isLoading := true;
          query := Some(Query(timer.fullText, timer.cursorPosition));
        }
      } else {
        pending := Cancel(pending, handle);
      }
    }

    /** `onCompleted`: loading ends; the suggestion is the returned text when the
        query succeeded with a non-empty one, and `''` otherwise. Which request
        the reply belongs to is not looked at. */
    method Completed(data: Option<SmartSuggestion>)
      requires Valid()
      modifies this
      ensures Valid()
      ensures !isLoading
      ensures suggestion == if Usable(data) then data.value.suggestion.value else ""
      ensures lastRequest == old(lastRequest) && debounceTimeout == old(debounceTimeout) && pending == old(pending)
      ensures clock == old(clock) && nextHandle == old(nextHandle)
    {
      isLoading := false;
      if Usable(data) {
        suggestion := data.value.suggestion.value;
      } else {
        suggestion := "";
      }
    }

    /** `onError`. */
    method Error()
      requires Valid()
      modifies this
      ensures Valid()
      ensures !isLoading && suggestion == ""
      ensures lastRequest == old(lastRequest) && debounceTimeout == old(debounceTimeout) && pending == old(pending)
      ensures clock == old(clock) && nextHandle == old(nextHandle)
    {
      isLoading := false;
      suggestion := "";
    }

    /** `clearSuggestion`: the pending timer is cleared, but the reference keeps
        its handle and the latest request id stays as it was. */
    method Clear()
      requires Valid()
      modifies this
      ensures Valid()
      ensures suggestion == "" && !isLoading && pending == []
      ensures lastRequest == old(lastRequest) && debounceTimeout == old(debounceTimeout)
      ensures clock == old(clock) && nextHandle == old(nextHandle)
    {
      suggestion := "";
      isLoading := false;
      if debounceTimeout.Some? {
        pending := Cancel(pending, debounceTimeout.value);
      }
    }

    /** `acceptSuggestion`: hands out the suggestion and hides it. */
    method Accept() returns (accepted: string)
      requires Valid()
      modifies this
      ensures Valid()
      ensures accepted == old(suggestion) && suggestion == ""
      ensures isLoading == old(isLoading) && pending == old(pending)
      ensures lastRequest == old(lastRequest) && debounceTimeout == old(debounceTimeout)
      ensures clock == old(clock) && nextHandle == old(nextHandle)
    {
      accepted := suggestion;
      suggestion := "";
    }
  }

  /** Typing, pausing until the query goes out, typing again, and then the reply
      to the first query arriving: the stale reply is shown, and the timer of the
      second keystroke is still pending. */
  method LateReplyIsShown() returns (shown: string, latest: Option<nat>, waiting: nat)
    ensures shown == "ld" && latest == Some(1) && waiting == 1
  {
    var hook := new Autocomplete();
    hook.RequestSuggestion("hello wor", 9);
    var scheduled := hook.pending;
    assert scheduled[0].handle == 1 && hook.lastRequest == Some(scheduled[0].requestId);
    var first := hook.Fire(1);
    assert first == Some(Query("hello wor", 9));
    hook.RequestSuggestion("hello worl", 10);
    hook.Completed(Some(SmartSuggestion(true, Some("ld"))));
    shown := hook.suggestion;
    latest := hook.lastRequest;
    waiting := |hook.pending|;
  }
}
