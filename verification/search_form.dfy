/**
 * The search form: a city field with debounced autocomplete, a radius slider
 * and a submit button. The React state and the debounce timer slot are the
 * fields of a class; each handler, the timer's firing and the settling of a
 * request are methods.
 */
module SearchForm {
  import opened Wrappers

  /** The white space `String.prototype.trim` removes: ECMAScript's WhiteSpace and LineTerminator. */
  predicate IsJsWhitespace(c: char) {
    || c == '\t' || c == '\U{000B}' || c == '\U{000C}' || c == ' ' || c == '\U{00A0}' || c == '\U{FEFF}'
    || c == '\n' || c == '\r' || c == '\U{2028}' || c == '\U{2029}'
    || c == '\U{1680}' || ('\U{2000}' <= c <= '\U{200A}') || c == '\U{202F}' || c == '\U{205F}' || c == '\U{3000}'
  }

  /** The suffix left once the leading white space is removed. */
  function TrimStart(s: string): (r: string)
    ensures |r| <= |s| && r == s[|s| - |r|..]
    ensures forall k :: 0 <= k < |s| - |r| ==> IsJsWhitespace(s[k])
    ensures r != [] ==> !IsJsWhitespace(r[0])
    decreases |s|
  {
    if s != [] && IsJsWhitespace(s[0]) then TrimStart(s[1..]) else s
  }

  /** The prefix left once the trailing white space is removed. */
  function TrimEnd(s: string): (r: string)
    ensures |r| <= |s| && r == s[..|r|]
    ensures forall k :: |r| <= k < |s| ==> IsJsWhitespace(s[k])
    ensures r != [] ==> !IsJsWhitespace(r[|r| - 1])
    decreases |s|
  {
    if s != [] && IsJsWhitespace(s[|s| - 1]) then TrimEnd(s[..|s| - 1]) else s
  }

  /**
   * `s.trim()`: the part of `s` between its leading and its trailing white
   * space, which neither starts nor ends with white space.
   */
  function Trim(s: string): (r: string)
    ensures var start := |s| - |TrimStart(s)|;
      && start + |r| <= |s| && r == s[start..start + |r|]
      && (forall k :: 0 <= k < start ==> IsJsWhitespace(s[k]))
      && (forall k :: start + |r| <= k < |s| ==> IsJsWhitespace(s[k]))
    ensures r != [] ==> !IsJsWhitespace(r[0]) && !IsJsWhitespace(r[|r| - 1])
  {
    TrimEnd(TrimStart(s))
  }

  /** Every character is white space. */
  predicate AllWhitespace(s: string) {
    forall i :: 0 <= i < |s| ==> IsJsWhitespace(s[i])
  }

  lemma {:induction false} TrimStartEmpty(s: string)
    ensures TrimStart(s) == [] <==> AllWhitespace(s)
    decreases |s|
  {
    if s != [] {
      TrimStartEmpty(s[1..]);
      if IsJsWhitespace(s[0]) {
        assert AllWhitespace(s) <==> AllWhitespace(s[1..]) by {
          if AllWhitespace(s[1..]) {
            forall i | 0 <= i < |s| ensures IsJsWhitespace(s[i]) {
              if i > 0 { assert s[i] == s[1..][i - 1]; }
            }
          }
        }
      }
    }
  }

  lemma {:induction false} TrimEndEmpty(s: string)
    requires s == [] || !IsJsWhitespace(s[0])
    ensures TrimEnd(s) == [] <==> s == []
    decreases |s|
  {
    if s != [] && IsJsWhitespace(s[|s| - 1]) {
      TrimEndEmpty(s[..|s| - 1]);
    }
  }

  /** `!s.trim()` holds exactly of the strings made of white space only (the empty one included). */
  lemma TrimEmptyIffBlank(s: string)
    ensures Trim(s) == [] <==> AllWhitespace(s)
  {
    TrimEndEmpty(TrimStart(s));
    TrimStartEmpty(s);
  }

  /** Suggestions are fetched only for input of at least this many characters. */
  const MinQueryLength: nat := 2

  /** The debounce delay, in milliseconds. */
  const DebounceMs: nat := 250

  /** The radius the slider starts at, in kilometres. */
  const DefaultRadius: int := 50

  /** A pending `setTimeout`: the input value it will fetch suggestions for, and its delay. */
  datatype Timer = Timer(query: string, delayMs: nat)

  /** The arguments of a started `searchGoldLocations(location, radius)`. */
  datatype SearchRequest = SearchRequest(city: string, radius: int)

  class Form {
    var location: string
    var radius: int
    var suggestions: seq<string>
    var showSuggestions: bool
    var inputFocused: bool
    var isLoadingSuggestions: bool
    var isSearching: bool
    /** `debounceTimer.current` while its timer has not fired yet. */
    var pendingTimer: Option<Timer>
    /** The `fetchCitySuggestions` calls started by fired timers that have not settled, by query. */
    var inFlight: seq<string>

    /** Only input of two or more characters is ever scheduled or fetched. */
    predicate Valid()
      reads this
    {
      && (pendingTimer.Some? ==> |pendingTimer.value.query| >= MinQueryLength && pendingTimer.value.delayMs == DebounceMs)
      && (forall i :: 0 <= i < |inFlight| ==> |inFlight[i]| >= MinQueryLength)
    }

    /** The suggestion list is drawn. */
    predicate SuggestionListVisible()
      reads this
    {
      showSuggestions && inputFocused && |suggestions| > 0
    }

    /** The initial state: empty field, radius 50, nothing shown, pending or running. */
    constructor ()
      ensures Valid()
      ensures location == [] && radius == DefaultRadius && suggestions == []
      ensures !showSuggestions && !inputFocused && !isLoadingSuggestions && !isSearching
      ensures pendingTimer == None && inFlight == []
    {
      location := [];
      radius := DefaultRadius;
      suggestions := [];
      showSuggestions := false;
      inputFocused := false;
      isLoadingSuggestions := false;
      isSearching := false;
      pendingTimer := None;
      inFlight := [];
    }

    /**
     * `handleInputChange`: the field takes the value; the pending timer is
     * cancelled (and returned); input of two or more characters turns the
     * spinner on and schedules a fetch for that value, shorter input clears
     * and hides the suggestions and leaves the spinner as it was.
     */
    method InputChange(value: string) returns (cancelled: Option<Timer>)
      requires Valid()
      modifies this
      ensures Valid()
      ensures location == value
      ensures cancelled == old(pendingTimer)
      ensures |value| >= MinQueryLength ==>
        && pendingTimer == Some(Timer(value, DebounceMs)) && isLoadingSuggestions
        && suggestions == old(suggestions) && showSuggestions == old(showSuggestions)
      ensures |value| < MinQueryLength ==>
        && pendingTimer == None && suggestions == [] && !showSuggestions && !SuggestionListVisible()
        && isLoadingSuggestions == old(isLoadingSuggestions)
      ensures inFlight == old(inFlight) && radius == old(radius)
      ensures inputFocused == old(inputFocused) && isSearching == old(isSearching)
    {
      location := value;
      cancelled := pendingTimer;
      pendingTimer := None;
      if |value| >= MinQueryLength {
        isLoadingSuggestions := true;
        pendingTimer := Some(Timer(value, DebounceMs));
      } else {
        suggestions := [];
        showSuggestions := false;
      }
    }

    /** The pending timer fires: its callback starts fetching suggestions for the value it captured. */
    method TimerFires() returns (fetch: Option<string>)
      requires Valid()
      modifies this
      ensures Valid()
      ensures fetch == if old(pendingTimer).Some? then Some(old(pendingTimer).value.query) else None
      ensures pendingTimer == None
      ensures inFlight == old(inFlight) + if fetch.Some? then [fetch.value] else []
      ensures location == old(location) && radius == old(radius) && suggestions == old(suggestions)
      ensures showSuggestions == old(showSuggestions) && inputFocused == old(inputFocused)
      ensures isLoadingSuggestions == old(isLoadingSuggestions) && isSearching == old(isSearching)
    {
      fetch := None;
      if pendingTimer.Some? {
        fetch := Some(pendingTimer.value.query);
        inFlight := inFlight + [pendingTimer.value.query];
        pendingTimer := None;
      }
    }

    /**
     * The `k`-th running fetch settles: with the cities it returned, or `None`
     * when it failed. Success replaces and shows the suggestions; either way
     * the `finally` turns the spinner off.
     */
    method FetchSettles(k: nat, cities: Option<seq<string>>)
      requires Valid()
      requires k < |inFlight|
      modifies this
      ensures Valid()
      ensures inFlight == old(inFlight[..k] + inFlight[k + 1..])
      ensures !isLoadingSuggestions
      ensures cities.Some? ==> suggestions == cities.value && showSuggestions
      ensures cities.None? ==> suggestions == old(suggestions) && showSuggestions == old(showSuggestions)
      ensures location == old(location) && radius == old(radius) && pendingTimer == old(pendingTimer)
      ensures inputFocused == old(inputFocused) && isSearching == old(isSearching)
    {
      ghost var before := inFlight;
      inFlight := inFlight[..k] + inFlight[k + 1..];
      assert forall i :: 0 <= i < |inFlight| ==> inFlight[i] in before;
      if cities.Some? {
        suggestions := cities.value;
        showSuggestions := true;
      }
      isLoadingSuggestions := false;
    }

    /** `handleSuggestionClick(city)`: the field takes the city and the list is emptied and hidden. */
    method SuggestionClick(city: string)
      requires Valid()
      modifies this
      ensures Valid()
      ensures location == city && suggestions == [] && !showSuggestions && !SuggestionListVisible()
      ensures radius == old(radius) && inputFocused == old(inputFocused) && isLoadingSuggestions == old(isLoadingSuggestions)
      ensures isSearching == old(isSearching) && pendingTimer == old(pendingTimer) && inFlight == old(inFlight)
    {
      location := city;
      suggestions := [];
      showSuggestions := false;
    }

    /**
     * `handleSubmit`: nothing happens when the trimmed field is empty or a
     * search is running; otherwise the list is hidden and a search for the
     * field's text and the radius starts.
     */
    method Submit() returns (request: Option<SearchRequest>)
      requires Valid()
      modifies this
      ensures Valid()
      ensures Trim(old(location)) == [] || old(isSearching) ==>
        request == None && showSuggestions == old(showSuggestions) && isSearching == old(isSearching)
      ensures Trim(old(location)) != [] && !old(isSearching) ==>
        request == Some(SearchRequest(location, radius)) && !showSuggestions && isSearching && !SuggestionListVisible()
      ensures location == old(location) && radius == old(radius) && suggestions == old(suggestions)
      ensures inputFocused == old(inputFocused) && isLoadingSuggestions == old(isLoadingSuggestions)
      ensures pendingTimer == old(pendingTimer) && inFlight == old(inFlight)
    {
      if Trim(location) == [] || isSearching {
        return None;
      }
      showSuggestions := false;
      isSearching := true;
      request := Some(SearchRequest(location, radius));
    }

    /** The running search settles, whether it succeeded or threw: the `finally` clears `isSearching`. */
    method SearchSettles()
      requires Valid()
      modifies this`isSearching
      ensures Valid()
      ensures !isSearching
    {
      isSearching := false;
    }

    /** `handleRadiusChange`: the slider's value, already read as a number. */
    method RadiusChange(value: int)
      requires Valid()
      modifies this`radius
      ensures Valid()
      ensures radius == value
    {
      radius := value;
    }

    /** The field gains focus. */
    method Focus()
      requires Valid()
      modifies this`inputFocused
      ensures Valid()
      ensures inputFocused
    {
      inputFocused := true;
    }

    /** The timer that `onBlur` schedules fires: the field counts as unfocused and the list is no longer drawn. */
    method BlurSettles()
      requires Valid()
      modifies this`inputFocused
      ensures Valid()
      ensures !inputFocused && !SuggestionListVisible()
    {
      inputFocused := false;
    }

    /**
     * A burst of keystrokes with no pause of 250 ms, then the pause: the
     * pending timer fires once and a second firing finds nothing. From any
     * state, the burst adds at most one fetch: for the last value, and only
     * when it has two or more characters. An empty burst only lets the timer
     * that was already pending fire.
     */
    method TypeAndWait(values: seq<string>) returns (fetches: seq<string>)
      requires Valid()
      modifies this
      ensures Valid()
      ensures inFlight == old(inFlight) + fetches && pendingTimer == None
      ensures values != [] ==>
        && location == values[|values| - 1]
        && fetches == if |values[|values| - 1]| >= MinQueryLength then [values[|values| - 1]] else []
      ensures values == [] ==>
        fetches == if old(pendingTimer).Some? then [old(pendingTimer).value.query] else []
      ensures radius == old(radius) && isSearching == old(isSearching) && inputFocused == old(inputFocused)
      ensures values != [] && |values[|values| - 1]| >= MinQueryLength ==> isLoadingSuggestions
      ensures values != [] && |values[|values| - 1]| < MinQueryLength ==> suggestions == [] && !showSuggestions
      ensures values == [] ==>
        && location == old(location) && suggestions == old(suggestions) && showSuggestions == old(showSuggestions)
        && isLoadingSuggestions == old(isLoadingSuggestions)
    {
      var i := 0;
      while i < |values|
        invariant 0 <= i <= |values|
        invariant Valid() && inFlight == old(inFlight)
        invariant radius == old(radius) && isSearching == old(isSearching) && inputFocused == old(inputFocused)
        invariant i == 0 ==> pendingTimer == old(pendingTimer)
        invariant i == 0 ==>
          && location == old(location) && suggestions == old(suggestions) && showSuggestions == old(showSuggestions)
          && isLoadingSuggestions == old(isLoadingSuggestions)
        invariant i > 0 && |values[i - 1]| >= MinQueryLength ==> isLoadingSuggestions
        invariant i > 0 && |values[i - 1]| < MinQueryLength ==> suggestions == [] && !showSuggestions
        invariant i > 0 ==>
          && location == values[i - 1]
          && pendingTimer == if |values[i - 1]| >= MinQueryLength then Some(Timer(values[i - 1], DebounceMs)) else None
      {
        var _ := InputChange(values[i]);
        i := i + 1;
      }
      var first := TimerFires();
      var second := TimerFires();
      assert second == None;
      fetches := if first.Some? then [first.value] else [];
    }
  }

  /**
   * From a fresh form, a burst of keystrokes fetches once, for the last value
   * and only when it has two or more characters.
   */
  method KeystrokeBurst(values: seq<string>) returns (fetches: seq<string>)
    ensures values == [] ==> fetches == []
    ensures values != [] ==>
      fetches == if |values[|values| - 1]| >= MinQueryLength then [values[|values| - 1]] else []
  {
    var form := new Form();
    fetches := form.TypeAndWait(values);
  }

  /**
   * After "ab" and then "a", the spinner is still on although no timer is
   * pending and no fetch runs: the short-input branch leaves it as it was.
   */
  method ShortInputKeepsSpinner() returns (loading: bool, pending: bool, running: nat)
    ensures loading && !pending && running == 0
  {
    var form := new Form();
    var _ := form.InputChange("ab");
    var _ := form.InputChange("a");
    loading, pending, running := form.isLoadingSuggestions, form.pendingTimer.Some?, |form.inFlight|;
  }
}
