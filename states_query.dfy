/**
 * The top-level `states(name)` query: the list of US states from the statistics
 * API, memoised in one process-wide variable and filtered by a case-insensitive
 * name prefix.
 */
module StatesQuery {
  import opened Wrappers

  /** One geography record as the API lists it. */
  datatype State = State(id: string, key: string, name: string, slug: string)

  /** `toLowerCase` on one character, ASCII letters only. */
  function LowerChar(c: char): char
  {
    if 'A' <= c <= 'Z' then (c as int - 'A' as int + 'a' as int) as char else c
  }

  /** `s.toLowerCase()`, ASCII letters only. */
  function ToLower(s: string): string
  {
    seq(|s|, i requires 0 <= i < |s| => LowerChar(s[i]))
  }

  /** Lower-casing a lower-cased string changes nothing. */
  lemma ToLowerIdempotent(s: string)
    ensures ToLower(ToLower(s)) == ToLower(s)
  {
    assert forall i :: 0 <= i < |s| ==> LowerChar(LowerChar(s[i])) == LowerChar(s[i]);
  }

  /** `s.startsWith(prefix)`, compared character by character. */
  function StartsWith(s: string, prefix: string): (r: bool)
    ensures r <==> |prefix| <= |s| && s[..|prefix|] == prefix
  {
    if prefix == [] then true
    else if s == [] || s[0] != prefix[0] then false
    else
      assert |prefix| <= |s| ==> s[..|prefix|] == [s[0]] + s[1..][..|prefix| - 1];
      assert prefix == [prefix[0]] + prefix[1..];
      StartsWith(s[1..], prefix[1..])
  }

  /** JavaScript truthiness of the optional `name` argument: absent, null and "" are falsy. */
  predicate Truthy(name: Option<string>)
  {
    name.Some? && name.value != ""
  }

  /**
   * The filter callback `state.name.toLowerCase().startsWith(name.toLowerCase())`:
   * the filter, lower-cased, is a prefix of the lower-cased state name.
   */
  predicate NameMatches(st: State, filter: string)
    ensures NameMatches(st, filter) <==>
      |filter| <= |st.name| && ToLower(st.name)[..|filter|] == ToLower(filter)
  {
    StartsWith(ToLower(st.name), ToLower(filter))
  }

  /** `states.filter(state => NameMatches(state, filter))`. */
  function FilterByName(states: seq<State>, filter: string): (r: seq<State>)
    ensures |r| <= |states|
    ensures forall s :: multiset(r)[s] == (if NameMatches(s, filter) then multiset(states)[s] else 0)
  {
    if states == [] then []
    else
      assert states == [states[0]] + states[1..];
      (if NameMatches(states[0], filter) then [states[0]] else []) + FilterByName(states[1..], filter)
  }

  /** Filtering keeps the source order: it distributes over concatenation. */
  lemma {:induction false} FilterByNameAppend(a: seq<State>, b: seq<State>, filter: string)
    ensures FilterByName(a + b, filter) == FilterByName(a, filter) + FilterByName(b, filter)
  {
    if a == [] {
      assert a + b == b;
    } else {
      var h := if NameMatches(a[0], filter) then [a[0]] else [];
      assert (a + b)[1..] == a[1..] + b;
      FilterByNameAppend(a[1..], b, filter);
      calc {
        FilterByName(a + b, filter);
        h + FilterByName(a[1..] + b, filter);
        h + (FilterByName(a[1..], filter) + FilterByName(b, filter));
        (h + FilterByName(a[1..], filter)) + FilterByName(b, filter);
      }
    }
  }

  /** The empty filter matches every state, so the `if (name)` guard changes no result. */
  lemma {:induction false} EmptyFilterKeepsAll(states: seq<State>)
    ensures FilterByName(states, "") == states
  {
    if states != [] {
      EmptyFilterKeepsAll(states[1..]);
    }
  }

  /** The filter's own case does not matter: it is lower-cased before comparing. */
  lemma {:induction false} FilterIgnoresFilterCase(states: seq<State>, filter: string)
    ensures FilterByName(states, ToLower(filter)) == FilterByName(states, filter)
  {
    ToLowerIdempotent(filter);
    if states != [] {
      FilterIgnoresFilterCase(states[1..], filter);
    }
  }

  /** The list a call returns, given the list it works from. */
  function StatesResult(states: seq<State>, name: Option<string>): seq<State>
  {
    if Truthy(name) then FilterByName(states, name.value) else states
  }

  const Virginia := State("04000US51", "virginia", "Virginia", "virginia")
  const WestVirginia := State("04000US54", "west-virginia", "West Virginia", "west-virginia")
  const Vermont := State("04000US50", "vermont", "Vermont", "vermont")

  lemma VirgMatches()
    ensures NameMatches(Virginia, "Virg")
    ensures !NameMatches(WestVirginia, "Virg") && !NameMatches(Vermont, "Virg")
  {
    var f := ToLower("Virg");
    assert f == "virg" by {
      assert |f| == 4 && f[0] == 'v' && f[1] == 'i' && f[2] == 'r' && f[3] == 'g';
    }
    var n := ToLower(Virginia.name);
    assert n[..4] == "virg" by {
      assert n[0] == 'v' && n[1] == 'i' && n[2] == 'r' && n[3] == 'g';
    }
    assert ToLower(WestVirginia.name)[0] == 'w';
    assert ToLower(Vermont.name)[1] == 'e';
  }

  /** `states(name: "Virg")` keeps Virginia and drops West Virginia and Vermont. */
  lemma VirginiaExample()
    ensures StatesResult([Virginia, WestVirginia, Vermont], Some("Virg")) == [Virginia]
  {
    VirgMatches();
    var all := [Virginia, WestVirginia, Vermont];
    assert all[1..] == [WestVirginia, Vermont] && all[1..][1..] == [Vermont] && all[1..][1..][1..] == [];
    assert FilterByName(all[1..][1..], "Virg") == [];
    assert FilterByName(all[1..], "Virg") == [];
  }

  /** The resolver of `Query.states` together with the module-level `states` variable. */
  class StatesResolver {
    /** `let states: State[] | null`; any array, even an empty one, is truthy. */
    var states: Option<seq<State>>

    constructor ()
      ensures states == None
    {
      states := None;
    }

    /**
     * One call of the resolver. `fetched` is what the upstream search endpoint would
     * return; it is consulted only when nothing is cached, which `fetchedUpstream`
     * reports. The cache is written only by an unfiltered miss and never changes after.
     */
    method Query(name: Option<string>, fetched: seq<State>) returns (r: seq<State>, fetchedUpstream: bool)
      modifies this
      ensures fetchedUpstream <==> old(states).None?
      ensures old(states).Some? ==> states == old(states) && r == StatesResult(old(states).value, name)
      ensures old(states).None? && Truthy(name) ==> states == None && r == FilterByName(fetched, name.value)
      ensures old(states).None? && !Truthy(name) ==> states == Some(fetched) && r == fetched
    {
      if states.Some? {
        fetchedUpstream := false;
        if Truthy(name) {
          r := FilterByName(states.value, name.value);
          return;
        }
        r := states.value;
      } else {
        fetchedUpstream := true;
        if Truthy(name) {
          r := FilterByName(fetched, name.value);
          return;
        }
        states := Some(fetched);
        r := fetched;
      }
    }
  }

  /**
   * Two identical queries after the list has been cached return the same list and
   * neither reaches the upstream API, whatever it would now answer.
   */
  method RepeatedQuery(name: Option<string>, first: seq<State>, later1: seq<State>, later2: seq<State>)
    returns (r1: seq<State>, r2: seq<State>, upstream1: bool, upstream2: bool)
    ensures r1 == r2 == StatesResult(first, name)
    ensures !upstream1 && !upstream2
  {
    var resolver := new StatesResolver();
    var _, _ := resolver.Query(None, first);
    r1, upstream1 := resolver.Query(name, later1);
    r2, upstream2 := resolver.Query(name, later2);
  }
}
