/** The provenance tree view (src/components/ProvenanceTree.tsx): the main
    timeline with the components branching off it, and the per-component
    expansion state that a click on a branch drives. The state is a map from
    component name to an entry; clicking either collapses an expanded entry,
    re-opens one whose detailed history is already cached, or starts a fetch
    whose outcome later settles the entry. */
module ProvenanceTree {
  import opened Wrappers
  import opened Types
  import opened Seqs

  /** One value of `ExpandedState`; `history == None` is an absent key. */
  datatype Entry = Entry(loading: bool, expanded: bool, history: Option<seq<TimelineEvent>>)

  /** `expandedComponents[name]`, which is `undefined` for an unknown name. */
  function Lookup(m: map<string, Entry>, name: string): Option<Entry>
  {
    if name in m then Some(m[name]) else None
  }

  /** The entry as the fetch branch leaves it while the request is out. */
  const LOADING: Entry := Entry(true, false, None)

  /** The click handler's synchronous part: the new map, and whether it goes
      on to call `onExpandComponent`. An expanded entry collapses; an entry
      with a cached history opens again; anything else starts loading. */
  function Toggle(m: map<string, Entry>, name: string): (r: (map<string, Entry>, bool))
    ensures r.0.Keys == m.Keys + {name}
    ensures forall k :: k in m && k != name ==> r.0[k] == m[k]
    ensures name in m && m[name].expanded ==> r == (m[name := m[name].(expanded := false)], false)
    ensures name in m && !m[name].expanded && m[name].history.Some? ==>
              r == (m[name := m[name].(expanded := true)], false)
    ensures r.1 <==> Lookup(m, name).None? || (!m[name].expanded && m[name].history.None?)
    ensures r.1 ==> r.0[name] == LOADING
  {
    var current := Lookup(m, name);
    if current.Some? && current.value.expanded then
      (m[name := current.value.(expanded := false)], false)
    else if current.Some? && current.value.history.Some? then
      (m[name := current.value.(expanded := true)], false)
    else
      (m[name := LOADING], true)
  }

  /** The asynchronous part: `fetched` is the history the request delivered,
      or `None` when it threw. Success opens the entry on that history;
      failure closes it with nothing cached. */
  function Resolve(m: map<string, Entry>, name: string, fetched: Option<seq<TimelineEvent>>): (r: map<string, Entry>)
    ensures r.Keys == m.Keys + {name}
    ensures forall k :: k in m && k != name ==> r[k] == m[k]
    ensures r[name] == if fetched.Some? then Entry(false, true, fetched) else Entry(false, false, None)
  {
    m[name := if fetched.Some? then Entry(false, true, fetched) else Entry(false, false, None)]
  }

  /** The shapes an entry can take under these transitions: a loading entry is
      closed and holds nothing, and an open entry holds a history. */
  predicate WellFormed(e: Entry)
  {
    (e.loading ==> !e.expanded && e.history.None?) && (e.expanded ==> e.history.Some?)
  }

  predicate AllWellFormed(m: map<string, Entry>)
  {
    forall k :: k in m ==> WellFormed(m[k])
  }

  /** Clicks and settled fetches keep every entry in one of the shapes above. */
  lemma TransitionsKeepWellFormed(m: map<string, Entry>, name: string, fetched: Option<seq<TimelineEvent>>)
    requires AllWellFormed(m)
    ensures AllWellFormed(Toggle(m, name).0)
    ensures AllWellFormed(Resolve(m, name, fetched))
    ensures !Toggle(m, name).1 ==> !Toggle(m, name).0[name].loading
  {
  }

  /** Once a history is cached, two clicks in a row give back the map they
      started from, and neither of them fetches. */
  lemma {:induction false} ToggleTwiceWithCache(m: map<string, Entry>, name: string)
    requires name in m && m[name].history.Some?
    ensures !Toggle(m, name).1 && !Toggle(Toggle(m, name).0, name).1
    ensures Toggle(Toggle(m, name).0, name).0 == m
    ensures Toggle(Toggle(m, name).0, name).0[name].expanded == m[name].expanded
  {
    var once := Toggle(m, name).0;
    assert once[name] == m[name].(expanded := !m[name].expanded);
    var twice := Toggle(once, name).0;
    assert twice[name] == m[name];
    assert twice.Keys == m.Keys;
  }

  /** A click while a fetch is out finds no cached history and fetches again:
      nothing guards against a second request. */
  lemma ClickWhileLoadingFetchesAgain(m: map<string, Entry>, name: string)
    requires Toggle(m, name).1
    ensures Toggle(Toggle(m, name).0, name) == Toggle(m, name)
  {
    var once := Toggle(m, name).0;
    assert once[name := LOADING] == once;
  }

  /** A failed fetch leaves the entry so that the next click tries again,
      while a successful one is re-used by the next two clicks. */
  lemma {:induction false} AfterFetch(m: map<string, Entry>, name: string, fetched: Option<seq<TimelineEvent>>)
    ensures fetched.None? ==> Toggle(Resolve(m, name, fetched), name).1
    ensures fetched.Some? ==>
              var r := Resolve(m, name, fetched);
              !Toggle(r, name).1 && !Toggle(Toggle(r, name).0, name).1 && Toggle(Toggle(r, name).0, name).0 == r
  {
    if fetched.Some? {
      ToggleTwiceWithCache(Resolve(m, name, fetched), name);
    }
  }

  /** `result.components || []`: results from before components existed
      have none. */
  function ComponentList(components: Option<seq<Component>>): seq<Component>
  {
    components.GetOr([])
  }

  /** `getComponentsAtYear`: exactly the components that branch from `year`,
      in their original order. */
  function ComponentsAtYear(components: Option<seq<Component>>, year: string): (r: seq<Component>)
    ensures forall c :: c in r <==> c in ComponentList(components) && c.connectsAtYear == year
    ensures forall c :: multiset(r)[c] == if c.connectsAtYear == year then multiset(ComponentList(components))[c] else 0
    ensures IsSubsequence(r, ComponentList(components))
  {
    var p := (c: Component) => c.connectsAtYear == year;
    FilterExact(p, ComponentList(components));
    Filter(p, ComponentList(components))
  }

  lemma SmallRemainder(x: int, b: int)
    requires 0 <= x && 0 < b
    ensures x < b ==> x % b == x
  {
  }

  /** JavaScript's `%` for a positive divisor: the remainder takes the sign of
      the dividend. */
  function JsRem(a: int, b: int): (r: int)
    requires b > 0
    ensures 0 <= a ==> 0 <= r < b
    ensures a < 0 ==> -b < r <= 0
    ensures 0 <= a ==> r == a % b
    ensures -b < a < b ==> r == a
  {
    var magnitude := if 0 <= a then a else -a;
    SmallRemainder(magnitude, b);
    if 0 <= a then magnitude % b else -(magnitude % b)
  }

  /** `components.indexOf(component) % BRANCH_COLORS.length`: the palette
      position of a branch; -1 (no colour) for a component not in the list. */
  function ColorIndex(components: seq<Component>, c: Component): (i: int)
    ensures c in components ==> 0 <= i < |BRANCH_COLORS|
    ensures c !in components ==> i == -1
  {
    JsRem(IndexOf(components, c), |BRANCH_COLORS|)
  }

  /** Every branch the tree draws for a year gets a colour of the palette. */
  lemma ColorOfBranch(components: Option<seq<Component>>, year: string, c: Component)
    requires c in ComponentsAtYear(components, year)
    ensures 0 <= ColorIndex(ComponentList(components), c) < |BRANCH_COLORS|
  {
  }

  /** The colours cycle with the position in the component list: the first
      occurrence of a component at position `i` gets colour `i mod 5`, so
      five distinct neighbours get five distinct colours. */
  lemma ColorCycles(components: seq<Component>, i: nat)
    requires i < |components| && components[i] !in components[..i]
    ensures ColorIndex(components, components[i]) == i % |BRANCH_COLORS|
  {
  }

  /** `displayHistory`: the fetched history while the entry is open and has
      one, the component's own short history otherwise. */
  function DisplayHistory(entry: Option<Entry>, component: Component): (h: seq<TimelineEvent>)
    ensures h == component.history || (entry.Some? && entry.value.history == Some(h))
  {
    if entry.Some? && entry.value.expanded && entry.value.history.Some? then entry.value.history.value
    else component.history
  }

  /** What a branch shows after each transition: the fetched history after a
      successful fetch and after re-opening, the component's own history
      while loading, after a failure and after collapsing. */
  lemma DisplayAfterTransitions(m: map<string, Entry>, c: Component, fetched: Option<seq<TimelineEvent>>)
    ensures fetched.Some? ==> DisplayHistory(Lookup(Resolve(m, c.name, fetched), c.name), c) == fetched.value
    ensures fetched.None? ==> DisplayHistory(Lookup(Resolve(m, c.name, fetched), c.name), c) == c.history
    ensures Toggle(m, c.name).1 ==> DisplayHistory(Lookup(Toggle(m, c.name).0, c.name), c) == c.history
    ensures c.name in m && m[c.name].expanded ==> DisplayHistory(Lookup(Toggle(m, c.name).0, c.name), c) == c.history
    ensures c.name in m && !m[c.name].expanded && m[c.name].history.Some? ==>
              DisplayHistory(Lookup(Toggle(m, c.name).0, c.name), c) == m[c.name].history.value
  {
  }

  /** The component's state held by the tree (`useState<ExpandedState>`). */
  class ExpansionState {
    var expandedComponents: map<string, Entry>

    constructor()
      ensures expandedComponents == map[]
    {
      expandedComponents := map[];
    }

    /** `handleExpandComponent` up to the `await`; `fetching` says whether it
        called `onExpandComponent(componentName)`. */
    method HandleExpandComponent(componentName: string) returns (fetching: bool)
      modifies this
      ensures (expandedComponents, fetching) == Toggle(old(expandedComponents), componentName)
      ensures AllWellFormed(old(expandedComponents)) ==> AllWellFormed(expandedComponents)
    {
      var current := Lookup(expandedComponents, componentName);
      if current.Some? && current.value.expanded {
        expandedComponents := expandedComponents[componentName := current.value.(expanded := false)];
        return false;
      }
      if current.Some? && current.value.history.Some? {
        expandedComponents := expandedComponents[componentName := current.value.(expanded := true)];
        return false;
      }
      expandedComponents := expandedComponents[componentName := LOADING];
      fetching := true;
    }

    /** `handleExpandComponent` after the `await`: `fetched` is the history
        returned, or `None` when the call threw. */
    method CompleteExpansion(componentName: string, fetched: Option<seq<TimelineEvent>>)
      modifies this
      ensures expandedComponents == Resolve(old(expandedComponents), componentName, fetched)
      ensures AllWellFormed(old(expandedComponents)) ==> AllWellFormed(expandedComponents)
    {
      if fetched.Some? {
        expandedComponents := expandedComponents[componentName := Entry(false, true, fetched)];
      } else {
        expandedComponents := expandedComponents[componentName := Entry(false, false, None)];
      }
    }
  }
}
