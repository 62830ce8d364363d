/** Stage overrides with fallbacks: which part of the chain a stage is dispatched with. */
module StageChain {
  import opened Outcomes
  import opened Text
  datatype StageOverride = StageOverride(model: string, effort: string, service: string, fallback: Option<StageOverride>)

  datatype Entry = Entry(service: string, model: string, effort: string)

  function EntryOf(o: StageOverride): Entry
  {
    Entry(o.service, o.model, o.effort)
  }

  /** The chain read as a list. */
  function Entries(o: StageOverride): (r: seq<Entry>)
    ensures r != []
  {
    [EntryOf(o)] + if o.fallback.Some? then Entries(o.fallback.value) else []
  }

  /** The chain and what is left of it at each node. */
  function Nodes(o: StageOverride): (r: seq<StageOverride>)
    ensures r != [] && r[0] == o
  {
    [o] + if o.fallback.Some? then Nodes(o.fallback.value) else []
  }

  function EntriesOf(nodes: seq<StageOverride>): (r: seq<Entry>)
    ensures |r| == |nodes| && forall i :: 0 <= i < |nodes| ==> r[i] == EntryOf(nodes[i])
  {
    if nodes == [] then [] else [EntryOf(nodes[0])] + EntriesOf(nodes[1..])
  }

  // ---------- the list specification ----------

  function OnlyConfigured(es: seq<Entry>, configured: set<string>): seq<Entry>
  {
    if es == [] then []
    else if es[0].service in configured then [es[0]] + OnlyConfigured(es[1..], configured)
    else OnlyConfigured(es[1..], configured)
  }

  function FromFirstUp(es: seq<Entry>, up: Entry -> bool): seq<Entry>
  {
    if es == [] || up(es[0]) then es else FromFirstUp(es[1..], up)
  }

  /** What a stage is dispatched with: the configured entries from the first available one on; all of them if none is
      available; the override itself if none is configured. */
  function Chosen(es: seq<Entry>, configured: set<string>, up: Entry -> bool): seq<Entry>
  {
    var cs := OnlyConfigured(es, configured);
    if cs == [] then es else if FromFirstUp(cs, up) == [] then cs else FromFirstUp(cs, up)
  }

  // ---------- the code's way ----------

  function Configured(nodes: seq<StageOverride>, configured: set<string>): seq<StageOverride>
  {
    if nodes == [] then []
    else if nodes[0].service in configured then [nodes[0]] + Configured(nodes[1..], configured)
    else Configured(nodes[1..], configured)
  }

  predicate FullyConfigured(o: StageOverride, configured: set<string>)
  {
    o.service in configured && (o.fallback.Some? ==> FullyConfigured(o.fallback.value, configured))
  }

  function NodesFrom(node: Option<StageOverride>): seq<StageOverride>
  {
    if node.Some? then Nodes(node.value) else []
  }

  lemma NodeTaken(nodes: seq<StageOverride>, node: StageOverride)
    ensures nodes + Nodes(node) == nodes + [node] + NodesFrom(node.fallback)
  {
    assert Nodes(node) == [node] + NodesFrom(node.fallback);
    Assoc(nodes, [node], NodesFrom(node.fallback));
  }

  /** pycastle's `iter_stage_chain`. */
  method IterStageChain(o: StageOverride) returns (nodes: seq<StageOverride>)
    ensures nodes == Nodes(o)
  {
    nodes := [];
    var node := Some(o);
    while node.Some?
      invariant nodes + NodesFrom(node) == Nodes(o)
      decreases node
    {
      NodeTaken(nodes, node.value);
      nodes := nodes + [node.value];
      node := node.value.fallback;
    }
  }

  /** pycastle's `_build_chain`, from the last node to the first. */
  method BuildChain(nodes: seq<StageOverride>) returns (chain: Option<StageOverride>)
    ensures chain.Some? <==> nodes != []
    ensures chain.Some? ==> Entries(chain.value) == EntriesOf(nodes)
  {
    chain := None;
    var i := |nodes|;
    while i > 0
      invariant 0 <= i <= |nodes| && (chain.Some? <==> i < |nodes|)
      invariant (if chain.Some? then Entries(chain.value) else []) == EntriesOf(nodes[i..])
    {
      i := i - 1;
      assert nodes[i..][1..] == nodes[i + 1..];
      chain := Some(StageOverride(nodes[i].model, nodes[i].effort, nodes[i].service, chain));
    }
    assert nodes[0..] == nodes;
  }

  // ---------- how the two meet ----------

  lemma {:induction false} EntriesAreNodes(o: StageOverride)
    ensures Entries(o) == EntriesOf(Nodes(o))
  {
    if o.fallback.Some? {
      EntriesAreNodes(o.fallback.value);
      assert Nodes(o)[1..] == Nodes(o.fallback.value);
    }
  }

  lemma {:induction false} ConfiguredEntries(nodes: seq<StageOverride>, configured: set<string>)
    ensures EntriesOf(Configured(nodes, configured)) == OnlyConfigured(EntriesOf(nodes), configured)
  {
    if nodes != [] {
      ConfiguredEntries(nodes[1..], configured);
      assert EntriesOf(nodes)[1..] == EntriesOf(nodes[1..]);
      if nodes[0].service in configured {
        assert Configured(nodes, configured)[1..] == Configured(nodes[1..], configured);
      }
    }
  }

  /** The nodes of a chain without anything unconfigured are its configured nodes. */
  lemma {:induction false} FullIsConfigured(o: StageOverride, configured: set<string>)
    requires FullyConfigured(o, configured)
    ensures Configured(Nodes(o), configured) == Nodes(o)
  {
    assert Nodes(o)[1..] == if o.fallback.Some? then Nodes(o.fallback.value) else [];
    if o.fallback.Some? {
      FullIsConfigured(o.fallback.value, configured);
    }
  }

  /** From the i-th configured node on, the configured nodes are those of what is left of the chain there. */
  lemma {:induction false} RestOfConfigured(o: StageOverride, configured: set<string>, i: nat)
    requires i < |Configured(Nodes(o), configured)|
    ensures
      var cs := Configured(Nodes(o), configured);
      Configured(Nodes(cs[i]), configured) == cs[i..]
  {
    var rest := if o.fallback.Some? then Nodes(o.fallback.value) else [];
    assert Nodes(o)[1..] == rest;
    if o.service in configured {
      assert Configured(Nodes(o), configured)[1..] == Configured(rest, configured);
      if i > 0 {
        RestOfConfigured(o.fallback.value, configured, i - 1);
      }
    } else {
      RestOfConfigured(o.fallback.value, configured, i);
    }
  }

  /** So handing out the node itself, when nothing unconfigured follows, gives the same entries as rebuilding. */
  lemma ReuseIsRebuild(o: StageOverride, configured: set<string>, i: nat)
    requires i < |Configured(Nodes(o), configured)| && FullyConfigured(Configured(Nodes(o), configured)[i], configured)
    ensures Entries(Configured(Nodes(o), configured)[i]) == EntriesOf(Configured(Nodes(o), configured)[i..])
  {
    var node := Configured(Nodes(o), configured)[i];
    RestOfConfigured(o, configured, i);
    FullIsConfigured(node, configured);
    EntriesAreNodes(node);
  }

  lemma {:induction false} FirstUpAt(es: seq<Entry>, up: Entry -> bool, i: nat)
    requires i <= |es| && forall j :: 0 <= j < i ==> !up(es[j])
    requires i < |es| ==> up(es[i])
    ensures FromFirstUp(es, up) == es[i..]
  {
    if i > 0 {
      FirstUpAt(es[1..], up, i - 1);
    }
  }

  lemma EntriesFrom(nodes: seq<StageOverride>, i: nat)
    requires i <= |nodes|
    ensures EntriesOf(nodes[i..]) == EntriesOf(nodes)[i..]
  {
  }

  /** pycastle's `_select_configured_candidate_chain`, for the configured nodes of an override. */
  method SelectChain(o: StageOverride, nodes: seq<StageOverride>, configured: set<string>, up: Entry -> bool)
    returns (selected: Option<StageOverride>)
    requires nodes == Configured(Nodes(o), configured)
    ensures selected.None? <==> nodes == []
    ensures selected.Some? ==> Entries(selected.value) == Chosen(Entries(o), configured, up)
  {
    if nodes == [] {
      return None;
    }
    EntriesAreNodes(o);
    ConfiguredEntries(Nodes(o), configured);
    for i := 0 to |nodes|
      invariant forall j :: 0 <= j < i ==> !up(EntryOf(nodes[j]))
    {
      if up(EntryOf(nodes[i])) {
        FirstUpAt(EntriesOf(nodes), up, i);
        EntriesFrom(nodes, i);
        if FullyConfigured(nodes[i], configured) {
          ReuseIsRebuild(o, configured, i);
          return Some(nodes[i]);
        }
        selected := BuildChain(nodes[i..]);
        return;
      }
    }
    FirstUpAt(EntriesOf(nodes), up, |nodes|);
    if FullyConfigured(nodes[0], configured) {
      ReuseIsRebuild(o, configured, 0);
      assert nodes[0..] == nodes;
      return Some(nodes[0]);
    }
    selected := BuildChain(nodes);
  }

  lemma {:induction false} OnlyConfiguredMembers(es: seq<Entry>, configured: set<string>)
    ensures forall e :: e in OnlyConfigured(es, configured) <==> e in es && e.service in configured
  {
    if es != [] {
      OnlyConfiguredMembers(es[1..], configured);
      assert es == [es[0]] + es[1..];
    }
  }

  lemma {:induction false} FromFirstUpHead(es: seq<Entry>, up: Entry -> bool)
    ensures FromFirstUp(es, up) == [] <==> forall e :: e in es ==> !up(e)
    ensures FromFirstUp(es, up) != [] ==> up(FromFirstUp(es, up)[0]) && FromFirstUp(es, up)[0] in es
  {
    if es != [] && !up(es[0]) {
      FromFirstUpHead(es[1..], up);
      assert es == [es[0]] + es[1..];
    }
  }

  /** The head of what is chosen is a configured and available entry exactly when the chain has one. */
  lemma HeadIsUpIfAny(es: seq<Entry>, configured: set<string>, up: Entry -> bool)
    requires es != []
    ensures Chosen(es, configured, up) != []
    ensures (Chosen(es, configured, up)[0].service in configured && up(Chosen(es, configured, up)[0])) <==>
            exists e :: e in es && e.service in configured && up(e)
  {
    var cs := OnlyConfigured(es, configured);
    OnlyConfiguredMembers(es, configured);
    FromFirstUpHead(cs, up);
    if cs == [] {
      assert es[0] in es;
    } else if FromFirstUp(cs, up) == [] {
      assert cs[0] in cs;
    } else {
      assert FromFirstUp(cs, up)[0] in cs;
    }
  }

  lemma {:induction false} FromFirstUpSame(es: seq<Entry>, up: Entry -> bool, up': Entry -> bool)
    requires forall e :: e in es ==> up(e) == up'(e)
    ensures FromFirstUp(es, up) == FromFirstUp(es, up')
  {
    if es != [] {
      assert es[0] in es;
      FromFirstUpSame(es[1..], up, up');
    }
  }

  /** Only the availability of configured entries matters. */
  lemma ChosenSame(es: seq<Entry>, configured: set<string>, up: Entry -> bool, up': Entry -> bool)
    requires forall e :: e in es && e.service in configured ==> up(e) == up'(e)
    ensures Chosen(es, configured, up) == Chosen(es, configured, up')
  {
    OnlyConfiguredMembers(es, configured);
    FromFirstUpSame(OnlyConfigured(es, configured), up, up');
  }

  /** These places of a chain, in order, are just those of the configured entries from the `from`-th place on. */
  ghost predicate Places(es: seq<Entry>, configured: set<string>, from: nat, at: seq<nat>)
  {
    && (forall k :: 0 <= k < |at| ==> from <= at[k] < |es| && es[at[k]].service in configured)
    && (forall k, m :: 0 <= k < m < |at| ==> at[k] < at[m])
    && (forall j :: from <= j < |es| && es[j].service in configured ==> j in at)
  }

  predicate EntriesAt(cs: seq<Entry>, es: seq<Entry>, at: seq<nat>)
  {
    |at| == |cs| && forall k :: 0 <= k < |at| ==> at[k] < |es| && cs[k] == es[at[k]]
  }

  lemma PlacesBefore(es: seq<Entry>, configured: set<string>, from: nat, rest: seq<nat>)
    requires from < |es| && Places(es, configured, from + 1, rest)
    ensures es[from].service in configured ==> Places(es, configured, from, [from] + rest)
    ensures es[from].service !in configured ==> Places(es, configured, from, rest)
  {
    assert forall j :: j in rest ==> j in [from] + rest;
    assert from in [from] + rest;
  }

  lemma EntriesBefore(cs: seq<Entry>, es: seq<Entry>, from: nat, rest: seq<nat>)
    requires from < |es| && EntriesAt(cs, es, rest)
    ensures EntriesAt([es[from]] + cs, es, [from] + rest)
  {
  }

  lemma {:induction false} ConfiguredPlaces(es: seq<Entry>, configured: set<string>, from: nat) returns (at: seq<nat>)
    requires from <= |es|
    ensures Places(es, configured, from, at) && EntriesAt(OnlyConfigured(es[from..], configured), es, at)
    decreases |es| - from
  {
    at := [];
    if from < |es| {
      var rest := ConfiguredPlaces(es, configured, from + 1);
      assert es[from..][1..] == es[from + 1..];
      PlacesBefore(es, configured, from, rest);
      EntriesBefore(OnlyConfigured(es[from + 1..], configured), es, from, rest);
      at := if es[from].service in configured then [from] + rest else rest;
    }
  }

  /** The first place from `from` on whose entry is configured and available. */
  ghost predicate FirstUpPlace(es: seq<Entry>, configured: set<string>, up: Entry -> bool, from: nat)
  {
    && from < |es| && es[from].service in configured && up(es[from])
    && forall j :: 0 <= j < from && es[j].service in configured ==> !up(es[j])
  }

  /**
   * What is chosen are configured entries in the chain's order: all those from the first available one on, all of them when none
   * is available, and the whole chain as it is when none is configured.
   */
  lemma ChosenByPlace(es: seq<Entry>, configured: set<string>, up: Entry -> bool) returns (from: nat, at: seq<nat>)
    ensures (forall e :: e in es ==> e.service !in configured) ==> Chosen(es, configured, up) == es
    ensures (exists e :: e in es && e.service in configured) ==>
              && Places(es, configured, from, at) && EntriesAt(Chosen(es, configured, up), es, at)
              && (if exists e :: e in es && e.service in configured && up(e) then FirstUpPlace(es, configured, up, from) else from == 0)
  {
    from, at := 0, [];
    OnlyConfiguredMembers(es, configured);
    NoneConfigured(es, configured);
    assert es[0..] == es;
    if exists e :: e in es && e.service in configured {
      if exists e :: e in es && e.service in configured && up(e) {
        from := FirstUpExists(es, configured, up);
        FromPlace(es, configured, up, from);
      } else {
        FromFirstUpHead(OnlyConfigured(es, configured), up);
      }
      at := ConfiguredPlaces(es, configured, from);
    }
  }

  lemma NoneConfigured(es: seq<Entry>, configured: set<string>)
    ensures OnlyConfigured(es, configured) == [] <==> forall e :: e in es ==> e.service !in configured
  {
    OnlyConfiguredMembers(es, configured);
    var cs := OnlyConfigured(es, configured);
    if cs != [] {
      assert cs[0] in cs;
    }
  }

  lemma {:induction false} FirstUpExists(es: seq<Entry>, configured: set<string>, up: Entry -> bool) returns (from: nat)
    requires exists e :: e in es && e.service in configured && up(e)
    ensures FirstUpPlace(es, configured, up, from)
  {
    if es[0].service in configured && up(es[0]) {
      from := 0;
    } else {
      var e :| e in es && e.service in configured && up(e);
      assert e in es[1..];
      var k := FirstUpExists(es[1..], configured, up);
      from := k + 1;
      assert forall j :: 1 <= j < |es| ==> es[j] == es[1..][j - 1];
    }
  }

  lemma {:induction false} FromPlace(es: seq<Entry>, configured: set<string>, up: Entry -> bool, from: nat)
    requires FirstUpPlace(es, configured, up, from)
    ensures FromFirstUp(OnlyConfigured(es, configured), up) == OnlyConfigured(es[from..], configured) != []
  {
    if from == 0 {
      assert es[0..] == es;
    } else {
      assert forall j :: 1 <= j < |es| ==> es[j] == es[1..][j - 1];
      FromPlace(es[1..], configured, up, from - 1);
      assert es[1..][from - 1..] == es[from..];
    }
  }
}
