/**
 * Organisation settings, the members' own diffs over them, and the keys private to one
 * member: `SaasSettingsStore.load` / `store`, the broadcast to all members, and the
 * recursive JSON merge they are built from.
 */
module SettingsMerge {
  import opened Prelude

  /** Strings, numbers, booleans and lists are all replaced as a whole: one kind of leaf. */
  datatype Json = Null | Atom(text: string) | Obj(fields: map<string, Json>)

  type Object = j: Json | j.Obj? witness Obj(map[])

  /** `deep_merge`: objects merge, null removes the key, anything else overwrites. */
  function Merge(base: Object, updates: Object): Object
    decreases updates
  {
    var b, u := base.fields, updates.fields;
    Obj(map k | k in b.Keys + u.Keys && (k in u ==> !u[k].Null?) ::
      if k !in u then b[k]
      else if u[k].Obj? && k in b && b[k].Obj? then Merge(b[k], u[k])
      else u[k])
  }

  /** The loop of `deep_merge` over the update's items computes `Merge`. */
  method DeepMerge(base: Object, updates: Object) returns (result: Object)
    ensures result == Merge(base, updates)
    decreases updates
  {
    result := base;
    var todo := updates.fields.Keys;
    while todo != {}
      invariant todo <= updates.fields.Keys
      invariant forall k :: k in result.fields <==>
        if k in updates.fields && k !in todo then !updates.fields[k].Null? else k in base.fields
      invariant forall k | k in result.fields ::
        result.fields[k] == if k in updates.fields && k !in todo then Merge(base, updates).fields[k] else base.fields[k]
      decreases todo
    {
      var key :| key in todo;
      var value := updates.fields[key];
      if value.Null? {
        result := Obj(result.fields - {key});
      } else if value.Obj? && key in result.fields && result.fields[key].Obj? {
        var nested := DeepMerge(result.fields[key], value);
        result := Obj(result.fields[key := nested]);
      } else {
        result := Obj(result.fields[key := value]);
      }
      todo := todo - {key};
    }
    assert result.fields == Merge(base, updates).fields;
  }

  /** `MEMBER_PRIVATE_AGENT_KEYS`, which are also the wholesale replacement keys. */
  const PRIVATE_KEYS: set<string> := {"mcp_config", "acp_env"}

  function Only(o: Object, keys: set<string>): Object { Obj(map k | k in o.fields && k in keys :: o.fields[k]) }

  function Without(o: Object, keys: set<string>): Object { Obj(o.fields - keys) }

  /** `deep_merge_with_wholesale_keys`: private keys present in the update win as they are. */
  function MergeWholesale(base: Object, updates: Object): Object {
    Obj(Merge(base, updates).fields + Only(updates, PRIVATE_KEYS).fields)
  }

  // -------------------------------------------------------------- store and load

  datatype Org = Org(agent: Object, conversation: Object, llmApiKey: Option<string>)
  datatype Member = Member(agentDiff: Object, conversationDiff: Object, llmApiKey: Option<string>, customKey: bool)

  /** The settings item a member saves; `managed` is `uses_managed_llm_key`. */
  datatype Item = Item(agent: Object, conversation: Object, managed: bool, llmApiKey: Option<string>)

  datatype State = State(org: Org, members: map<string, Member>)

  /** The two halves of `_split_member_private_keys`. */
  function Shared(item: Item): Object { Without(item.agent, PRIVATE_KEYS) }

  function Own(item: Item): Object { Only(item.agent, PRIVATE_KEYS) }

  /** What the broadcast does to one member. */
  function Broadcast(m: Member, item: Item): Member {
    Member(
      MergeWholesale(m.agentDiff, Shared(item)),
      Merge(m.conversationDiff, item.conversation),
      if !item.managed && item.llmApiKey.Some? then item.llmApiKey else m.llmApiKey,
      m.customKey)
  }

  /** What the rest of `store` does to the acting member. */
  function Personal(m: Member, org: Org, item: Item): Member {
    var diff := MergeWholesale(m.agentDiff, Own(item));
    var m' := m.(agentDiff := diff);
    if item.llmApiKey.Some? then m'.(llmApiKey := item.llmApiKey, customKey := !item.managed)
    else if org.llmApiKey.Some? then m'.(customKey := false)
    else m'
  }

  function StoredOrg(org: Org, item: Item): Org {
    org.(agent := MergeWholesale(Without(org.agent, PRIVATE_KEYS), Shared(item)),
         conversation := Merge(org.conversation, item.conversation))
  }

  /** `store` by `actor`; someone who is not a member stores nothing. */
  function AfterStore(s: State, actor: string, item: Item): State {
    if actor !in s.members then s
    else
      var told := map b | b in s.members :: Broadcast(s.members[b], item);
      State(StoredOrg(s.org, item), told[actor := Personal(told[actor], s.org, item)])
  }

  datatype View = View(agent: Object, conversation: Object)
  datatype LoadResult = NotAMember | TypeError | Loaded(view: View)

  function EffectiveKey(org: Org, m: Member): Option<string> {
    if m.customKey then m.llmApiKey
    else if org.llmApiKey.Some? then org.llmApiKey else m.llmApiKey
  }

  function MergedAgent(org: Org, m: Member): Object { Merge(Without(org.agent, PRIVATE_KEYS), m.agentDiff) }

  /** `load`: org defaults without private keys, the member's diff, then the effective key. */
  function Load(s: State, who: string): LoadResult {
    if who !in s.members then NotAMember
    else
      var m := s.members[who];
      var conversation := Merge(s.org.conversation, m.conversationDiff);
      var agent := MergedAgent(s.org, m);
      var key := EffectiveKey(s.org, m);
      var llm := if "llm" in agent.fields then agent.fields["llm"] else Obj(map[]);
      if key.None? then Loaded(View(agent, conversation))
      else if !llm.Obj? then TypeError
      else Loaded(View(Obj(agent.fields["llm" := Obj(llm.fields["api_key" := Atom(key.value)])]), conversation))
  }

  // ---------------------------------------------------------- paths through objects

  /** What sits at a non-empty path. */
  function At(o: Object, path: seq<string>): Option<Json>
    requires path != []
    decreases |path|
  {
    var k, rest := path[0], path[1..];
    if k !in o.fields then None
    else if rest == [] then Some(o.fields[k])
    else if o.fields[k].Obj? then At(o.fields[k], rest)
    else None
  }

  /** The value at a leaf; null and absent both read as "unset". */
  function Leaf(o: Object, path: seq<string>): Option<string>
    requires path != []
  {
    var j := At(o, path);
    if j.Some? && j.value.Atom? then Some(j.value.text) else None
  }

  predicate IsLeaf(o: Object, path: seq<string>) {
    path != [] && At(o, path).Some? && !At(o, path).value.Obj?
  }

  predicate Unset(o: Object, path: seq<string>)
    requires path != []
  {
    At(o, path).None? || At(o, path).value.Null?
  }

  /** A null leaf of the update leaves the result unset there. */
  lemma {:induction false} MergeClearsLeaf(base: Object, updates: Object, path: seq<string>)
    requires path != [] && At(updates, path) == Some(Null)
    ensures Unset(Merge(base, updates), path)
    decreases |path|
  {
    var k, rest := path[0], path[1..];
    if rest != [] && k in base.fields && base.fields[k].Obj? {
      MergeClearsLeaf(base.fields[k], updates.fields[k], rest);
    }
  }

  /** What is unset on both sides stays unset. */
  lemma {:induction false} MergeKeepsUnset(base: Object, updates: Object, path: seq<string>)
    requires path != [] && Unset(base, path) && Unset(updates, path)
    ensures Unset(Merge(base, updates), path)
    decreases |path|
  {
    var k, rest := path[0], path[1..];
    if rest != [] && k in updates.fields && updates.fields[k].Obj? && k in base.fields && base.fields[k].Obj? {
      MergeKeepsUnset(base.fields[k], updates.fields[k], rest);
    }
  }

  /** A null merged into both layers removes the path: no object is left there either. */
  lemma NullClearsBothLayers(lower: Object, upper: Object, updates: Object, path: seq<string>)
    requires path != [] && At(updates, path) == Some(Null)
    ensures Unset(Merge(Merge(lower, updates), Merge(upper, updates)), path)
  {
    MergeClearsLeaf(lower, updates, path);
    MergeClearsLeaf(upper, updates, path);
    MergeKeepsUnset(Merge(lower, updates), Merge(upper, updates), path);
  }

  // ---------------------------------------------- which leaf a merge shows, at every path

  /** The update says something about the path: a value at it, or a non-object above it. */
  predicate Covers(u: Object, path: seq<string>)
    requires path != []
    decreases |path|
  {
    var k, rest := path[0], path[1..];
    k in u.fields && (rest == [] || !u.fields[k].Obj? || Covers(u.fields[k], rest))
  }

  /** A merge shows the update where it covers the path, and the base everywhere else. */
  lemma {:induction false} MergeLeaf(base: Object, updates: Object, path: seq<string>)
    requires path != []
    ensures Leaf(Merge(base, updates), path) == if Covers(updates, path) then Leaf(updates, path) else Leaf(base, path)
    decreases |path|
  {
    var k, rest := path[0], path[1..];
    if rest != [] && k in updates.fields && updates.fields[k].Obj? {
      if k in base.fields && base.fields[k].Obj? {
        MergeLeaf(base.fields[k], updates.fields[k], rest);
      } else if !Covers(updates.fields[k], rest) {
        UncoveredIsUnset(updates.fields[k], rest);
      }
    }
  }

  lemma {:induction false} UncoveredIsUnset(u: Object, path: seq<string>)
    requires path != [] && !Covers(u, path)
    ensures Leaf(u, path).None?
    decreases |path|
  {
    var k, rest := path[0], path[1..];
    if k in u.fields && rest != [] && u.fields[k].Obj? { UncoveredIsUnset(u.fields[k], rest); }
  }

  /**
   * The diff `upper` decides about a path that the update leaves uncovered, the update's own
   * objects on the way not standing in between.
   */
  predicate Decides(upper: Object, updates: Object, path: seq<string>)
    requires path != []
    decreases |path|
  {
    var k, rest := path[0], path[1..];
    if k !in updates.fields then Covers(upper, path)
    else
      rest != [] && updates.fields[k].Obj? && k in upper.fields && upper.fields[k].Obj?
      && Decides(upper.fields[k], updates.fields[k], rest)
  }

  lemma {:induction false} MergeCovers(upper: Object, updates: Object, path: seq<string>)
    requires path != [] && !Covers(updates, path)
    ensures Covers(Merge(upper, updates), path) <==> Decides(upper, updates, path)
    decreases |path|
  {
    var k, rest := path[0], path[1..];
    if k in updates.fields && k in upper.fields && upper.fields[k].Obj? {
      MergeCovers(upper.fields[k], updates.fields[k], rest);
    }
  }

  /** A leaf that shows through is covered. */
  lemma SetIsCovered(o: Object, path: seq<string>)
    requires path != [] && Leaf(o, path).Some?
    ensures Covers(o, path)
  {
    if !Covers(o, path) { UncoveredIsUnset(o, path); }
  }

  /** The leaf that shows after one update of both layers, in terms of the layers before it. */
  function LayeredLeaf(lower: Object, upper: Object, updates: Object, path: seq<string>): Option<string>
    requires path != []
  {
    if Covers(updates, path) then Leaf(updates, path)
    else if Decides(upper, updates, path) then Leaf(upper, path)
    else Leaf(lower, path)
  }

  lemma LayersShow(lower: Object, upper: Object, updates: Object, path: seq<string>)
    requires path != []
    ensures Leaf(Merge(Merge(lower, updates), Merge(upper, updates)), path) == LayeredLeaf(lower, upper, updates, path)
  {
    var top := Merge(upper, updates);
    MergeLeaf(Merge(lower, updates), top, path);
    MergeLeaf(lower, updates, path);
    MergeLeaf(upper, updates, path);
    if Covers(updates, path) {
      if Leaf(updates, path).Some? { SetIsCovered(top, path); }
    } else {
      MergeCovers(upper, updates, path);
    }
  }

  // ------------------------------------------------------------------ main results

  /** The path runs through the one secret that `load` rewrites. */
  predicate Secret(path: seq<string>) { |path| >= 2 && path[0] == "llm" && path[1] == "api_key" }

  /** The effective key touches only `llm.api_key`. */
  lemma KeyHidesNothingElse(s: State, who: string, path: seq<string>)
    requires who in s.members && Load(s, who).Loaded? && path != [] && !Secret(path)
    ensures Leaf(Load(s, who).view.agent, path) == Leaf(MergedAgent(s.org, s.members[who]), path)
  {
    var agent, shown := MergedAgent(s.org, s.members[who]), Load(s, who).view.agent;
    if |path| > 1 && path[0] == "llm" && shown != agent {
      var inner, innerShown := if "llm" in agent.fields then agent.fields["llm"] else Obj(map[]), shown.fields["llm"];
      assert path[1..][0] == path[1];
      assert At(innerShown, path[1..]) == At(inner, path[1..]);
    }
  }

  /** An update without private keys is merged plainly and leaves the private part alone. */
  lemma MergeShared(base: Object, item: Item)
    ensures MergeWholesale(base, Shared(item)) == Merge(base, Shared(item))
    ensures Only(Merge(base, Shared(item)), PRIVATE_KEYS) == Only(base, PRIVATE_KEYS)
  {
    assert Only(Shared(item), PRIVATE_KEYS).fields == map[];
    assert Only(Merge(base, Shared(item)), PRIVATE_KEYS).fields == Only(base, PRIVATE_KEYS).fields;
  }

  /** An update of private keys alone replaces them and leaves the rest alone. */
  lemma MergeOwn(base: Object, item: Item)
    ensures Without(MergeWholesale(base, Own(item)), PRIVATE_KEYS) == Without(base, PRIVATE_KEYS)
    ensures Only(MergeWholesale(base, Own(item)), PRIVATE_KEYS).fields
      == Only(base, PRIVATE_KEYS).fields + Own(item).fields
  {
    var m := MergeWholesale(base, Own(item));
    assert Only(Own(item), PRIVATE_KEYS).fields == Own(item).fields;
    assert m.fields == Merge(base, Own(item)).fields + Own(item).fields;
    assert Without(m, PRIVATE_KEYS).fields == Without(base, PRIVATE_KEYS).fields;
    assert Only(m, PRIVATE_KEYS).fields == Only(base, PRIVATE_KEYS).fields + Own(item).fields;
  }

  /** The rows after a store, in terms of plain merges. */
  lemma RowsAfterStore(s: State, actor: string, item: Item, who: string)
    requires actor in s.members && who in s.members
    ensures
      var s' := AfterStore(s, actor, item);
      var told := Merge(s.members[who].agentDiff, Shared(item));
      && who in s'.members
      && s'.org.agent == Merge(Without(s.org.agent, PRIVATE_KEYS), Shared(item))
      && s'.members[who].agentDiff == (if who == actor then MergeWholesale(told, Own(item)) else told)
      && s'.members[who].conversationDiff == Merge(s.members[who].conversationDiff, item.conversation)
  {
    MergeShared(Without(s.org.agent, PRIVATE_KEYS), item);
    RowAfterStore(s, actor, item, who);
    BroadcastIsMerge(s.members[who], item);
    PersonalDiff(Broadcast(s.members[who], item), s.org, item);
  }

  lemma BroadcastIsMerge(m: Member, item: Item)
    ensures Broadcast(m, item).agentDiff == Merge(m.agentDiff, Shared(item))
    ensures Broadcast(m, item).conversationDiff == Merge(m.conversationDiff, item.conversation)
  {
    MergeShared(m.agentDiff, item);
  }

  lemma PersonalDiff(m: Member, org: Org, item: Item)
    ensures Personal(m, org, item).agentDiff == MergeWholesale(m.agentDiff, Own(item))
    ensures Personal(m, org, item).conversationDiff == m.conversationDiff
  {
  }

  lemma RowAfterStore(s: State, actor: string, item: Item, who: string)
    requires actor in s.members && who in s.members
    ensures
      var s', told := AfterStore(s, actor, item), Broadcast(s.members[who], item);
      who in s'.members && s'.members[who] == if who == actor then Personal(told, s.org, item) else told
  {
  }

  /** What the two layers of any member hold after a store. */
  lemma LayersAfterStore(s: State, actor: string, item: Item, who: string)
    requires actor in s.members && who in s.members
    ensures
      var s' := AfterStore(s, actor, item);
      && who in s'.members
      && s'.org.agent == Merge(Without(s.org.agent, PRIVATE_KEYS), Shared(item))
      && Without(s'.members[who].agentDiff, PRIVATE_KEYS)
         == Without(Merge(s.members[who].agentDiff, Shared(item)), PRIVATE_KEYS)
      && s'.members[who].conversationDiff == Merge(s.members[who].conversationDiff, item.conversation)
  {
    RowsAfterStore(s, actor, item, who);
    MergeOwn(Merge(s.members[who].agentDiff, Shared(item)), item);
  }

  /** Away from the private keys a leaf does not see them. */
  lemma LeafOffPrivate(o: Object, path: seq<string>)
    requires path != [] && path[0] !in PRIVATE_KEYS
    ensures At(Without(o, PRIVATE_KEYS), path) == At(o, path)
  {
  }

  /** Below a top-level key, a merge depends on both sides only below that key. */
  lemma MergeBelowKey(base: Object, u1: Object, u2: Object, path: seq<string>)
    requires path != [] && path[0] !in PRIVATE_KEYS
    requires Without(u1, PRIVATE_KEYS) == Without(u2, PRIVATE_KEYS)
    ensures Leaf(Merge(base, u1), path) == Leaf(Merge(base, u2), path)
  {
    var k := path[0];
    assert k in u1.fields <==> k in Without(u1, PRIVATE_KEYS).fields;
    assert k in u2.fields <==> k in Without(u2, PRIVATE_KEYS).fields;
    assert k in u1.fields ==> u1.fields[k] == Without(u1, PRIVATE_KEYS).fields[k] == u2.fields[k];
    var m1, m2 := Merge(base, u1), Merge(base, u2);
    assert k in m1.fields <==> k in m2.fields;
    assert k in m1.fields ==> m1.fields[k] == m2.fields[k];
  }

  /**
   * What every member of the org, the acting one included, loads after a store, at each
   * shared non-secret path: what the item says there, else what its own diff said, else what
   * the org's settings said.
   */
  lemma LoadedLeaf(s: State, actor: string, item: Item, who: string, path: seq<string>)
    requires actor in s.members && who in s.members
    requires path != [] && path[0] !in PRIVATE_KEYS && !Secret(path)
    requires Load(AfterStore(s, actor, item), who).Loaded?
    ensures Leaf(Load(AfterStore(s, actor, item), who).view.agent, path)
      == LayeredLeaf(s.org.agent, s.members[who].agentDiff, item.agent, path)
  {
    var s', shared := AfterStore(s, actor, item), Shared(item);
    var lower, upper := Without(s.org.agent, PRIVATE_KEYS), s.members[who].agentDiff;
    LayersAfterStore(s, actor, item, who);
    KeyHidesNothingElse(s', who, path);
    assert Without(s'.org.agent, PRIVATE_KEYS).fields == s'.org.agent.fields;
    MergeBelowKey(s'.org.agent, s'.members[who].agentDiff, Merge(upper, shared), path);
    LayersShow(lower, upper, shared, path);
    SharedLayers(s.org.agent, upper, item, path);
  }

  lemma SharedLayers(org: Object, upper: Object, item: Item, path: seq<string>)
    requires path != [] && path[0] !in PRIVATE_KEYS
    ensures LayeredLeaf(Without(org, PRIVATE_KEYS), upper, Shared(item), path)
      == LayeredLeaf(org, upper, item.agent, path)
  {
    LeafOffPrivate(item.agent, path);
    LeafOffPrivate(org, path);
    var k, shared := path[0], Shared(item);
    assert k in shared.fields <==> k in item.agent.fields;
    assert k in shared.fields ==> shared.fields[k] == item.agent.fields[k];
  }

  /**
   * So after a store every member loads the stored value at each shared non-secret leaf: a
   * non-null value as it is, a null one as unset.
   */
  lemma StoreThenLoadAgrees(s: State, actor: string, item: Item, who: string, path: seq<string>)
    requires actor in s.members && who in s.members
    requires IsLeaf(item.agent, path) && path[0] !in PRIVATE_KEYS && !Secret(path)
    requires Load(AfterStore(s, actor, item), who).Loaded?
    ensures Leaf(Load(AfterStore(s, actor, item), who).view.agent, path) == Leaf(item.agent, path)
  {
    LoadedLeaf(s, actor, item, who, path);
    LeafIsCovered(item.agent, path);
  }

  lemma {:induction false} LeafIsCovered(o: Object, path: seq<string>)
    requires path != [] && At(o, path).Some?
    ensures Covers(o, path)
    decreases |path|
  {
    var k, rest := path[0], path[1..];
    if rest != [] && o.fields[k].Obj? { LeafIsCovered(o.fields[k], rest); }
  }

  /** An old leaf that shows through the update: the member's own, or the org's if the member's diff is silent. */
  ghost predicate OldLeafShows(lower: Object, upper: Object, updates: Object, path: seq<string>)
    requires path != []
  {
    && !Covers(updates, path)
    && if Decides(upper, updates, path) then Leaf(upper, path).Some? else Leaf(lower, path).Some?
  }

  /** The paths below `path` that the results speak about. */
  predicate Below(path: seq<string>, rest: seq<string>) { path != [] && rest != [] && !Secret(path + rest) }

  /** The member loads below `path` exactly the leaves of the item there. */
  ghost predicate LoadsExactly(s: State, actor: string, item: Item, who: string, path: seq<string>)
    requires who in s.members && Load(AfterStore(s, actor, item), who).Loaded?
  {
    forall rest :: Below(path, rest) ==>
      Leaf(Load(AfterStore(s, actor, item), who).view.agent, path + rest) == Leaf(item.agent, path + rest)
  }

  /**
   * A stored object loads back with exactly its leaves if and only if the rows before the
   * store held no leaf below it that the item leaves uncovered and that would show.
   */
  lemma ObjectLoadsExactlyIff(s: State, actor: string, item: Item, who: string, path: seq<string>)
    requires actor in s.members && who in s.members
    requires path != [] && path[0] !in PRIVATE_KEYS && Load(AfterStore(s, actor, item), who).Loaded?
    ensures LoadsExactly(s, actor, item, who, path) <==>
      forall rest :: Below(path, rest) ==> !OldLeafShows(s.org.agent, s.members[who].agentDiff, item.agent, path + rest)
  {
    var view := Load(AfterStore(s, actor, item), who).view.agent;
    forall rest | Below(path, rest)
      ensures Leaf(view, path + rest) == Leaf(item.agent, path + rest) <==>
        !OldLeafShows(s.org.agent, s.members[who].agentDiff, item.agent, path + rest)
    {
      LoadedLeaf(s, actor, item, who, path + rest);
      if !Covers(item.agent, path + rest) { UncoveredIsUnset(item.agent, path + rest); }
    }
  }

  /** An old leaf of the org's need not show: an object in the member's diff hides it. */
  lemma HiddenOldLeaf()
    ensures
      var org := Obj(map["k" := Obj(map["x" := Atom("old")])]);
      var diff := Obj(map["k" := Obj(map["x" := Obj(map[])])]);
      var item := Obj(map["k" := Obj(map[])]);
      && Leaf(org, ["k", "x"]) == Some("old") && !Covers(item, ["k", "x"])
      && !OldLeafShows(org, diff, item, ["k", "x"])
  {
    assert ["k", "x"][1..] == ["x"];
  }

  /** In particular, rows that hold nothing below an uncovered path let every stored object load exactly. */
  lemma NoOldLeafLoadsExactly(s: State, actor: string, item: Item, who: string, path: seq<string>)
    requires actor in s.members && who in s.members
    requires path != [] && path[0] !in PRIVATE_KEYS && Load(AfterStore(s, actor, item), who).Loaded?
    requires forall rest :: Below(path, rest) && !Covers(item.agent, path + rest) ==>
      Leaf(s.org.agent, path + rest).None? && Leaf(s.members[who].agentDiff, path + rest).None?
    ensures LoadsExactly(s, actor, item, who, path)
  {
    ObjectLoadsExactlyIff(s, actor, item, who, path);
  }

  /** The conversation settings have no private part and no secret. */
  lemma LoadedConversationLeaf(s: State, actor: string, item: Item, who: string, path: seq<string>)
    requires actor in s.members && who in s.members && path != []
    requires Load(AfterStore(s, actor, item), who).Loaded?
    ensures Leaf(Load(AfterStore(s, actor, item), who).view.conversation, path)
      == LayeredLeaf(s.org.conversation, s.members[who].conversationDiff, item.conversation, path)
  {
    LayersAfterStore(s, actor, item, who);
    LayersShow(s.org.conversation, s.members[who].conversationDiff, item.conversation, path);
  }

  /** Each stored leaf of them loads back. */
  lemma ConversationAgrees(s: State, actor: string, item: Item, who: string, path: seq<string>)
    requires actor in s.members && who in s.members
    requires IsLeaf(item.conversation, path) && Load(AfterStore(s, actor, item), who).Loaded?
    ensures Leaf(Load(AfterStore(s, actor, item), who).view.conversation, path) == Leaf(item.conversation, path)
  {
    LoadedConversationLeaf(s, actor, item, who, path);
    LeafIsCovered(item.conversation, path);
  }

  /** The load after a store cannot raise: the stored `llm` is an object. */
  lemma StoreMakesLoadable(s: State, actor: string, item: Item, who: string)
    requires actor in s.members && who in s.members
    requires "llm" in item.agent.fields && item.agent.fields["llm"].Obj?
    ensures Load(AfterStore(s, actor, item), who).Loaded?
  {
    LayersAfterStore(s, actor, item, who);
    var s' := AfterStore(s, actor, item);
    var shared := Shared(item);
    var diff := s'.members[who].agentDiff;
    assert "llm" in Without(diff, PRIVATE_KEYS).fields;
    assert diff.fields["llm"] == Without(diff, PRIVATE_KEYS).fields["llm"];
    assert diff.fields["llm"] == Merge(s.members[who].agentDiff, shared).fields["llm"];
  }

  /** The layer that decides what `llm` is holds something else than an object. */
  predicate BadLlm(lower: Object, upper: Object, updates: Object) {
    if "llm" in updates.fields then updates.fields["llm"].Atom?
    else if "llm" in upper.fields then upper.fields["llm"].Atom?
    else "llm" in lower.fields && !lower.fields["llm"].Obj?
  }

  /** The load after a store raises if and only if there is a key to put in and no object to put it into. */
  lemma LoadRaisesIff(s: State, actor: string, item: Item, who: string)
    requires actor in s.members && who in s.members
    ensures
      var s' := AfterStore(s, actor, item);
      && who in s'.members
      && (Load(s', who).TypeError? <==>
          EffectiveKey(s'.org, s'.members[who]).Some? && BadLlm(s.org.agent, s.members[who].agentDiff, item.agent))
  {
    var s', shared := AfterStore(s, actor, item), Shared(item);
    var lower, upper := Without(s.org.agent, PRIVATE_KEYS), s.members[who].agentDiff;
    LayersAfterStore(s, actor, item, who);
    assert Without(s'.org.agent, PRIVATE_KEYS).fields == s'.org.agent.fields;
    LlmOffPrivate(s'.org.agent, s'.members[who].agentDiff, Merge(upper, shared));
    LlmOfLayers(lower, upper, shared);
    assert BadLlm(lower, upper, shared) <==> BadLlm(s.org.agent, upper, item.agent);
  }

  predicate NotAnObject(o: Object, key: string) { key in o.fields && !o.fields[key].Obj? }

  lemma LlmOfLayers(lower: Object, upper: Object, updates: Object)
    ensures NotAnObject(Merge(Merge(lower, updates), Merge(upper, updates)), "llm") <==> BadLlm(lower, upper, updates)
  {
  }

  /** The private keys of a diff have no part in it. */
  lemma LlmOffPrivate(base: Object, u1: Object, u2: Object)
    requires Without(u1, PRIVATE_KEYS) == Without(u2, PRIVATE_KEYS)
    ensures NotAnObject(Merge(base, u1), "llm") <==> NotAnObject(Merge(base, u2), "llm")
  {
    assert "llm" in u1.fields <==> "llm" in Without(u1, PRIVATE_KEYS).fields;
    assert "llm" in u2.fields <==> "llm" in Without(u2, PRIVATE_KEYS).fields;
    assert "llm" in u1.fields ==> u1.fields["llm"] == Without(u1, PRIVATE_KEYS).fields["llm"] == u2.fields["llm"];
  }

  // ------------------------------------------------------------------ which key is loaded

  predicate ShowsKey(s: State, who: string, key: Option<string>)
    requires who in s.members && Load(s, who).Loaded?
  {
    if key.Some? then At(Load(s, who).view.agent, ["llm", "api_key"]) == Some(Atom(key.value))
    else Load(s, who).view.agent == MergedAgent(s.org, s.members[who])
  }

  function OrElse(a: Option<string>, b: Option<string>): Option<string> { if a.Some? then a else b }

  /** What a load shows, from the row of the member and the org's key alone. */
  lemma KeyShown(s: State, who: string)
    requires who in s.members && Load(s, who).Loaded?
    ensures s.members[who].customKey ==> ShowsKey(s, who, s.members[who].llmApiKey)
    ensures !s.members[who].customKey ==> ShowsKey(s, who, OrElse(s.org.llmApiKey, s.members[who].llmApiKey))
  {
    assert ["llm", "api_key"][1..] == ["api_key"] && ["api_key"][1..] == [];
  }

  /**
   * The key a member loads after its own store: an unmanaged one stored is shown whatever the
   * org's is; otherwise the org's comes first, then the one stored, then the earlier one.
   */
  lemma ActorLoadsKey(s: State, actor: string, item: Item)
    requires actor in s.members && Load(AfterStore(s, actor, item), actor).Loaded?
    ensures
      var s', own := AfterStore(s, actor, item), s.members[actor].llmApiKey;
      && (!item.managed && item.llmApiKey.Some? ==> ShowsKey(s', actor, item.llmApiKey))
      && (item.managed && item.llmApiKey.Some? ==> ShowsKey(s', actor, OrElse(s.org.llmApiKey, item.llmApiKey)))
      && (item.llmApiKey.None? ==> ShowsKey(s', actor, OrElse(s.org.llmApiKey, own)))
  {
    KeyShown(AfterStore(s, actor, item), actor);
  }

  /**
   * The key another member loads then: an unmanaged one is broadcast into its row, and shown
   * unless the org's comes first, which it does only for a member without a custom key.
   */
  lemma OtherLoadsKey(s: State, actor: string, item: Item, who: string)
    requires actor in s.members && who in s.members && who != actor && Load(AfterStore(s, actor, item), who).Loaded?
    ensures
      var s', own := AfterStore(s, actor, item), s.members[who].llmApiKey;
      var told := if !item.managed && item.llmApiKey.Some? then item.llmApiKey else own;
      && (s.members[who].customKey ==> ShowsKey(s', who, told))
      && (!s.members[who].customKey ==> ShowsKey(s', who, OrElse(s.org.llmApiKey, told)))
  {
    KeyShown(AfterStore(s, actor, item), who);
  }

  /** The private keys, by name: exactly these two are kept apart. */
  lemma PrivateKeysAre(key: string)
    ensures key in PRIVATE_KEYS <==> key == "mcp_config" || key == "acp_env"
  {
  }

  // ------------------------------------------------------------- member isolation

  /** What a member sees of the private keys. */
  function PrivateView(s: State, who: string): map<string, Json>
    requires who in s.members
  {
    map k | k in PRIVATE_KEYS && k in s.members[who].agentDiff.fields && !s.members[who].agentDiff.fields[k].Null? ::
      s.members[who].agentDiff.fields[k]
  }

  /** `load` shows exactly that: nothing of the org's, or of another member's, private keys. */
  lemma LoadShowsOwnPrivateKeys(s: State, who: string)
    requires who in s.members && Load(s, who).Loaded?
    ensures Only(Load(s, who).view.agent, PRIVATE_KEYS).fields == PrivateView(s, who)
  {
  }

  function AfterStores(s: State, stores: seq<(string, Item)>): State
    decreases |stores|
  {
    if stores == [] then s else AfterStores(AfterStore(s, stores[0].0, stores[0].1), stores[1..])
  }

  /** The private halves of what `who` stored, in order. */
  function OwnPrivates(stores: seq<(string, Item)>, who: string): seq<Object>
    decreases |stores|
  {
    if stores == [] then []
    else (if stores[0].0 == who then [Own(stores[0].1)] else []) + OwnPrivates(stores[1..], who)
  }

  /** Later private halves win key by key. */
  function Overlay(start: map<string, Json>, privates: seq<Object>): map<string, Json>
    decreases |privates|
  {
    if privates == [] then start else Overlay(start + privates[0].fields, privates[1..])
  }

  function Private(s: State, who: string): map<string, Json>
    requires who in s.members
  {
    Only(s.members[who].agentDiff, PRIVATE_KEYS).fields
  }

  lemma StoreOnPrivate(s: State, actor: string, item: Item, who: string)
    requires who in s.members
    ensures
      var s' := AfterStore(s, actor, item);
      && who in s'.members
      && Private(s', who) == if actor == who then Private(s, who) + Own(item).fields else Private(s, who)
  {
    if actor in s.members {
      RowsAfterStore(s, actor, item, who);
      MergeShared(s.members[who].agentDiff, item);
      MergeOwn(Merge(s.members[who].agentDiff, Shared(item)), item);
    }
  }

  /**
   * Over any sequence of stores by members of the org, what a member sees of the private
   * keys is its own initial private keys overlaid by its own stores, in order.
   */
  lemma {:induction false} MemberIsolation(s: State, stores: seq<(string, Item)>, who: string)
    requires who in s.members
    ensures
      var s' := AfterStores(s, stores);
      && who in s'.members
      && Private(s', who) == Overlay(Private(s, who), OwnPrivates(stores, who))
    decreases |stores|
  {
    if stores != [] {
      StoreOnPrivate(s, stores[0].0, stores[0].1, who);
      MemberIsolation(AfterStore(s, stores[0].0, stores[0].1), stores[1..], who);
      var own := OwnPrivates(stores, who);
      if stores[0].0 == who {
        assert own[0] == Own(stores[0].1) && own[1..] == OwnPrivates(stores[1..], who);
        assert Overlay(Private(s, who), own) == Overlay(Private(s, who) + own[0].fields, own[1..]);
      } else {
        assert own == OwnPrivates(stores[1..], who);
      }
    }
  }

  /** Two histories that `who` cannot tell apart by its own stores look the same to it. */
  lemma OthersAreInvisible(s: State, t: State, ss: seq<(string, Item)>, ts: seq<(string, Item)>, who: string)
    requires who in s.members && who in t.members && Private(s, who) == Private(t, who)
    requires OwnPrivates(ss, who) == OwnPrivates(ts, who)
    requires Load(AfterStores(s, ss), who).Loaded? && Load(AfterStores(t, ts), who).Loaded?
    ensures
      Only(Load(AfterStores(s, ss), who).view.agent, PRIVATE_KEYS)
      == Only(Load(AfterStores(t, ts), who).view.agent, PRIVATE_KEYS)
  {
    MemberIsolation(s, ss, who);
    MemberIsolation(t, ts, who);
    var s', t' := AfterStores(s, ss), AfterStores(t, ts);
    LoadShowsOwnPrivateKeys(s', who);
    LoadShowsOwnPrivateKeys(t', who);
    assert forall k :: k in Private(s', who) <==> k in Private(t', who);
    assert PrivateView(s', who) == map k | k in Private(s', who) && !Private(s', who)[k].Null? :: Private(s', who)[k];
    assert PrivateView(t', who) == map k | k in Private(t', who) && !Private(t', who)[k].Null? :: Private(t', who)[k];
  }

  /** A stored private key comes back whole: entries deleted from it stay deleted. */
  lemma PrivateKeyReplacedWhole(s: State, actor: string, item: Item, key: string)
    requires actor in s.members && key in PRIVATE_KEYS && key in item.agent.fields
    requires Load(AfterStore(s, actor, item), actor).Loaded?
    ensures
      var seen := Load(AfterStore(s, actor, item), actor).view.agent.fields;
      if item.agent.fields[key].Null? then key !in seen else key in seen && seen[key] == item.agent.fields[key]
  {
    var s' := AfterStore(s, actor, item);
    StoreOnPrivate(s, actor, item, actor);
    LoadShowsOwnPrivateKeys(s', actor);
    assert key in Private(s', actor) && Private(s', actor)[key] == item.agent.fields[key];
    assert key in Only(Load(s', actor).view.agent, PRIVATE_KEYS).fields <==> key in Load(s', actor).view.agent.fields;
  }

  /** After any store by a member the org settings hold no private key, legacy ones included. */
  lemma OrgHoldsNoPrivateKey(s: State, stores: seq<(string, Item)>)
    requires exists i :: 0 <= i < |stores| && stores[i].0 in s.members
    ensures AfterStores(s, stores).org.agent.fields.Keys !! PRIVATE_KEYS
    decreases |stores|
  {
    var s1 := AfterStore(s, stores[0].0, stores[0].1);
    assert s1.members.Keys == s.members.Keys;
    if stores[0].0 in s.members {
      LayersAfterStore(s, stores[0].0, stores[0].1, stores[0].0);
      StaysClean(s1, stores[1..]);
    } else {
      var i :| 0 <= i < |stores| && stores[i].0 in s.members;
      assert stores[1..][i - 1] == stores[i];
      OrgHoldsNoPrivateKey(s1, stores[1..]);
    }
  }

  lemma {:induction false} StaysClean(s: State, stores: seq<(string, Item)>)
    requires s.org.agent.fields.Keys !! PRIVATE_KEYS
    ensures AfterStores(s, stores).org.agent.fields.Keys !! PRIVATE_KEYS
    decreases |stores|
  {
    if stores != [] {
      var (actor, item) := stores[0];
      if actor in s.members { LayersAfterStore(s, actor, item, actor); }
      StaysClean(AfterStore(s, actor, item), stores[1..]);
    }
  }

  /** An empty object is no leaf: merging one over an object keeps what was there. */
  lemma EmptyObjectKeepsTheOld(base: Object, updates: Object, key: string)
    requires key in base.fields && base.fields[key].Obj? && key in updates.fields && updates.fields[key] == Obj(map[])
    ensures At(Merge(base, updates), [key]) == Some(base.fields[key])
  {
    assert Merge(base.fields[key], Obj(map[])).fields == base.fields[key].fields;
  }

  // ------------------------------------------------------- the code as methods

  /** The org row and its members' rows. */
  class SettingsStore {
    var org: Org
    var members: map<string, Member>

    ghost function Current(): State reads this { State(org, members) }

    constructor (org: Org, members: map<string, Member>)
      ensures Current() == State(org, members)
    {
      this.org, this.members := org, members;
    }

    /** `deep_merge_with_wholesale_keys`. */
    static method DeepMergeWithWholesaleKeys(base: Object, updates: Object) returns (result: Object)
      ensures result == MergeWholesale(base, updates)
    {
      result := DeepMerge(base, updates);
      ghost var merged := result.fields;
      var todo := PRIVATE_KEYS;
      while todo != {}
        invariant todo <= PRIVATE_KEYS
        invariant forall k :: k in result.fields <==> k in merged || (k in updates.fields && k in PRIVATE_KEYS - todo)
        invariant forall k | k in result.fields ::
          result.fields[k] == if k in updates.fields && k in PRIVATE_KEYS - todo then updates.fields[k] else merged[k]
        decreases todo
      {
        var key :| key in todo;
        if key in updates.fields { result := Obj(result.fields[key := updates.fields[key]]); }
        todo := todo - {key};
      }
      assert result.fields == merged + Only(updates, PRIVATE_KEYS).fields;
    }

    /** `update_all_members_settings_async`: every row of the org, one after the other. */
    method UpdateAllMembers(item: Item)
      modifies this`members
      ensures members == map b | b in old(members) :: Broadcast(old(members)[b], item)
    {
      var todo := members.Keys;
      while todo != {}
        invariant todo <= members.Keys && members.Keys == old(members).Keys
        invariant forall b :: b in members ==>
          members[b] == if b in todo then old(members)[b] else Broadcast(old(members)[b], item)
        decreases todo
      {
        var b :| b in todo;
        var m := UpdateMember(members[b], item);
        members := members[b := m];
        todo := todo - {b};
      }
    }

    static method UpdateMember(m: Member, item: Item) returns (updated: Member)
      ensures updated == Broadcast(m, item)
    {
      var agentDiff := DeepMergeWithWholesaleKeys(m.agentDiff, Shared(item));
      var conversationDiff := DeepMerge(m.conversationDiff, item.conversation);
      var key := if !item.managed && item.llmApiKey.Some? then item.llmApiKey else m.llmApiKey;
      updated := Member(agentDiff, conversationDiff, key, m.customKey);
    }

    method Store(actor: string, item: Item)
      modifies this
      ensures Current() == AfterStore(old(Current()), actor, item)
    {
      if actor !in members { return; }
      var agent := DeepMergeWithWholesaleKeys(Without(org.agent, PRIVATE_KEYS), Shared(item));
      var conversation := DeepMerge(org.conversation, item.conversation);
      org := org.(agent := agent, conversation := conversation);
      UpdateAllMembers(item);
      var m := members[actor];
      if Own(item).fields != map[] {
        var diff := DeepMergeWithWholesaleKeys(m.agentDiff, Own(item));
        m := m.(agentDiff := diff);
      } else {
        MergeNothing(m.agentDiff, Own(item));
      }
      if item.managed && item.llmApiKey.Some? {
        m := m.(llmApiKey := item.llmApiKey, customKey := false);
      } else if item.llmApiKey.Some? {
        m := m.(llmApiKey := item.llmApiKey, customKey := true);
      } else if org.llmApiKey.Some? {
        m := m.(customKey := false);
      }
      members := members[actor := m];
    }

    /** `load`: two merges, then the effective key put into `llm`. */
    method LoadFor(who: string) returns (r: LoadResult)
      ensures r == Load(Current(), who) && (r.NotAMember? <==> who !in members)
    {
      if who !in members { return NotAMember; }
      var m := members[who];
      var agent := DeepMerge(Without(org.agent, PRIVATE_KEYS), m.agentDiff);
      var key := EffectiveKey(org, m);
      var conversation := DeepMerge(org.conversation, m.conversationDiff);
      if key.Some? {
        var llm := if "llm" in agent.fields then agent.fields["llm"] else Obj(map[]);
        if !llm.Obj? { return TypeError; }
        agent := Obj(agent.fields["llm" := Obj(llm.fields["api_key" := Atom(key.value)])]);
      }
      r := Loaded(View(agent, conversation));
    }
  }

  lemma MergeNothing(base: Object, updates: Object)
    requires updates.fields == map[]
    ensures MergeWholesale(base, updates) == base
  {
    assert Only(updates, PRIVATE_KEYS).fields == map[];
    assert Merge(base, updates).fields == base.fields;
  }
}
