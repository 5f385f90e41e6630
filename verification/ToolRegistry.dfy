/** The tool registry: an ordered list of tool entries, some of them owned by plugins. */
module ToolRegistry {
  import opened Wrappers
  import opened Seqs
  import opened StableOrder
  import opened PluginDescriptors

  datatype Tool = Tool(id: string, name: string)

  datatype ToolEntry = ToolEntry(
    tool: Tool, enabled: bool, homeVisible: bool, sidebarVisible: bool, plugin: Option<PluginDescriptor>)

  datatype RegistrationError =
    | InvalidDescriptor
    | EntryCountMismatch(expected: nat, actual: nat)
    | EntryIdMismatch(toolId: string)
    | DuplicateEntryId(entryId: string)
    | MissingToolEntry(entryId: string)
    | DuplicatePluginId(pluginId: string)

  function ToolId(tool: Tool): string { tool.id }

  function Id(entry: ToolEntry): string { entry.tool.id }

  function Ids(tools: seq<ToolEntry>): seq<string> { Map(tools, Id) }

  predicate OwnedBy(entry: ToolEntry, pluginId: string) {
    entry.plugin.Some? && entry.plugin.value.id == pluginId
  }

  function NotOwnedBy(pluginId: string): ToolEntry -> bool {
    entry => !OwnedBy(entry, pluginId)
  }

  function NotNamed(id: string): ToolEntry -> bool {
    entry => Id(entry) != id
  }

  predicate HasTools(tools: seq<ToolEntry>, pluginId: string) {
    exists entry | entry in tools :: OwnedBy(entry, pluginId)
  }

  // ---------------------------------------------------------------- the registry invariant

  predicate HasOwnedTool(tools: seq<ToolEntry>, id: string, descriptor: PluginDescriptor) {
    exists entry | entry in tools :: Id(entry) == id && entry.plugin == Some(descriptor)
  }

  /** A plugin's tools are exactly the entries of one valid descriptor. */
  ghost predicate PluginIntact(tools: seq<ToolEntry>, descriptor: PluginDescriptor) {
    && descriptor.IsValid()
    && (forall entry | entry in tools && OwnedBy(entry, descriptor.id) ::
          entry.plugin == Some(descriptor) && Id(entry) in descriptor.EntryIds())
    && (forall id | id in descriptor.EntryIds() :: HasOwnedTool(tools, id, descriptor))
  }

  ghost predicate WellFormed(tools: seq<ToolEntry>) {
    && Distinct(Ids(tools))
    && forall entry | entry in tools && entry.plugin.Some? :: PluginIntact(tools, entry.plugin.value)
  }

  /** Reordering entries never breaks the invariant. */
  lemma PermutationKeepsWellFormed(before: seq<ToolEntry>, after: seq<ToolEntry>)
    requires WellFormed(before) && multiset(before) == multiset(after)
    ensures WellFormed(after)
    ensures forall id :: HasTools(before, id) <==> HasTools(after, id)
    ensures multiset(Ids(before)) == multiset(Ids(after))
  {
    forall entry: ToolEntry
      ensures entry in before <==> entry in after
    {
      assert entry in multiset(before) <==> entry in multiset(after);
    }
    MapMultiset(before, after, Id);
    DistinctByMultiset(Ids(before), Ids(after));
    forall entry | entry in after && entry.plugin.Some?
      ensures PluginIntact(after, entry.plugin.value)
    {
      assert PluginIntact(before, entry.plugin.value);
      forall id | id in entry.plugin.value.EntryIds()
        ensures HasOwnedTool(after, id, entry.plugin.value)
      {
        assert HasOwnedTool(before, id, entry.plugin.value);
      }
    }
  }

  lemma {:induction false} MapMultiset<T, U>(a: seq<T>, b: seq<T>, f: T -> U)
    requires multiset(a) == multiset(b)
    ensures multiset(Map(a, f)) == multiset(Map(b, f))
    decreases |a|
  {
    if a == [] {
      assert |b| == |multiset(b)|;
    } else {
      var i := PositionOf(b, a[0], a);
      RemoveMultiset(a, 0);
      RemoveMultiset(b, i);
      assert multiset(RemoveAt(a, 0)) == multiset(a) - multiset{a[0]};
      assert multiset(RemoveAt(b, i)) == multiset(b) - multiset{a[0]};
      MapMultiset(RemoveAt(a, 0), RemoveAt(b, i), f);
      MapRemove(a, 0, f);
      MapRemove(b, i, f);
    }
  }

  lemma PositionOf<T>(b: seq<T>, x: T, a: seq<T>) returns (i: nat)
    requires x in a && multiset(a) == multiset(b)
    ensures i < |b| && b[i] == x
  {
    assert x in multiset(b);
    i :| i < |b| && b[i] == x;
  }

  lemma MapRemove<T, U>(b: seq<T>, i: nat, f: T -> U)
    requires i < |b|
    ensures multiset(Map(b, f)) == multiset(Map(RemoveAt(b, i), f)) + multiset{f(b[i])}
  {
    var images := Map(b, f);
    assert RemoveAt(images, i) == Map(RemoveAt(b, i), f);
    RemoveMultiset(images, i);
  }

  // ---------------------------------------------------------------- registering and removing plugins

  /** A valid descriptor with exactly one tool for every entry. */
  ghost predicate FitsDescriptor(descriptor: PluginDescriptor, pluginTools: seq<Tool>) {
    && descriptor.IsValid()
    && |pluginTools| == |descriptor.EntryDescriptors()|
    && Distinct(Map(pluginTools, ToolId))
    && forall tool | tool in pluginTools :: tool.id in descriptor.EntryIds()
  }

  /** When a group of tools may be added for a descriptor. */
  ghost predicate Accepts(tools: seq<ToolEntry>, descriptor: PluginDescriptor, pluginTools: seq<Tool>) {
    && FitsDescriptor(descriptor, pluginTools)
    && !HasTools(tools, descriptor.id)
    && (forall entry | entry in tools :: Id(entry) !in descriptor.EntryIds())
  }

  /** The group appended for a descriptor: its entries in order, each bound to the tool of that name. */
  ghost predicate IsGroupFor(group: seq<ToolEntry>, descriptor: PluginDescriptor, pluginTools: seq<Tool>) {
    && Ids(group) == descriptor.EntryIds()
    && forall entry | entry in group ::
         entry == ToolEntry(entry.tool, true, true, true, Some(descriptor)) && entry.tool in pluginTools
  }

  /** Names taken from a list as long as the list of entries, without repetition, leave no entry out:
      the source's last check (a manifest entry without a tool) can never fail. */
  lemma NoEntryIsMissing(names: seq<string>, entryIds: seq<string>)
    requires Distinct(names) && Distinct(entryIds) && |names| == |entryIds|
    requires forall name | name in names :: name in entryIds
    ensures forall id | id in entryIds :: id in names
  {
    var a, b := set x | x in names, set x | x in entryIds;
    DistinctCardinality(names);
    DistinctCardinality(entryIds);
    SubsetOfSameSize(a, b);
    forall id | id in entryIds
      ensures id in names
    {
      assert id in b;
    }
  }

  lemma {:induction false} DistinctCardinality<T>(s: seq<T>)
    requires Distinct(s)
    ensures |(set x | x in s)| == |s|
  {
    if s != [] {
      DistinctCardinality(s[1..]);
      assert (set x | x in s) == (set x | x in s[1..]) + {s[0]};
    }
  }

  lemma SubsetOfSameSize<T>(a: set<T>, b: set<T>)
    requires a <= b && |a| == |b|
    ensures a == b
  {
    assert b == a + (b - a);
    assert |b - a| == 0;
  }

  lemma AppendKeepsWellFormed(
      tools: seq<ToolEntry>, group: seq<ToolEntry>, descriptor: PluginDescriptor, pluginTools: seq<Tool>)
    requires WellFormed(tools) && Accepts(tools, descriptor, pluginTools) && IsGroupFor(group, descriptor, pluginTools)
    ensures WellFormed(tools + group)
    ensures HasTools(tools + group, descriptor.id)
    ensures forall id | id != descriptor.id :: HasTools(tools + group, id) <==> HasTools(tools, id)
  {
    var all := tools + group;
    MapConcat(tools, group, Id);
    forall i, j | 0 <= i < j < |Ids(all)|
      ensures Ids(all)[i] != Ids(all)[j]
    {
      if i < |tools| && |tools| <= j {
        assert tools[i] in tools;
        assert Ids(all)[j] == descriptor.EntryIds()[j - |tools|];
      } else if |tools| <= i {
        assert Ids(all)[i] == descriptor.EntryIds()[i - |tools|];
        assert Ids(all)[j] == descriptor.EntryIds()[j - |tools|];
      } else {
        assert Ids(all)[i] == Ids(tools)[i] && Ids(all)[j] == Ids(tools)[j];
      }
    }
    GroupIsIntact(tools, group, descriptor, pluginTools);
    forall entry | entry in tools && entry.plugin.Some?
      ensures PluginIntact(all, entry.plugin.value)
    {
      OldPluginsStayIntact(tools, group, descriptor, entry.plugin.value);
    }
    assert group[0] in all;
  }

  lemma GroupIsIntact(
      tools: seq<ToolEntry>, group: seq<ToolEntry>, descriptor: PluginDescriptor, pluginTools: seq<Tool>)
    requires Accepts(tools, descriptor, pluginTools) && IsGroupFor(group, descriptor, pluginTools)
    ensures PluginIntact(tools + group, descriptor)
    ensures group != [] && OwnedBy(group[0], descriptor.id)
  {
    forall entry | entry in tools + group && OwnedBy(entry, descriptor.id)
      ensures entry.plugin == Some(descriptor) && Id(entry) in descriptor.EntryIds()
    {
      if entry in group {
        var i :| 0 <= i < |group| && group[i] == entry;
        assert Ids(group)[i] == Id(entry);
      }
    }
    forall id | id in descriptor.EntryIds()
      ensures HasOwnedTool(tools + group, id, descriptor)
    {
      var i :| 0 <= i < |Ids(group)| && Ids(group)[i] == id;
      assert group[i] in group;
      assert group[i] in tools + group;
    }
    assert |group| == |Ids(group)|;
    assert group[0] in group;
  }

  lemma OldPluginsStayIntact(
      tools: seq<ToolEntry>, group: seq<ToolEntry>, added: PluginDescriptor, existing: PluginDescriptor)
    requires PluginIntact(tools, existing) && HasTools(tools, existing.id) && !HasTools(tools, added.id)
    requires forall entry | entry in group :: entry.plugin == Some(added)
    ensures PluginIntact(tools + group, existing)
  {
    forall id | id in existing.EntryIds()
      ensures HasOwnedTool(tools + group, id, existing)
    {
      var entry :| entry in tools && Id(entry) == id && entry.plugin == Some(existing);
      assert entry in tools + group;
    }
  }

  /** Taking a freshly added group out again gives back the list as it was, in the same order. */
  lemma RollbackRestores(tools: seq<ToolEntry>, group: seq<ToolEntry>, pluginId: string)
    requires !HasTools(tools, pluginId)
    requires forall entry | entry in group :: OwnedBy(entry, pluginId)
    ensures Filter(tools + group, NotOwnedBy(pluginId)) == tools
  {
    FilterConcat(tools, group, NotOwnedBy(pluginId));
    FilterAll(tools, NotOwnedBy(pluginId));
    FilterNone(group, NotOwnedBy(pluginId));
  }

  lemma RemovalKeepsWellFormed(tools: seq<ToolEntry>, pluginId: string)
    requires WellFormed(tools)
    ensures WellFormed(Filter(tools, NotOwnedBy(pluginId)))
    ensures !HasTools(Filter(tools, NotOwnedBy(pluginId)), pluginId)
    ensures forall id | id != pluginId :: HasTools(Filter(tools, NotOwnedBy(pluginId)), id) <==> HasTools(tools, id)
  {
    var rest := Filter(tools, NotOwnedBy(pluginId));
    DistinctFilter(tools, NotOwnedBy(pluginId));
    forall entry | entry in rest && entry.plugin.Some?
      ensures PluginIntact(rest, entry.plugin.value)
    {
      assert PluginIntact(tools, entry.plugin.value);
      forall id | id in entry.plugin.value.EntryIds()
        ensures HasOwnedTool(rest, id, entry.plugin.value)
      {
        assert HasOwnedTool(tools, id, entry.plugin.value);
      }
    }
  }

  lemma {:induction false} DistinctFilter(tools: seq<ToolEntry>, p: ToolEntry -> bool)
    requires Distinct(Ids(tools))
    ensures Distinct(Ids(Filter(tools, p)))
  {
    if tools != [] {
      var rest := tools[1..];
      assert forall i | 0 <= i < |rest| :: Ids(rest)[i] == Ids(tools)[i + 1];
      DistinctFilter(rest, p);
      if p(tools[0]) {
        var kept := Filter(rest, p);
        assert Filter(tools, p) == [tools[0]] + kept;
        forall j | 0 <= j < |kept|
          ensures Id(kept[j]) != Id(tools[0])
        {
          assert kept[j] in rest;
          var i :| 0 <= i < |rest| && rest[i] == kept[j];
          assert Ids(tools)[i + 1] != Ids(tools)[0];
        }
        forall i, j | 0 <= i < j < |kept| + 1
          ensures Ids([tools[0]] + kept)[i] != Ids([tools[0]] + kept)[j]
        {
          if i > 0 { assert Ids(kept)[i - 1] != Ids(kept)[j - 1]; }
        }
      }
    }
  }

  // ---------------------------------------------------------------- moving one tool

  function EnabledNamed(id: string): ToolEntry -> bool {
    (entry: ToolEntry) => entry.enabled && Id(entry) == id
  }

  function VisibleNamed(isVisible: ToolEntry -> bool, id: string): ToolEntry -> bool {
    entry => isVisible(entry) && Id(entry) == id
  }

  /** `after` is `before` with the tool called `id` taken from one place and put at another:
      nothing is lost, and all other tools, shown or hidden, keep their relative order. */
  ghost predicate MovesOnly(before: seq<ToolEntry>, after: seq<ToolEntry>, id: string) {
    && multiset(after) == multiset(before)
    && Filter(after, NotNamed(id)) == Filter(before, NotNamed(id))
  }

  lemma OthersAreNotNamed(tools: seq<ToolEntry>, i: nat)
    requires Distinct(Ids(tools)) && i < |tools|
    ensures forall y | y in tools[..i] + tools[i + 1..] :: NotNamed(Id(tools[i]))(y)
  {
    var others := tools[..i] + tools[i + 1..];
    forall k | 0 <= k < |others|
      ensures NotNamed(Id(tools[i]))(others[k])
    {
      var j := if k < i then k else k + 1;
      assert Ids(tools)[j] != Ids(tools)[i];
    }
  }

  lemma WithoutNamed(tools: seq<ToolEntry>, i: nat)
    requires Distinct(Ids(tools)) && i < |tools|
    ensures Filter(tools, NotNamed(Id(tools[i]))) == RemoveAt(tools, i)
  {
    hide Filter, Distinct;
    SplitAt(tools, i);
    OthersAreNotNamed(tools, i);
    FilterAllButOne(tools[..i], tools[i], tools[i + 1..], NotNamed(Id(tools[i])));
  }

  lemma RelocationMovesOnly(tools: seq<ToolEntry>, i: nat, j: nat)
    requires Distinct(Ids(tools)) && i < |tools| && j < |tools|
    ensures var after := InsertAt(RemoveAt(tools, i), j, tools[i]);
      MovesOnly(tools, after, Id(tools[i])) && after[j] == tools[i] && (after == tools <==> Ids(after) == Ids(tools))
  {
    var rest, x := RemoveAt(tools, i), tools[i];
    var after := InsertAt(rest, j, x);
    RemoveMultiset(tools, i);
    RemoveInsert(rest, j, x);
    assert multiset(after) == multiset(tools);
    MapMultiset(tools, after, Id);
    DistinctByMultiset(Ids(tools), Ids(after));
    WithoutNamed(tools, i);
    WithoutNamed(after, j);
    if Ids(after) == Ids(tools) {
      assert Ids(after)[j] == Id(x) && Ids(tools)[i] == Id(x);
      DistinctPosition(Ids(tools), i, j);
    }
  }

  /** Where `reorder_to_index_where` puts the entry at `i`: before the `slot`-th visible entry of the
      rest, or at the very end. */
  function MovedToSlot(tools: seq<ToolEntry>, i: nat, slot: nat, isVisible: ToolEntry -> bool): seq<ToolEntry>
    requires i < |tools|
  {
    var rest := RemoveAt(tools, i);
    InsertAt(rest, SlotIndex(rest, slot, isVisible), tools[i])
  }

  function SlotIndex(rest: seq<ToolEntry>, slot: nat, isVisible: ToolEntry -> bool): (index: nat)
    ensures index <= |rest|
  {
    var remaining := |Filter(rest, isVisible)|;
    var target := Min(slot, remaining);
    if target == remaining then |rest| else NthIndex(rest, isVisible, target)
  }

  /** Where a tool belongs in the whole list, hidden tools included: directly before the visible tool that
      has the slot, or last of all when there is none. */
  ghost predicate StandsAtSlot(list: seq<ToolEntry>, x: ToolEntry, others: seq<ToolEntry>, slot: nat) {
    if slot < |others| then exists k | 0 <= k < |list| - 1 :: list[k] == x && list[k + 1] == others[slot]
    else list != [] && list[|list| - 1] == x
  }

  /** The dragged tool stands at its slot in the whole list, and only it moves; so on the visible list it
      lands on the requested slot, clamped to the end. */
  lemma MovedToSlotMeaning(tools: seq<ToolEntry>, i: nat, slot: nat, isVisible: ToolEntry -> bool)
    requires Distinct(Ids(tools)) && i < |tools| && isVisible(tools[i])
    ensures var after := MovedToSlot(tools, i, slot, isVisible);
      var others := Filter(RemoveAt(tools, i), isVisible);
      && MovesOnly(tools, after, Id(tools[i])) && StandsAtSlot(after, tools[i], others, slot)
      && Filter(after, isVisible) == InsertAt(others, Min(slot, |others|), tools[i])
      && (after == tools <==> Ids(after) == Ids(tools))
  {
    hide Filter, NthIndex;
    var rest := RemoveAt(tools, i);
    var j := SlotIndex(rest, slot, isVisible);
    if slot < |Filter(rest, isVisible)| {
      NthIndexCounts(rest, isVisible, slot);
    }
    FilterInsert(rest, j, tools[i], isVisible);
    assert rest[..|rest|] == rest;
    RelocationMovesOnly(tools, i, j);
    PlacedAtSlot(rest, tools[i], slot, isVisible);
  }

  lemma PlacedAtSlot(rest: seq<ToolEntry>, x: ToolEntry, slot: nat, isVisible: ToolEntry -> bool)
    ensures StandsAtSlot(InsertAt(rest, SlotIndex(rest, slot, isVisible), x), x, Filter(rest, isVisible), slot)
  {
    hide Filter, NthIndex;
    var j := SlotIndex(rest, slot, isVisible);
    var list := InsertAt(rest, j, x);
    if slot < |Filter(rest, isVisible)| {
      NthIndexIsNth(rest, isVisible, slot);
      assert list[j] == x && list[j + 1] == rest[j];
    }
  }

  /** The call reports no change exactly when the tool already stood at its slot. */
  lemma UnchangedExactlyInPlace(tools: seq<ToolEntry>, i: nat, slot: nat, isVisible: ToolEntry -> bool)
    requires Distinct(Ids(tools)) && i < |tools| && isVisible(tools[i])
    ensures Ids(MovedToSlot(tools, i, slot, isVisible)) == Ids(tools)
      <==> StandsAtSlot(tools, tools[i], Filter(RemoveAt(tools, i), isVisible), slot)
  {
    hide Filter, NthIndex, Distinct;
    var others := Filter(RemoveAt(tools, i), isVisible);
    MovedToSlotMeaning(tools, i, slot, isVisible);
    if StandsAtSlot(tools, tools[i], others, slot) {
      SlotIsOwnPlace(tools, i, slot, isVisible);
      RemoveInsertSame(tools, i);
    }
  }

  lemma RemoveInsertSame(tools: seq<ToolEntry>, i: nat)
    requires i < |tools|
    ensures InsertAt(RemoveAt(tools, i), i, tools[i]) == tools
  {
  }

  lemma SlotIsOwnPlace(tools: seq<ToolEntry>, i: nat, slot: nat, isVisible: ToolEntry -> bool)
    requires Distinct(Ids(tools)) && i < |tools|
    requires StandsAtSlot(tools, tools[i], Filter(RemoveAt(tools, i), isVisible), slot)
    ensures SlotIndex(RemoveAt(tools, i), slot, isVisible) == i
  {
    hide Filter, NthIndex, Distinct;
    var rest := RemoveAt(tools, i);
    var others, j := Filter(rest, isVisible), SlotIndex(rest, slot, isVisible);
    if slot < |others| {
      var k :| 0 <= k < |tools| - 1 && tools[k] == tools[i] && tools[k + 1] == others[slot];
      DistinctPosition(Ids(tools), k, i);
      NthIndexIsNth(rest, isVisible, slot);
      DistinctPosition(Ids(tools), i + 1, if j < i then j else j + 1);
    } else {
      DistinctPosition(Ids(tools), |tools| - 1, i);
    }
  }

  /** `reorder`: right before or right after the target, which is another entry. */
  function MovedBeside(tools: seq<ToolEntry>, i: nat, t: nat, before: bool): seq<ToolEntry>
    requires i < |tools| && t < |tools| && i != t
  {
    var target := if t < i then t else t - 1;
    InsertAt(RemoveAt(tools, i), if before then target else target + 1, tools[i])
  }

  function Reordered(tools: seq<ToolEntry>, draggedId: string, targetId: string, before: bool): seq<ToolEntry> {
    var i, t := FirstIndex(tools, EnabledNamed(draggedId)), FirstIndex(tools, EnabledNamed(targetId));
    if draggedId == targetId || i.None? || t.None? then tools else MovedBeside(tools, i.value, t.value, before)
  }

  lemma MovedBesideMeaning(tools: seq<ToolEntry>, i: nat, t: nat, before: bool)
    requires Distinct(Ids(tools)) && i < |tools| && t < |tools| && i != t
    ensures var after := MovedBeside(tools, i, t, before);
      && MovesOnly(tools, after, Id(tools[i]))
      && (after == tools <==> Ids(after) == Ids(tools))
      && (exists k | 0 <= k < |after| - 1 ::
            if before then after[k] == tools[i] && after[k + 1] == tools[t]
            else after[k] == tools[t] && after[k + 1] == tools[i])
  {
    hide Distinct, Ids, MovesOnly;
    var target := if t < i then t else t - 1;
    RelocationMovesOnly(tools, i, if before then target else target + 1);
    StandsBeside(tools, i, t, before);
  }

  lemma StandsBeside(tools: seq<ToolEntry>, i: nat, t: nat, before: bool)
    requires i < |tools| && t < |tools| && i != t
    ensures var after := MovedBeside(tools, i, t, before);
      exists k | 0 <= k < |after| - 1 ::
        if before then after[k] == tools[i] && after[k + 1] == tools[t]
        else after[k] == tools[t] && after[k + 1] == tools[i]
  {
    var target := if t < i then t else t - 1;
    var rest, after := RemoveAt(tools, i), MovedBeside(tools, i, t, before);
    assert rest[target] == tools[t];
    if before {
      assert after[target] == tools[i] && after[target + 1] == rest[target];
    } else {
      assert after[target] == rest[target] && after[target + 1] == tools[i];
    }
  }

  /** The dragged tool lands in the target's own slot exactly when the side follows its direction of
      travel. */
  lemma TargetSlotIsTakenExactlyOnItsSide(tools: seq<ToolEntry>, i: nat, t: nat, before: bool)
    requires Distinct(Ids(tools)) && i < |tools| && t < |tools| && i != t
    ensures MovedBeside(tools, i, t, before)[t] == tools[i] <==> before == (i > t)
  {
    var after := MovedBeside(tools, i, t, before);
    if before != (i > t) {
      assert after[t] == tools[t];
      assert Ids(tools)[t] != Ids(tools)[i];
    }
  }

  /** Which side of the target a tool dragged onto it goes to; no answer when either is missing. */
  function SideTowards(tools: seq<ToolEntry>, draggedId: string, targetId: string): (before: Option<bool>) {
    var i, t := FirstIndex(tools, EnabledNamed(draggedId)), FirstIndex(tools, EnabledNamed(targetId));
    if draggedId == targetId || i.None? || t.None? then None else Some(i.value > t.value)
  }

  function LastEnabledId(tools: seq<ToolEntry>): Option<string> {
    var last := LastEnabled(tools);
    if last.None? then None else Some(Id(tools[last.value]))
  }

  /** The registry may change from `seen` to `now` between the choice of the side and the move. If both
      tools are still enabled then only the dragged one moves, and it takes the target's slot exactly
      when the two still stand in the order that was seen. */
  lemma DragOverChangedTools(seen: seq<ToolEntry>, now: seq<ToolEntry>, draggedId: string, targetId: string)
    requires Distinct(Ids(now)) && SideTowards(seen, draggedId, targetId).Some?
    ensures var side, sideNow := SideTowards(seen, draggedId, targetId), SideTowards(now, draggedId, targetId);
      var after := Reordered(now, draggedId, targetId, side.value);
      if sideNow.None? then after == now
      else
        var i, t := FirstIndex(now, EnabledNamed(draggedId)).value, FirstIndex(now, EnabledNamed(targetId)).value;
        MovesOnly(now, after, draggedId) && (after[t] == now[i] <==> side == sideNow)
  {
    var i, t := FirstIndex(now, EnabledNamed(draggedId)), FirstIndex(now, EnabledNamed(targetId));
    if i.Some? && t.Some? {
      var side := SideTowards(seen, draggedId, targetId).value;
      assert i.value != t.value;
      MovedBesideMeaning(now, i.value, t.value, side);
      TargetSlotIsTakenExactlyOnItsSide(now, i.value, t.value, side);
    }
  }

  /** The same for a move to the end: the dragged tool ends up last of the enabled ones exactly when no
      other enabled tool has come to stand behind the one that was seen last. */
  lemma MoveToEndOfChangedTools(seen: seq<ToolEntry>, now: seq<ToolEntry>, draggedId: string)
    requires Distinct(Ids(now)) && LastEnabledId(seen).Some?
    ensures var lastId := LastEnabledId(seen).value;
      var i, t := FirstIndex(now, EnabledNamed(draggedId)), FirstIndex(now, EnabledNamed(lastId));
      var after := Reordered(now, draggedId, lastId, false);
      if i.None? || t.None? then after == now
      else
        && MovesOnly(now, after, draggedId)
        && (LastEnabledId(after) == Some(draggedId)
            <==> forall j | t.value < j < |now| :: now[j].enabled ==> j == i.value)
  {
    hide Distinct, Ids, LastEnabledId, MovedBeside;
    var lastId := LastEnabledId(seen).value;
    var i, t := FirstIndex(now, EnabledNamed(draggedId)), FirstIndex(now, EnabledNamed(lastId));
    if i.Some? && t.Some? {
      if draggedId == lastId {
        LastEnabledIsAt(now, i.value);
      } else {
        MovedBesideMeaning(now, i.value, t.value, false);
        LastAfterMove(now, i.value, t.value);
      }
    }
  }

  // ---------------------------------------------------------------- applying a saved order

  /** A listed id ranks by its last place in the list; all others rank after the list. */
  function Rank(order: seq<string>, id: string): (r: nat)
    ensures r <= |order|
    ensures r < |order| <==> id in order
    ensures r < |order| ==> order[r] == id && id !in order[r + 1..]
  {
    RankWithin(order, id, |order|)
  }

  function RankWithin(order: seq<string>, id: string, n: nat): (r: nat)
    requires n <= |order| && id !in order[n..]
    ensures r <= |order| && (r < |order| <==> id in order)
    ensures r < |order| ==> order[r] == id && id !in order[r + 1..]
  {
    if n == 0 then |order|
    else if order[n - 1] == id then n - 1
    else
      assert order[n - 1..] == [order[n - 1]] + order[n..];
      RankWithin(order, id, n - 1)
  }

  function RankIn(order: seq<string>): ToolEntry -> nat {
    entry => Rank(order, Id(entry))
  }

  function Ordered(tools: seq<ToolEntry>, order: seq<string>): seq<ToolEntry> {
    if order == [] then tools else StableSort(tools, RankIn(order))
  }

  /** Applying an order loses nothing, puts listed tools first by last occurrence, and keeps the
      tools of equal rank (in particular all unlisted ones) in their previous order. */
  lemma OrderedMeaning(tools: seq<ToolEntry>, order: seq<string>)
    ensures multiset(Ordered(tools, order)) == multiset(tools)
    ensures forall i, j | 0 <= i < j < |Ordered(tools, order)| ::
      Rank(order, Id(Ordered(tools, order)[i])) <= Rank(order, Id(Ordered(tools, order)[j]))
    ensures SameClasses(Ordered(tools, order), tools, RankIn(order))
  {
    StableSortFacts(tools, RankIn(order));
  }

  lemma OrderingIsIdempotent(tools: seq<ToolEntry>, order: seq<string>)
    ensures Ordered(Ordered(tools, order), order) == Ordered(tools, order)
  {
    StableSortFacts(tools, RankIn(order));
    if order != [] {
      SortedIsFixed(Ordered(tools, order), RankIn(order));
    }
  }

  /** A saved order is restored exactly on any registry that holds the same ids. */
  lemma SavedOrderIsRestored(tools: seq<ToolEntry>, order: seq<string>)
    requires Distinct(order) && multiset(Ids(tools)) == multiset(order)
    ensures Ids(Ordered(tools, order)) == order
  {
    var ids := Ids(Ordered(tools, order));
    OrderedRanksRise(tools, order);
    forall i | 0 <= i < |ids|
      ensures ids[i] == order[i]
    {
      RanksCountUp(ids, order, i);
      RanksCountDown(ids, order, i);
    }
  }

  lemma OrderedRanksRise(tools: seq<ToolEntry>, order: seq<string>)
    requires Distinct(order) && multiset(Ids(tools)) == multiset(order)
    ensures RanksRise(Ids(Ordered(tools, order)), order)
  {
    var after := Ordered(tools, order);
    OrderedMeaning(tools, order);
    MapMultiset(tools, after, Id);
    var ids := Ids(after);
    assert |multiset(ids)| == |multiset(order)|;
    DistinctByMultiset(order, ids);
    forall id | id in ids
      ensures id in order
    {
      assert id in multiset(ids);
    }
  }

  ghost predicate RanksRise(ids: seq<string>, order: seq<string>) {
    && |ids| == |order| && Distinct(ids)
    && (forall i | 0 <= i < |ids| :: ids[i] in order)
    && forall i, j | 0 <= i < j < |ids| :: Rank(order, ids[i]) <= Rank(order, ids[j])
  }

  lemma {:induction false} RanksCountUp(ids: seq<string>, order: seq<string>, i: nat)
    requires RanksRise(ids, order) && i < |ids|
    ensures i <= Rank(order, ids[i])
  {
    if i > 0 {
      RanksCountUp(ids, order, i - 1);
      assert ids[i - 1] != ids[i];
    }
  }

  lemma {:induction false} RanksCountDown(ids: seq<string>, order: seq<string>, i: nat)
    requires RanksRise(ids, order) && i < |ids|
    ensures Rank(order, ids[i]) <= i
    decreases |ids| - i
  {
    if i + 1 < |ids| {
      RanksCountDown(ids, order, i + 1);
      assert ids[i] != ids[i + 1];
    }
  }

  // ---------------------------------------------------------------- the registry object

  function ToolNamed(id: string): Tool -> bool {
    (tool: Tool) => tool.id == id
  }

  /** Binds each entry, in order, to the tool that carries its id. */
  function GroupFor(entries: seq<PluginEntry>, descriptor: PluginDescriptor, pluginTools: seq<Tool>)
    : (group: seq<ToolEntry>)
    ensures forall entry | entry in group ::
      entry == ToolEntry(entry.tool, true, true, true, Some(descriptor)) && entry.tool in pluginTools
    ensures (forall entry | entry in entries :: entry.id in Map(pluginTools, ToolId))
      ==> Ids(group) == Map(entries, EntryId)
  {
    if entries == [] then []
    else
      var rest := GroupFor(entries[1..], descriptor, pluginTools);
      match FirstIndex(pluginTools, ToolNamed(entries[0].id))
      case Some(i) => [ToolEntry(pluginTools[i], true, true, true, Some(descriptor))] + rest
      case None =>
        assert entries[0].id !in Map(pluginTools, ToolId);
        rest
  }

  lemma GroupIsForDescriptor(descriptor: PluginDescriptor, pluginTools: seq<Tool>)
    requires FitsDescriptor(descriptor, pluginTools)
    ensures IsGroupFor(GroupFor(descriptor.EntryDescriptors(), descriptor, pluginTools), descriptor, pluginTools)
  {
    hide GroupFor;
    NoEntryIsMissing(Map(pluginTools, ToolId), descriptor.EntryIds()) by {
      forall id | id in Map(pluginTools, ToolId)
        ensures id in descriptor.EntryIds()
      {
        var i :| 0 <= i < |pluginTools| && pluginTools[i].id == id;
        assert pluginTools[i] in pluginTools;
      }
    }
    forall entry | entry in descriptor.EntryDescriptors()
      ensures entry.id in Map(pluginTools, ToolId)
    {
      var i :| 0 <= i < |descriptor.EntryDescriptors()| && descriptor.EntryDescriptors()[i] == entry;
      assert descriptor.EntryIds()[i] == entry.id;
    }
  }

  lemma PlainToolKeepsWellFormed(tools: seq<ToolEntry>, entry: ToolEntry)
    requires WellFormed(tools) && Id(entry) !in Ids(tools) && entry.plugin.None?
    ensures WellFormed(tools + [entry])
  {
    MapConcat(tools, [entry], Id);
    forall other | other in tools && other.plugin.Some?
      ensures PluginIntact(tools + [entry], other.plugin.value)
    {
      assert PluginIntact(tools, other.plugin.value);
      forall id | id in other.plugin.value.EntryIds()
        ensures HasOwnedTool(tools + [entry], id, other.plugin.value)
      {
        assert HasOwnedTool(tools, id, other.plugin.value);
      }
    }
  }

  /** Showing or hiding one entry. */
  predicate FlagsOnly(before: seq<ToolEntry>, after: seq<ToolEntry>) {
    && |before| == |after|
    && forall i | 0 <= i < |before| :: before[i].tool == after[i].tool && before[i].plugin == after[i].plugin
  }

  lemma FlagsKeepWellFormed(before: seq<ToolEntry>, after: seq<ToolEntry>)
    requires WellFormed(before) && FlagsOnly(before, after)
    ensures WellFormed(after) && Ids(after) == Ids(before)
    ensures forall id :: HasTools(before, id) <==> HasTools(after, id)
  {
    forall entry | entry in after && entry.plugin.Some?
      ensures PluginIntact(after, entry.plugin.value)
    {
      var i :| 0 <= i < |after| && after[i] == entry;
      assert before[i] in before;
      assert PluginIntact(before, entry.plugin.value);
      forall id | id in entry.plugin.value.EntryIds()
        ensures HasOwnedTool(after, id, entry.plugin.value)
      {
        assert HasOwnedTool(before, id, entry.plugin.value);
        var j :| 0 <= j < |before| && Id(before[j]) == id && before[j].plugin == entry.plugin;
        assert after[j] in after;
      }
      forall other | other in after && OwnedBy(other, entry.plugin.value.id)
        ensures other.plugin == entry.plugin && Id(other) in entry.plugin.value.EntryIds()
      {
        var j :| 0 <= j < |after| && after[j] == other;
        assert before[j] in before;
      }
    }
    forall id: string
      ensures HasTools(before, id) <==> HasTools(after, id)
    {
      if HasTools(before, id) {
        var i :| 0 <= i < |before| && OwnedBy(before[i], id);
        assert after[i] in after;
      }
      if HasTools(after, id) {
        var i :| 0 <= i < |after| && OwnedBy(after[i], id);
        assert before[i] in before;
      }
    }
  }

  lemma {:induction false} FilterKeepsLength<T>(s: seq<T>, p: T -> bool)
    ensures |Filter(s, p)| == |s| <==> forall x | x in s :: p(x)
  {
    if s != [] {
      FilterKeepsLength(s[1..], p);
      assert s == [s[0]] + s[1..];
    }
  }

  datatype Surface = Home | Sidebar

  predicate VisibleOn(entry: ToolEntry, surface: Surface) {
    if surface == Home then entry.homeVisible else entry.sidebarVisible
  }

  function WithVisibility(entry: ToolEntry, surface: Surface, visible: bool): ToolEntry {
    if surface == Home then entry.(homeVisible := visible) else entry.(sidebarVisible := visible)
  }

  /** `iter().rev().find(enabled)`. */
  function LastEnabled(tools: seq<ToolEntry>): (r: Option<nat>)
    ensures r.Some? ==> r.value < |tools| && tools[r.value].enabled
    ensures r.Some? ==> forall j | r.value < j < |tools| :: !tools[j].enabled
    ensures r.None? ==> forall j | 0 <= j < |tools| :: !tools[j].enabled
  {
    if tools == [] then None
    else if tools[|tools| - 1].enabled then Some(|tools| - 1)
    else LastEnabled(tools[..|tools| - 1])
  }

  class Registry {
    var tools: seq<ToolEntry>

    ghost predicate Valid()
      reads this
    {
      WellFormed(tools)
    }

    constructor ()
      ensures Valid() && tools == []
    {
      tools := [];
    }

    /** A duplicate id is ignored. */
    method Register(tool: Tool)
      requires Valid()
      modifies this
      ensures Valid()
      ensures tools == if tool.id in Ids(old(tools)) then old(tools)
        else old(tools) + [ToolEntry(tool, true, true, true, None)]
    {
      if tool.id in Ids(tools) {
        return;
      }
      var entry := ToolEntry(tool, true, true, true, None);
      PlainToolKeepsWellFormed(tools, entry);
      tools := tools + [entry];
    }

    /** The checks made before the registry is looked at. */
    static method CheckPluginTools(descriptor: PluginDescriptor, pluginTools: seq<Tool>)
      returns (r: Result<(), RegistrationError>)
      ensures r.Ok? <==> FitsDescriptor(descriptor, pluginTools)
      ensures r.Err? ==> !r.error.MissingToolEntry?
      ensures r.Ok? ==> forall id | id in descriptor.EntryIds() :: id in Map(pluginTools, ToolId)
    {
      if !descriptor.IsValid() {
        return Err(InvalidDescriptor);
      }
      var entries, entryIds := descriptor.EntryDescriptors(), descriptor.EntryIds();
      if |entries| != |pluginTools| {
        return Err(EntryCountMismatch(|entries|, |pluginTools|));
      }
      var toolIds: set<string> := {};
      for i := 0 to |pluginTools|
        invariant toolIds == set j | 0 <= j < i :: pluginTools[j].id
        invariant forall j | 0 <= j < i :: pluginTools[j].id in entryIds
        invariant forall j, k | 0 <= j < k < i :: pluginTools[j].id != pluginTools[k].id
      {
        var toolId := pluginTools[i].id;
        if toolId !in entryIds {
          assert pluginTools[i] in pluginTools;
          return Err(EntryIdMismatch(toolId));
        }
        if toolId in toolIds {
          ghost var j :| 0 <= j < i && pluginTools[j].id == toolId;
          assert Map(pluginTools, ToolId)[j] == Map(pluginTools, ToolId)[i];
          return Err(DuplicateEntryId(toolId));
        }
        toolIds := toolIds + {toolId};
      }
      NoEntryIsMissing(Map(pluginTools, ToolId), entryIds);
      for i := 0 to |entries|
      {
        var entryId := entries[i].id;
        assert entryId == entryIds[i] && entryId in Map(pluginTools, ToolId);
        if entryId !in toolIds {
          assert false;
          return Err(MissingToolEntry(entryId));
        }
      }
      return Ok(());
    }

    /** All entries of a plugin or none: a rejected group leaves the registry as it was. */
    method RegisterPluginEntries(descriptor: PluginDescriptor, pluginTools: seq<Tool>)
      returns (r: Result<(), RegistrationError>)
      requires Valid()
      modifies this
      ensures Valid()
      ensures r.Ok? <==> Accepts(old(tools), descriptor, pluginTools)
      ensures r.Err? ==> !r.error.MissingToolEntry?
      ensures tools == old(tools)
        + if r.Ok? then GroupFor(descriptor.EntryDescriptors(), descriptor, pluginTools) else []
      ensures r.Ok? ==>
        IsGroupFor(GroupFor(descriptor.EntryDescriptors(), descriptor, pluginTools), descriptor, pluginTools)
      ensures r.Ok? ==> HasTools(tools, descriptor.id)
      ensures r.Ok? ==> forall id | id != descriptor.id :: HasTools(tools, id) <==> HasTools(old(tools), id)
    {
      var _ :- CheckPluginTools(descriptor, pluginTools);
      var entries, entryIds := descriptor.EntryDescriptors(), descriptor.EntryIds();
      if HasTools(tools, descriptor.id) {
        return Err(DuplicatePluginId(descriptor.id));
      }
      match FirstIndex(tools, NamedOneOf(entryIds)) {
        case Some(i) =>
          assert tools[i] in tools;
          return Err(DuplicateEntryId(Id(tools[i])));
        case None =>
      }
      var group := GroupFor(entries, descriptor, pluginTools);
      GroupIsForDescriptor(descriptor, pluginTools);
      AppendKeepsWellFormed(tools, group, descriptor, pluginTools);
      tools := tools + group;
      return Ok(());
    }

    method UnregisterPlugin(pluginId: string) returns (removed: bool)
      requires Valid()
      modifies this
      ensures Valid()
      ensures tools == Filter(old(tools), NotOwnedBy(pluginId))
      ensures removed <==> HasTools(old(tools), pluginId)
      ensures !HasTools(tools, pluginId)
      ensures forall id | id != pluginId :: HasTools(tools, id) <==> HasTools(old(tools), id)
    {
      var before := |tools|;
      RemovalKeepsWellFormed(tools, pluginId);
      FilterKeepsLength(tools, NotOwnedBy(pluginId));
      tools := Filter(tools, NotOwnedBy(pluginId));
      removed := before != |tools|;
    }

    method SetEnabled(id: string, enabled: bool) returns (changed: bool)
      requires Valid()
      modifies this
      ensures Valid() && FlagsOnly(old(tools), tools)
      ensures changed <==> exists i | 0 <= i < |old(tools)| ::
        Id(old(tools)[i]) == id && old(tools)[i].enabled != enabled
      ensures forall i | 0 <= i < |tools| ::
        tools[i] == if Id(tools[i]) == id then old(tools)[i].(enabled := enabled) else old(tools)[i]
    {
      var found := FirstIndex(tools, Named(id));
      if found.None? || tools[found.value].enabled == enabled {
        UniqueName(tools, id);
        return false;
      }
      UniqueName(tools, id);
      var after := tools[found.value := tools[found.value].(enabled := enabled)];
      FlagsKeepWellFormed(tools, after);
      tools := after;
      return true;
    }

    /** `set_home_visible` and `set_sidebar_visible`. */
    method SetSurfaceVisibility(id: string, visible: bool, surface: Surface) returns (changed: bool)
      requires Valid()
      modifies this
      ensures Valid() && FlagsOnly(old(tools), tools)
      ensures changed <==> exists i | 0 <= i < |old(tools)| ::
        Id(old(tools)[i]) == id && VisibleOn(old(tools)[i], surface) != visible
      ensures forall i | 0 <= i < |tools| ::
        tools[i] == if Id(tools[i]) == id then WithVisibility(old(tools)[i], surface, visible) else old(tools)[i]
    {
      var found := FirstIndex(tools, Named(id));
      UniqueName(tools, id);
      if found.None? || VisibleOn(tools[found.value], surface) == visible {
        return false;
      }
      var after := tools[found.value := WithVisibility(tools[found.value], surface, visible)];
      FlagsKeepWellFormed(tools, after);
      tools := after;
      return true;
    }

    method ApplyOrder(order: seq<string>) returns (changed: bool)
      requires Valid()
      modifies this
      ensures Valid()
      ensures tools == Ordered(old(tools), order)
      ensures changed <==> Ids(tools) != Ids(old(tools))
    {
      if order == [] {
        return false;
      }
      var previous := Ids(tools);
      OrderedMeaning(tools, order);
      PermutationKeepsWellFormed(tools, Ordered(tools, order));
      tools := StableSort(tools, RankIn(order));
      changed := previous != Ids(tools);
    }

    /** Moves an enabled tool right before or right after another enabled tool. */
    method Reorder(draggedId: string, targetId: string, before: bool) returns (changed: bool)
      requires Valid()
      modifies this
      ensures Valid()
      ensures tools == Reordered(old(tools), draggedId, targetId, before)
      ensures changed <==> Ids(tools) != Ids(old(tools))
    {
      if draggedId == targetId {
        return false;
      }
      var found := FirstIndex(tools, EnabledNamed(draggedId));
      if found.None? || FirstIndex(tools, EnabledNamed(targetId)).None? {
        return false;
      }
      var previous := Ids(tools);
      ReorderedIsWellFormed(tools, draggedId, targetId, before);
      tools := TakeAndPlace(tools, found.value, targetId, before);
      changed := previous != Ids(tools);
    }

    /** Removes the entry at `i`, looks the target up again, and inserts beside it. */
    static method TakeAndPlace(tools: seq<ToolEntry>, i: nat, targetId: string, before: bool)
      returns (after: seq<ToolEntry>)
      requires Distinct(Ids(tools)) && i < |tools| && Id(tools[i]) != targetId
      requires FirstIndex(tools, EnabledNamed(targetId)).Some?
      ensures after == MovedBeside(tools, i, FirstIndex(tools, EnabledNamed(targetId)).value, before)
    {
      var dragged, rest := tools[i], RemoveAt(tools, i);
      var place := FirstIndex(rest, EnabledNamed(targetId));
      TargetAfterRemoval(tools, i, FirstIndex(tools, EnabledNamed(targetId)).value, targetId);
      var insertAt := if before then place.value else place.value + 1;
      after := InsertAt(rest, Min(insertAt, |rest|), dragged);
    }

    /** The dragged tool takes the slot the target had. */
    method ReorderToTarget(draggedId: string, targetId: string) returns (changed: bool)
      requires Valid()
      modifies this
      ensures Valid()
      ensures var i := FirstIndex(old(tools), EnabledNamed(draggedId));
        var t := FirstIndex(old(tools), EnabledNamed(targetId));
        if draggedId == targetId || i.None? || t.None? then tools == old(tools)
        else t.value < |tools| && tools[t.value] == old(tools)[i.value] && MovesOnly(old(tools), tools, draggedId)
      ensures changed <==> Ids(tools) != Ids(old(tools))
    {
      var before := TargetSide(draggedId, targetId);
      if before.None? {
        return false;
      }
      var i, t := FirstIndex(tools, EnabledNamed(draggedId)).value, FirstIndex(tools, EnabledNamed(targetId)).value;
      assert i != t;
      MovedBesideMeaning(tools, i, t, i > t);
      TargetSlotIsTakenExactlyOnItsSide(tools, i, t, i > t);
      changed := Reorder(draggedId, targetId, before.value);
    }

    /** The section under the read lock: whether the dragged tool goes before the target. */
    method TargetSide(draggedId: string, targetId: string) returns (before: Option<bool>)
      ensures before == SideTowards(tools, draggedId, targetId)
    {
      if draggedId == targetId {
        return None;
      }
      var dragged := FirstIndex(tools, EnabledNamed(draggedId));
      if dragged.None? {
        return None;
      }
      var target := FirstIndex(tools, EnabledNamed(targetId));
      if target.None? {
        return None;
      }
      return Some(dragged.value > target.value);
    }

    /** Moves a visible tool to a slot of the visible list; hidden tools stay registered. */
    method ReorderToIndexWhere(draggedId: string, visibleIndex: nat, isVisible: ToolEntry -> bool)
      returns (changed: bool)
      requires Valid()
      modifies this
      ensures Valid()
      ensures var found := FirstIndex(old(tools), VisibleNamed(isVisible, draggedId));
        if found.None? then tools == old(tools)
        else
          var others := Filter(RemoveAt(old(tools), found.value), isVisible);
          && tools == MovedToSlot(old(tools), found.value, visibleIndex, isVisible)
          && MovesOnly(old(tools), tools, draggedId)
          && StandsAtSlot(tools, old(tools)[found.value], others, visibleIndex)
          && Filter(tools, isVisible) == InsertAt(others, Min(visibleIndex, |others|), old(tools)[found.value])
          && (changed <==> !StandsAtSlot(old(tools), old(tools)[found.value], others, visibleIndex))
      ensures changed <==> Ids(tools) != Ids(old(tools))
    {
      var found := FirstIndex(tools, VisibleNamed(isVisible, draggedId));
      if found.None? {
        return false;
      }
      var previous := Ids(tools);
      var dragged, rest := tools[found.value], RemoveAt(tools, found.value);
      var remaining := |Filter(rest, isVisible)|;
      var target := Min(visibleIndex, remaining);
      var insertAt := if target == remaining then |rest| else NthIndex(rest, isVisible, target);
      MovedToSlotMeaning(tools, found.value, visibleIndex, isVisible);
      UnchangedExactlyInPlace(tools, found.value, visibleIndex, isVisible);
      PermutationKeepsWellFormed(tools, MovedToSlot(tools, found.value, visibleIndex, isVisible));
      tools := InsertAt(rest, insertAt, dragged);
      changed := previous != Ids(tools);
    }

    /** Moves an enabled tool behind every other enabled tool. */
    method MoveToEnd(draggedId: string) returns (changed: bool)
      requires Valid()
      modifies this
      ensures Valid()
      ensures FirstIndex(old(tools), EnabledNamed(draggedId)).None? ==> tools == old(tools)
      ensures FirstIndex(old(tools), EnabledNamed(draggedId)).Some? ==>
        && MovesOnly(old(tools), tools, draggedId)
        && LastEnabledId(tools) == Some(draggedId)
      ensures changed <==> Ids(tools) != Ids(old(tools))
    {
      var target := LastEnabledSection();
      if target.None? {
        return false;
      }
      ghost var last := LastEnabled(tools).value;
      ghost var i := FirstIndex(tools, EnabledNamed(draggedId));
      EnabledNameIsUnique(tools, last);
      if i.Some? && draggedId != target.value {
        MovedBesideMeaning(tools, i.value, last, false);
        LastAfterMove(tools, i.value, last);
      }
      changed := Reorder(draggedId, target.value, false);
    }

    /** The section under the read lock: the id of the last enabled tool. */
    method LastEnabledSection() returns (id: Option<string>)
      ensures id == LastEnabledId(tools)
    {
      var i := |tools|;
      while i > 0
        invariant 0 <= i <= |tools| && forall j | i <= j < |tools| :: !tools[j].enabled
      {
        i := i - 1;
        if tools[i].enabled {
          return Some(Id(tools[i]));
        }
      }
      return None;
    }
  }

  function Named(id: string): ToolEntry -> bool {
    entry => Id(entry) == id
  }

  function NamedOneOf(ids: seq<string>): ToolEntry -> bool {
    entry => Id(entry) in ids
  }

  lemma UniqueName(tools: seq<ToolEntry>, id: string)
    requires Distinct(Ids(tools))
    ensures forall i | 0 <= i < |tools| && Id(tools[i]) == id :: FirstIndex(tools, Named(id)) == Some(i)
  {
    forall i | 0 <= i < |tools| && Id(tools[i]) == id
      ensures FirstIndex(tools, Named(id)) == Some(i)
    {
      var j := FirstIndex(tools, Named(id)).value;
      DistinctPosition(Ids(tools), i, j);
    }
  }

  lemma EnabledNameIsUnique(tools: seq<ToolEntry>, i: nat)
    requires Distinct(Ids(tools)) && i < |tools| && tools[i].enabled
    ensures FirstIndex(tools, EnabledNamed(Id(tools[i]))) == Some(i)
  {
    var j := FirstIndex(tools, EnabledNamed(Id(tools[i]))).value;
    DistinctPosition(Ids(tools), i, j);
  }

  lemma MovedBesideKeepsWellFormed(tools: seq<ToolEntry>, i: nat, t: nat, before: bool)
    requires WellFormed(tools) && i < |tools| && t < |tools| && i != t
    ensures WellFormed(MovedBeside(tools, i, t, before))
  {
    MovedBesideMeaning(tools, i, t, before);
    PermutationKeepsWellFormed(tools, MovedBeside(tools, i, t, before));
  }

  lemma ReorderedIsWellFormed(tools: seq<ToolEntry>, draggedId: string, targetId: string, before: bool)
    requires WellFormed(tools)
    ensures WellFormed(Reordered(tools, draggedId, targetId, before))
  {
    var i, t := FirstIndex(tools, EnabledNamed(draggedId)), FirstIndex(tools, EnabledNamed(targetId));
    if draggedId != targetId && i.Some? && t.Some? {
      MovedBesideKeepsWellFormed(tools, i.value, t.value, before);
    }
  }

  lemma TargetAfterRemoval(tools: seq<ToolEntry>, i: nat, t: nat, targetId: string)
    requires Distinct(Ids(tools)) && i < |tools| && t < |tools| && i != t
    requires tools[t].enabled && Id(tools[t]) == targetId
    ensures FirstIndex(RemoveAt(tools, i), EnabledNamed(targetId)) == Some(if t < i then t else t - 1)
  {
    var rest, k := RemoveAt(tools, i), if t < i then t else t - 1;
    assert rest[k] == tools[t];
    var j := FirstIndex(rest, EnabledNamed(targetId)).value;
    DistinctPosition(Ids(tools), t, if j < i then j else j + 1);
  }

  /** Right behind an enabled tool, a moved tool is the last enabled one exactly when no other enabled
      tool stands behind that one. */
  lemma LastAfterMove(tools: seq<ToolEntry>, i: nat, t: nat)
    requires Distinct(Ids(tools)) && i < |tools| && t < |tools| && i != t
    requires tools[i].enabled && tools[t].enabled
    ensures LastEnabledId(MovedBeside(tools, i, t, false)) == Some(Id(tools[i]))
      <==> forall j | t < j < |tools| :: tools[j].enabled ==> j == i
  {
    hide Distinct, Ids, LastEnabledId, MovedBeside;
    var after, at := MovedBeside(tools, i, t, false), if i < t then t else t + 1;
    PlacedBehind(tools, i, t);
    DistinctAfterMove(tools, i, t);
    LastEnabledIsAt(after, at);
    if j :| t < j < |tools| && tools[j].enabled && j != i {
      assert after[if j < i then j + 1 else j] == tools[j];
    }
  }

  lemma PlacedBehind(tools: seq<ToolEntry>, i: nat, t: nat)
    requires i < |tools| && t < |tools| && i != t
    ensures var after, at := MovedBeside(tools, i, t, false), if i < t then t else t + 1;
      && |after| == |tools| && after[at] == tools[i]
      && (forall j | at < j < |tools| :: after[j] == tools[if j <= i then j - 1 else j])
      && (forall j | t < j < |tools| && j != i :: after[if j < i then j + 1 else j] == tools[j])
  {
  }

  lemma DistinctAfterMove(tools: seq<ToolEntry>, i: nat, t: nat)
    requires Distinct(Ids(tools)) && i < |tools| && t < |tools| && i != t
    ensures Distinct(Ids(MovedBeside(tools, i, t, false)))
  {
    hide Distinct, MovedBeside;
    MovedBesideMeaning(tools, i, t, false);
    MapMultiset(tools, MovedBeside(tools, i, t, false), Id);
    DistinctByMultiset(Ids(tools), Ids(MovedBeside(tools, i, t, false)));
  }

  lemma LastEnabledIsAt(tools: seq<ToolEntry>, k: nat)
    requires Distinct(Ids(tools)) && k < |tools| && tools[k].enabled
    ensures LastEnabledId(tools) == Some(Id(tools[k])) <==> forall j | k < j < |tools| :: !tools[j].enabled
  {
    hide Distinct, Ids;
    var last := LastEnabled(tools).value;
    if Id(tools[last]) == Id(tools[k]) {
      SameIdSamePlace(tools, last, k);
    }
  }

  lemma SameIdSamePlace(tools: seq<ToolEntry>, i: nat, j: nat)
    requires Distinct(Ids(tools)) && i < |tools| && j < |tools| && Id(tools[i]) == Id(tools[j])
    ensures i == j
  {
    DistinctPosition(Ids(tools), i, j);
  }
}
