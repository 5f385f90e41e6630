/** The first-party catalog: at most 256 entries, no plugin entry listed twice. */
module PluginCatalog {
  import opened Wrappers
  import opened Seqs
  import opened PluginDescriptors

  const MAX_CATALOG_ENTRIES: nat := 256

  datatype CatalogEntry = CatalogEntry(pluginId: string, entryId: string, web: bool)

  datatype CatalogError = TooManyEntries | DuplicateEntry(pluginId: string, entryId: string)

  function Key(entry: CatalogEntry): (string, string) {
    (entry.pluginId, entry.entryId)
  }

  function Keys(entries: seq<CatalogEntry>): seq<(string, string)> {
    Map(entries, Key)
  }

  function ListedBeside(pluginId: string): CatalogEntry -> bool {
    (entry: CatalogEntry) => entry.pluginId != pluginId
  }

  /** The entries a plugin lists unless it overrides them: one per manifest entry, desktop only. */
  function DefaultEntries(descriptor: PluginDescriptor): seq<CatalogEntry> {
    Map(descriptor.EntryDescriptors(), (entry: PluginEntry) => CatalogEntry(descriptor.id, entry.id, false))
  }

  /** A group fits when the limit holds and the catalog stays free of repetition. */
  ghost predicate Fits(catalog: seq<CatalogEntry>, group: seq<CatalogEntry>) {
    |catalog| + |group| <= MAX_CATALOG_ENTRIES && Distinct(Keys(catalog + group))
  }

  /** The default entries of a valid plugin that is not listed yet are refused only for their number. */
  lemma DefaultEntriesFit(catalog: seq<CatalogEntry>, descriptor: PluginDescriptor)
    requires Distinct(Keys(catalog)) && descriptor.IsValid()
    requires forall entry | entry in catalog :: entry.pluginId != descriptor.id
    ensures Fits(catalog, DefaultEntries(descriptor))
      <==> |catalog| + |descriptor.EntryDescriptors()| <= MAX_CATALOG_ENTRIES
  {
    var group := DefaultEntries(descriptor);
    var keys := Keys(catalog + group);
    forall i, j | 0 <= i < j < |keys|
      ensures keys[i] != keys[j]
    {
      if j < |catalog| {
        assert keys[i] == Keys(catalog)[i] && keys[j] == Keys(catalog)[j];
      } else if i < |catalog| {
        assert catalog[i] in catalog;
        assert keys[j].0 == descriptor.id;
      } else {
        assert keys[i].1 == descriptor.EntryIds()[i - |catalog|];
        assert keys[j].1 == descriptor.EntryIds()[j - |catalog|];
      }
    }
  }

  lemma {:induction false} RemovalKeepsDistinct(catalog: seq<CatalogEntry>, p: CatalogEntry -> bool)
    requires Distinct(Keys(catalog))
    ensures Distinct(Keys(Filter(catalog, p)))
  {
    if catalog != [] {
      var rest, kept := catalog[1..], Filter(catalog[1..], p);
      assert forall i | 0 <= i < |rest| :: Keys(rest)[i] == Keys(catalog)[i + 1];
      RemovalKeepsDistinct(rest, p);
      forall j | 0 <= j < |kept|
        ensures Key(kept[j]) != Key(catalog[0])
      {
        assert kept[j] in rest;
        var i :| 0 <= i < |rest| && rest[i] == kept[j];
        assert Keys(catalog)[i + 1] != Keys(catalog)[0];
      }
      forall i, j | 0 <= i < j < |kept| + 1
        ensures Keys([catalog[0]] + kept)[i] != Keys([catalog[0]] + kept)[j]
      {
        if i > 0 { assert Keys(kept)[i - 1] != Keys(kept)[j - 1]; }
      }
    }
  }

  class Catalog {
    var entries: seq<CatalogEntry>

    ghost predicate Valid()
      reads this
    {
      Distinct(Keys(entries)) && |entries| <= MAX_CATALOG_ENTRIES
    }

    constructor ()
      ensures Valid() && entries == []
    {
      entries := [];
    }

    /** Adds a group or nothing. */
    method Register(group: seq<CatalogEntry>) returns (r: Result<(), CatalogError>)
      requires Valid()
      modifies this
      ensures Valid()
      ensures r.Ok? <==> Fits(old(entries), group)
      ensures entries == if r.Ok? then old(entries) + group else old(entries)
      ensures r == Err(TooManyEntries) <==> |old(entries)| + |group| > MAX_CATALOG_ENTRIES
    {
      if |entries| + |group| > MAX_CATALOG_ENTRIES {
        return Err(TooManyEntries);
      }
      var keys := set k | k in Keys(entries);
      ghost var all := Keys(entries + group);
      assert entries + group[..0] == entries;
      for i := 0 to |group|
        invariant Distinct(Keys(entries + group[..i]))
        invariant forall k :: k in keys <==> k in Keys(entries + group[..i])
      {
        ghost var seen := Keys(entries + group[..i]);
        var key := Key(group[i]);
        assert Keys(entries + group[..i + 1]) == seen + [key];
        if key in keys {
          ghost var j :| 0 <= j < |seen| && seen[j] == key;
          assert all[j] == all[|entries| + i];
          return Err(DuplicateEntry(group[i].pluginId, group[i].entryId));
        }
        keys := keys + {key};
      }
      assert group[..|group|] == group;
      entries := entries + group;
      return Ok(());
    }

    method RemovePlugin(pluginId: string)
      requires Valid()
      modifies this
      ensures Valid()
      ensures entries == Filter(old(entries), ListedBeside(pluginId))
    {
      RemovalKeepsDistinct(entries, ListedBeside(pluginId));
      entries := Filter(entries, ListedBeside(pluginId));
    }
  }
}
