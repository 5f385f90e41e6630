/** Plugin manifests: identity, entries, and the checks a manifest passes before it is accepted. */
module PluginDescriptors {
  import opened Seqs

  const MAX_PLUGIN_ID := 64
  const MAX_ENTRY_ID := 128
  const MAX_PLUGIN_ENTRIES := 16
  const MAX_ENTRY_PAYLOAD := 4 * 1024 * 1024
  const DEFAULT_ENTRY_PAYLOAD := 64 * 1024

  predicate IsLowerAlphanumeric(c: char) {
    'a' <= c <= 'z' || '0' <= c <= '9'
  }

  /** Stable identifiers: lower-case ASCII, starting with a letter or digit. */
  predicate IsIdentifier(value: string, max: nat) {
    && 0 < |value| <= max
    && IsLowerAlphanumeric(value[0])
    && forall c | c in value :: IsLowerAlphanumeric(c) || c in ['.', '_', '-']
  }

  datatype PluginEntry = PluginEntry(id: string, maxInput: nat, maxOutput: nat)
  {
    predicate IsValid() {
      IsIdentifier(id, MAX_ENTRY_ID) && 0 < maxInput <= MAX_ENTRY_PAYLOAD && 0 < maxOutput <= MAX_ENTRY_PAYLOAD
    }
  }

  function EntryId(entry: PluginEntry): string {
    entry.id
  }

  /** `otherFieldsValid` stands for the version, text, capability and setting checks, which none
      of the properties here depends on. */
  datatype PluginDescriptor = PluginDescriptor(
    id: string, entryId: string, entries: seq<PluginEntry>, capabilities: set<string>, otherFieldsValid: bool)
  {
    /** The explicit entries, or one made from the older single-entry fields. */
    function EntryDescriptors(): seq<PluginEntry> {
      if entries == [] then [PluginEntry(entryId, DEFAULT_ENTRY_PAYLOAD, DEFAULT_ENTRY_PAYLOAD)] else entries
    }

    function EntryIds(): (ids: seq<string>)
      ensures ids != []
    {
      Map(EntryDescriptors(), EntryId)
    }

    predicate IsValid() {
      && IsIdentifier(id, MAX_PLUGIN_ID)
      && otherFieldsValid
      && |EntryDescriptors()| <= MAX_PLUGIN_ENTRIES
      && (forall entry | entry in EntryDescriptors() :: entry.IsValid())
      && Distinct(EntryIds())
      && entryId in EntryIds()
    }
  }
}
