/** The change-detection writer of the entry editor
    (KeePassRPC/Forms/KeeEntryUserControl.cs, `UpdateKPRPCJSON` and
    `DontUpdateEntryConfig`): whether the serialised configuration is written
    into the entry's custom data, and what that write does to the custom data
    and to the legacy string slot of the same name. */
module ChangeDetection {
  import opened Shared

  /** The key of the configuration, both in custom data and in the legacy
      protected strings. */
  const ConfigKey: string := "KPRPC JSON"

  datatype WriteDecision = Skip | Write(json: string)

  /** `StringDictionaryEx.Get`: the value, or null when the key is absent. */
  function Lookup(m: map<string, string>, key: string): (r: Option<string>)
    ensures r == None <==> key !in m
    ensures r != None ==> key in m && m[key] == r.value
  {
    if key in m then Some(m[key]) else None
  }

  /** `DontUpdateEntryConfig`: before Load has finished, or for an entry
      opened read-only, nothing is written. */
  predicate DontUpdate(loaded: bool, readOnly: bool) {
    !loaded || readOnly
  }

  /** `DontUpdateEntryConfig` is the writer's gate: when it holds nothing is
      ever written, and when it does not a configuration that is new to the
      custom data is written. */
  lemma DontUpdateGatesWrites(loaded: bool, readOnly: bool)
    ensures DontUpdate(loaded, readOnly) <==>
      forall isDefault: bool, stored: Option<string>, serialized: string ::
        Decide(loaded, readOnly, isDefault, stored, serialized) == Skip
  {
    if !DontUpdate(loaded, readOnly) {
      assert Decide(loaded, readOnly, false, None, "") == Write("");
    }
  }

  /** The decision `UpdateKPRPCJSON` takes. `isDefault` says whether the
      configuration equals the default one, `stored` is the custom-data value
      under the key, and `serialized` the serialised configuration. */
  function Decide(loaded: bool, readOnly: bool, isDefault: bool, stored: Option<string>, serialized: string): (d: WriteDecision)
    ensures d != Skip ==> d == Write(serialized)
    ensures DontUpdate(loaded, readOnly) ==> d == Skip
    ensures isDefault && stored == None ==> d == Skip
    ensures stored == Some(serialized) ==> d == Skip
    ensures !DontUpdate(loaded, readOnly) && (!isDefault || stored != None) && stored != Some(serialized)
      ==> d == Write(serialized)
  {
    if DontUpdate(loaded, readOnly) then Skip
    else if !isDefault || stored.Some? then
      if stored.Some? && serialized == stored.value then Skip else Write(serialized)
    else Skip
  }

  /** The custom data after a decision: a write sets the key, and only it. */
  function ApplyToCustomData(d: WriteDecision, customData: map<string, string>): (r: map<string, string>)
    ensures d == Skip ==> r == customData
    ensures d != Skip ==> ConfigKey in r && r[ConfigKey] == d.json
    ensures forall k | k != ConfigKey :: (k in r <==> k in customData) && (k in r ==> r[k] == customData[k])
  {
    match d
    case Skip => customData
    case Write(json) => customData[ConfigKey := json]
  }

  /** The legacy strings after a decision: a write removes the key, and
      only it. */
  function ApplyToStrings(d: WriteDecision, strings: map<string, string>): (r: map<string, string>)
    ensures d == Skip ==> r == strings
    ensures d != Skip ==> ConfigKey !in r
    ensures forall k | k != ConfigKey :: (k in r <==> k in strings) && (k in r ==> r[k] == strings[k])
  {
    match d
    case Skip => strings
    case Write(_) => strings - {ConfigKey}
  }

  /** Running the writer a second time on the same configuration writes
      nothing: after a write the stored value equals the serialised one, and
      after a skip the inputs are unchanged. */
  lemma SecondUpdateIsNoOp(loaded: bool, readOnly: bool, isDefault: bool, customData: map<string, string>, serialized: string)
    ensures var d := Decide(loaded, readOnly, isDefault, Lookup(customData, ConfigKey), serialized);
      var customData' := ApplyToCustomData(d, customData);
      Decide(loaded, readOnly, isDefault, Lookup(customData', ConfigKey), serialized) == Skip
  {
  }

  /** A default configuration on an entry that has no stored configuration is
      not written; once a stored configuration exists, the same default
      configuration is written whenever its serialised form differs. */
  lemma DefaultConfigurationWrites(readOnly: bool, customData: map<string, string>, serialized: string)
    requires !readOnly
    ensures ConfigKey !in customData ==> Decide(true, readOnly, true, Lookup(customData, ConfigKey), serialized) == Skip
    ensures ConfigKey in customData && customData[ConfigKey] != serialized ==>
      Decide(true, readOnly, true, Lookup(customData, ConfigKey), serialized) == Write(serialized)
  {
  }
}
