/** Data model shared by the entry editor and the resolved-field equality:
    the v2 entry configuration, its entry and field matchers, and fields.
    A C# reference that may be null is an `Option`; arrays that the editor
    only replaces wholesale are sequences. */
module Shared {

  datatype Option<+T> = None | Some(value: T)

  /** A C# `int`: 32-bit two's complement. */
  newtype int32 = x: int | -0x8000_0000 <= x < 0x8000_0000

  /** The two's-complement bit pattern of an `int32`. */
  function Bits(x: int32): bv32 {
    (if x < 0 then x as int + 0x1_0000_0000 else x as int) as bv32
  }

  /** The `int32` whose bit pattern is `b` (an `unchecked` reinterpretation). */
  function FromBits(b: bv32): int32 {
    if b < 0x8000_0000 then b as int as int32 else (b as int - 0x1_0000_0000) as int32
  }

  /** The field-name constants of the host vault (`PwDefs.UserNameField`,
      `PwDefs.PasswordField`); a field whose value path is one of them stands
      for the entry's own user name or password. */
  const UserNameField: string := "UserName"
  const PasswordField: string := "Password"

  /** The value path of a field that holds its own literal value. */
  const LiteralValuePath: string := "."

  datatype MatchAccuracyMethod = Domain | Hostname | Exact

  datatype EntryMatcherType = Hide | Url

  datatype EntryMatcherConfig = EntryMatcherConfig(
    matcherType: EntryMatcherType,
    urlMatchMethod: Option<MatchAccuracyMethod>)

  /** `Custom` is the matcher the editor writes; the built-in matcher types
      are told apart only by their ordinal. */
  datatype FieldMatcherType = Custom | BuiltIn(ordinal: nat)

  /** `Ids` and `Names` are nullable arrays of nullable strings. */
  datatype CustomMatcher = CustomMatcher(
    ids: Option<seq<Option<string>>>,
    names: Option<seq<Option<string>>>,
    htmlType: Option<string>,
    querySelector: Option<string>)

  datatype FieldMatcherConfig = FieldMatcherConfig(
    matcherType: Option<FieldMatcherType>,
    customMatcher: Option<CustomMatcher>)

  /** A `FieldType` enum value, given by its underlying integer (the
      enumeration's members are declared outside this model). */
  type FieldType = int32

  datatype PlaceholderHandling = Default | Enabled | Disabled

  datatype Field = Field(
    uuid: Option<string>,
    name: Option<string>,
    valuePath: Option<string>,
    value: Option<string>,
    page: int32,
    fieldType: FieldType,
    placeholderHandling: Option<PlaceholderHandling>,
    matcherConfigs: Option<seq<Option<FieldMatcherConfig>>>)

  datatype EntryAutomationBehaviour =
    | Default
    | AlwaysAutoFill
    | NeverAutoSubmit
    | AlwaysAutoFillAlwaysAutoSubmit
    | NeverAutoFillNeverAutoSubmit
    | AlwaysAutoFillNeverAutoSubmit

  /** The v2 entry configuration (`EntryConfigv2`). */
  datatype EntryConfig = EntryConfig(
    matcherConfigs: seq<EntryMatcherConfig>,
    fields: seq<Field>,
    behaviour: Option<EntryAutomationBehaviour>,
    httpRealm: Option<string>,
    altUrls: seq<string>,
    blockedUrls: seq<string>,
    regExUrls: seq<string>,
    regExBlockedUrls: seq<string>)
}
