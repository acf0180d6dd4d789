/** The fields of the entry editor (KeePassRPC/Forms/KeeEntryUserControl.cs):
    how a field is built from the field dialog's result when one is added or
    edited, and which id and name Load shows for a stored field. */
module FieldEditing {
  import opened Shared

  /** What the field dialog returns on OK. */
  datatype FieldDialogResult = FieldDialogResult(
    id: Option<string>,
    name: Option<string>,
    htmlType: Option<string>,
    querySelector: Option<string>,
    page: int32,
    fieldType: FieldType,
    value: Option<string>,
    placeholderHandling: PlaceholderHandling)

  predicate IsNullOrEmpty(s: Option<string>) {
    s.None? || s.value == ""
  }

  /** `Math.Max(page, 1)`. */
  function ClampPage(page: int32): (r: int32)
    ensures r >= 1 && r >= page
    ensures r == page || r == 1
  {
    if page < 1 then 1 else page
  }

  /** What both handlers take over from the dialog: the type and a single
      matcher as given, the page raised to at least 1, an empty value stored
      as null, and `Default` placeholder handling stored as null. */
  predicate FromDialog(f: Field, d: FieldDialogResult, mc: FieldMatcherConfig) {
    && f.fieldType == d.fieldType
    && f.matcherConfigs == Some([Some(mc)])
    && f.page == ClampPage(d.page)
    && (f.value == None <==> IsNullOrEmpty(d.value))
    && (f.value != None ==> f.value == d.value)
    && (f.placeholderHandling == None <==> d.placeholderHandling == PlaceholderHandling.Default)
    && (f.placeholderHandling != None ==> f.placeholderHandling.value == d.placeholderHandling)
  }

  /** The field the add handler builds: a fresh id serves as both uuid and
      name, and the value path "." marks a literal value. `mc` is the matcher
      built from the dialog's id, name, HTML type and selector. */
  function NewField(d: FieldDialogResult, freshId: string, mc: FieldMatcherConfig): (f: Field)
    ensures f.uuid == Some(freshId) && f.name == Some(freshId)
    ensures f.valuePath == Some(LiteralValuePath)
    ensures FromDialog(f, d, mc)
  {
    Field(
      uuid := Some(freshId),
      name := Some(freshId),
      valuePath := Some(LiteralValuePath),
      value := if !IsNullOrEmpty(d.value) then d.value else None,
      page := ClampPage(d.page),
      fieldType := d.fieldType,
      placeholderHandling := if d.placeholderHandling == PlaceholderHandling.Default then None else Some(d.placeholderHandling),
      matcherConfigs := Some([Some(mc)]))
  }

  predicate IsStandardPath(valuePath: Option<string>) {
    valuePath == Some(PasswordField) || valuePath == Some(UserNameField)
  }

  /** The field the edit handler builds from the edited field `tag`: it keeps
      the uuid and the value path; the name is null for the entry's own user
      name or password, otherwise the old name, or the uuid when the old name
      is empty. */
  function EditedField(tag: Field, d: FieldDialogResult, mc: FieldMatcherConfig): (f: Field)
    ensures f.uuid == tag.uuid && f.valuePath == tag.valuePath
    ensures IsStandardPath(tag.valuePath) ==> f.name == None
    ensures !IsStandardPath(tag.valuePath) && !IsNullOrEmpty(tag.name) ==> f.name == tag.name
    ensures !IsStandardPath(tag.valuePath) && IsNullOrEmpty(tag.name) ==> f.name == tag.uuid
    ensures FromDialog(f, d, mc)
  {
    var displayName :=
      if tag.valuePath == Some(PasswordField) then None
      else if tag.valuePath == Some(UserNameField) then None
      else if IsNullOrEmpty(tag.name) then tag.uuid
      else tag.name;
    Field(
      uuid := tag.uuid,
      name := displayName,
      valuePath := tag.valuePath,
      value := if !IsNullOrEmpty(d.value) then d.value else None,
      page := ClampPage(d.page),
      fieldType := d.fieldType,
      placeholderHandling := if d.placeholderHandling == PlaceholderHandling.Default then None else Some(d.placeholderHandling),
      matcherConfigs := Some([Some(mc)]))
  }

  /** A field added and then edited any number of times keeps the identity
      it was given: its uuid, its name and its literal value path. */
  lemma {:induction false} EditsKeepIdentity(d: FieldDialogResult, freshId: string, mc: FieldMatcherConfig,
                                             edits: seq<(FieldDialogResult, FieldMatcherConfig)>)
    ensures var f := EditAll(NewField(d, freshId, mc), edits);
      f.uuid == Some(freshId) && f.name == Some(freshId) && f.valuePath == Some(LiteralValuePath)
  {
    if edits != [] {
      EditsKeepIdentity(d, freshId, mc, edits[..|edits| - 1]);
    }
  }

  /** The field after a series of edits. */
  function EditAll(f: Field, edits: seq<(FieldDialogResult, FieldMatcherConfig)>): Field {
    if edits == [] then f
    else
      var last := edits[|edits| - 1];
      EditedField(EditAll(f, edits[..|edits| - 1]), last.0, last.1)
  }

  /** A matcher Load takes for the id and name columns: not null, with an
      unset type or type `Custom`. */
  predicate IsCustom(mc: Option<FieldMatcherConfig>) {
    mc.Some? && (mc.value.matcherType == None || mc.value.matcherType == Some(Custom))
  }

  predicate IsFirstCustom(mcs: seq<Option<FieldMatcherConfig>>, i: int) {
    0 <= i < |mcs| && IsCustom(mcs[i]) && forall j | 0 <= j < i :: !IsCustom(mcs[j])
  }

  function FirstCustomIndex(mcs: seq<Option<FieldMatcherConfig>>): (r: Option<nat>)
    ensures r.Some? ==> IsFirstCustom(mcs, r.value)
    ensures r.None? ==> forall j | 0 <= j < |mcs| :: !IsCustom(mcs[j])
  {
    if mcs == [] then None
    else if IsCustom(mcs[0]) then Some(0)
    else match FirstCustomIndex(mcs[1..])
      case None => None
      case Some(i) => Some(i + 1)
  }

  /** The first entry of a nullable array of nullable strings, or "" when
      the array is null or empty or its first entry is null. */
  function FirstOrEmpty(xs: Option<seq<Option<string>>>): string {
    if xs.Some? && |xs.value| > 0 && xs.value[0].Some? then xs.value[0].value else ""
  }

  function Ids(mc: FieldMatcherConfig): Option<seq<Option<string>>> {
    if mc.customMatcher.Some? then mc.customMatcher.value.ids else None
  }

  function Names(mc: FieldMatcherConfig): Option<seq<Option<string>>> {
    if mc.customMatcher.Some? then mc.customMatcher.value.names else None
  }

  /** The id and name Load shows for a stored field: the first id and first
      name of its first custom matcher, each "" when absent. */
  function ShownIdName(f: Field): (r: (string, string))
    ensures f.matcherConfigs == None ==> r == ("", "")
    ensures f.matcherConfigs != None && (forall j | 0 <= j < |f.matcherConfigs.value| :: !IsCustom(f.matcherConfigs.value[j]))
      ==> r == ("", "")
    ensures f.matcherConfigs != None ==> forall i | IsFirstCustom(f.matcherConfigs.value, i) ::
      r == (FirstOrEmpty(Ids(f.matcherConfigs.value[i].value)), FirstOrEmpty(Names(f.matcherConfigs.value[i].value)))
  {
    if f.matcherConfigs == None then ("", "")
    else match FirstCustomIndex(f.matcherConfigs.value)
      case None => ("", "")
      case Some(i) =>
        var customFmc := f.matcherConfigs.value[i].value;
        (FirstOrEmpty(Ids(customFmc)), FirstOrEmpty(Names(customFmc)))
  }
}
