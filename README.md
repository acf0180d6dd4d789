# Kee entry editor and resolved-field equality, in Dafny

This project models two pieces of KeePassRPC, the KeePass plugin behind the
Kee browser extension:

- **The Kee tab of KeePass's entry editing dialog**
  (`KeePassRPC/Forms/KeeEntryUserControl.cs`). This is an object that holds
  an entry's v2 configuration, `EntryConfigv2`. It also holds:
  - the widgets that show the configuration: the autofill and autosubmit
    combo boxes, the "hide from Kee" box and the three URL-accuracy radios;
  - four URL lists, literal or pattern and allowing or denying, all shown as
    the rows of one URL list view;
  - the rows of the field list view;
  - the entry's custom data and legacy protected strings.

  Load fills the widgets from the configuration. Every handler changes the
  configuration and then runs the change-detection writer
  (`UpdateKPRPCJSON`). The writer stores the serialised configuration under
  "KPRPC JSON" in the custom data, and drops the legacy string of that name,
  unless:
  - the configuration is the default one and nothing is stored yet;
  - the stored text is already current;
  - Load has not finished;
  - the entry was opened read-only.
- **Equality and hashing of `ResolvedField`**
  (`KeePassRPC/Models/Shared/ResolvedField.cs`).

Modules and what they hold:

- **`Shared`**: the configuration data model, as immutable datatypes.
- **`BehaviourCombinator`**: the two combo boxes projected onto six stored
  behaviour states and back.
- **`ChangeDetection`**: the writer's decision and what a write does to the
  custom data and strings.
- **`EntryMatchers`**: the hide box and the accuracy radios acting on the
  entry matchers.
- **`FieldEditing`**: the fields built by the field dialog handlers, and the
  id and name Load shows for a stored field.
- **`UrlLists`**: the rows of the URL list view and how they read back as the
  four lists.
- **`EntryEditor`**: the editor itself, a class whose fields are the state
  above and whose methods are the handlers, each with a `modifies` frame.
  - **`Valid()`**: once loaded, the configuration holds the four lists and
    the fields in row order, and the widgets show the configuration as Load
    would.
  - **`UrlsShown()`**: the URL rows are exactly the rows of the four lists,
    counted with multiplicity. Edits can leave the rows in a different order
    from a fresh load.
- **`ResolvedFields`**: a class with `Equals`, `Equals(object)`,
  `GetHashCode` and both operators.

The runtime pieces become parameters of the editor, fixed when it is
constructed:
- JSON serialisation;
- the comparison with the default configuration;
- the read-only edit mode;
- `FieldMatcherConfig.ForSingleClientMatch`;
- the accuracy radio that `InitializeComponent` leaves checked, since the
  form designer file is not part of this model.

Two inputs are passed to the operations that use them:
- the fresh GUID text for a new field;
- the hash functions of strings, arrays and enum values.

Two behaviours of the code worth knowing:
- **Autofill combo, autosubmit "Always".** Choosing "Use Kee setting" for
  autofill while autosubmit shows "Always" gives `Default`, so autosubmit
  falls back to "Use Kee setting". Nothing is promoted to "Always".
- **`ResolvedField` equality.** It compares the `MatcherConfigs` arrays by
  reference. It also throws on a null uuid once the resolved values agree.
  It is therefore not a comparison of contents.

## Model

| member | source | states |
|---|---|---|
| BehaviourCombinator.Render | KeePassRPC/Forms/KeeEntryUserControl.cs:276-322 | Autofill is locked exactly in always-autofill-always-autosubmit, and autosubmit exactly in never-autofill-never-autosubmit. "Always" autosubmit is shown only with "Always" autofill, and "Never" autofill only with "Never" autosubmit. |
| BehaviourCombinator.AutoFillChanged | KeePassRPC/Forms/KeeEntryUserControl.cs:226-248 | The chosen state shows the picked autofill value. It keeps the autosubmit value, with two exceptions: "Never" autofill forces "Never", and "Always" autosubmit falls back to "Use Kee setting" under "Use Kee setting" autofill. |
| BehaviourCombinator.AutoSubmitChanged | KeePassRPC/Forms/KeeEntryUserControl.cs:250-272 | The chosen state shows the picked autosubmit value. It keeps the autofill value, with two exceptions: "Always" autosubmit forces "Always", and "Never" autofill falls back under "Use Kee setting" autosubmit. |
| BehaviourCombinator.Stored | KeePassRPC/Forms/KeeEntryUserControl.cs:278-322 | `Default` is stored as null, and every other state as itself. |
| BehaviourCombinator.Current | KeePassRPC/Forms/KeeEntryUserControl.cs:204 | A null stored value reads as `Default`, and any other as itself. |
| BehaviourCombinator.StoredRoundTrip | KeePassRPC/Forms/KeeEntryUserControl.cs:201-205 | Storing a state and reading it back gives the same state. A stored value survives the round trip unless it is an explicit `Default`. |
| BehaviourCombinator.RenderIsInjective | KeePassRPC/Forms/KeeEntryUserControl.cs:276-322 | Two states that show the same combo texts are the same state. |
| BehaviourCombinator.RenderRoundTrip | KeePassRPC/Forms/KeeEntryUserControl.cs:226-272 | Feeding the texts shown for any state to either combo handler selects that state again. |
| BehaviourCombinator.PromotionRules | KeePassRPC/Forms/KeeEntryUserControl.cs:226-305 | "Never" autofill always gives never/never, with autosubmit locked. "Always" autosubmit always gives always/always, with autofill locked. |
| ChangeDetection.Lookup | KeePassRPC/Forms/KeeEntryUserControl.cs:68 | The stored value is absent exactly when the key is missing, and is otherwise the value under the key. |
| ChangeDetection.DontUpdateGatesWrites | KeePassRPC/Forms/KeeEntryUserControl.cs:53-56 | `DontUpdateEntryConfig` holds, before Load has finished or on a read-only entry, exactly when the writer skips every input. |
| ChangeDetection.Decide | KeePassRPC/Forms/KeeEntryUserControl.cs:57-76 | These cases write nothing: before load, read-only, default with nothing stored, or the stored text equal to the serialised one. In every other case the serialised text is written, and a write only ever writes the serialised text. |
| ChangeDetection.ApplyToCustomData | KeePassRPC/Forms/KeeEntryUserControl.cs:70 | A write sets "KPRPC JSON" to the text and leaves every other key as it was. A skip changes nothing. |
| ChangeDetection.ApplyToStrings | KeePassRPC/Forms/KeeEntryUserControl.cs:71-74 | A write removes the legacy "KPRPC JSON" string and leaves every other key as it was. A skip changes nothing. |
| ChangeDetection.SecondUpdateIsNoOp | KeePassRPC/Forms/KeeEntryUserControl.cs:64-70 | Running the writer again on the same configuration writes nothing. |
| ChangeDetection.DefaultConfigurationWrites | KeePassRPC/Forms/KeeEntryUserControl.cs:64-65 | A default configuration is not written for an entry with nothing stored. It is written once a different text is stored. |
| EntryMatchers.WithHide | KeePassRPC/Forms/KeeEntryUserControl.cs:80-87 | Checking the box leaves a `Hide` matcher present. The old list is kept as a prefix, with one `Hide` matcher appended only when none was there. |
| EntryMatchers.WithoutHide | KeePassRPC/Forms/KeeEntryUserControl.cs:95-99 | Unchecking the box leaves no `Hide` matcher, and every other matcher stays. |
| EntryMatchers.WithoutHideAppend | KeePassRPC/Forms/KeeEntryUserControl.cs:97-98 | Removing the `Hide` matchers works piecewise, so the kept matchers keep their order. |
| EntryMatchers.WithoutHideKeepsOthers | KeePassRPC/Forms/KeeEntryUserControl.cs:97-98 | A list without `Hide` matchers is left exactly as it is. |
| EntryMatchers.HideToggleLaws | KeePassRPC/Forms/KeeEntryUserControl.cs:78-108 | Checking twice equals checking once, and unchecking twice equals unchecking once. Checking then unchecking leaves exactly the non-`Hide` matchers. |
| EntryMatchers.FirstUrlIndex | KeePassRPC/Forms/KeeEntryUserControl.cs:118 | The position found is the first `Url` matcher, and there is none exactly when no `Url` matcher exists. |
| EntryMatchers.FirstUrlMatcher | KeePassRPC/Forms/KeeEntryUserControl.cs:118 | `FirstOrDefault` gives null exactly when there is no `Url` matcher, and otherwise the first one. |
| EntryMatchers.ShownAccuracy | KeePassRPC/Forms/KeeEntryUserControl.cs:118-131 | The radio Load checks is Exact when there is no `Url` matcher. Otherwise it follows the first `Url` matcher's method: Exact, Hostname, or Domain for anything else. |
| EntryMatchers.WithFirstUrlMethod | KeePassRPC/Forms/KeeEntryUserControl.cs:727-755 | A checked radio sets the method of the first `Url` matcher only, and every other matcher stays. |
| EntryMatchers.RadioIsShown | KeePassRPC/Forms/KeeEntryUserControl.cs:727-755 | After a radio sets the method, Load would check that same radio, and the hide state is unchanged. |
| EntryMatchers.WithoutHideKeepsFirstUrl | KeePassRPC/Forms/KeeEntryUserControl.cs:97-99 | Removing the `Hide` matchers keeps the first `Url` matcher. |
| EntryMatchers.LoadedMatchers | KeePassRPC/Forms/KeeEntryUserControl.cs:727-755 | Checking the radio Load picks, when another was checked, runs that radio's handler. The only change this can make is an unset first `Url` method becoming Domain. With no `Url` matcher nothing changes. |
| EntryMatchers.LoadedMatchersShown | KeePassRPC/Forms/KeeEntryUserControl.cs:119-131 | After the handler Load sets off, Load would still pick the same radio, and the hide box is unaffected. |
| EntryMatchers.HideKeepsShownAccuracy | KeePassRPC/Forms/KeeEntryUserControl.cs:78-108 | Checking or unchecking the hide box does not move the accuracy radio. |
| EntryMatchers.AppendKeepsFirstUrl | KeePassRPC/Forms/KeeEntryUserControl.cs:83-87 | Appending non-`Url` matchers keeps the first `Url` matcher. |
| FieldEditing.ClampPage | KeePassRPC/Forms/KeeEntryUserControl.cs:558 | The page is at least 1 and at least the given page, and is either the given page or 1. |
| FieldEditing.NewField | KeePassRPC/Forms/KeeEntryUserControl.cs:553-572 | The new field's uuid and name are the fresh id, and its value path is ".". The type, the single matcher and the clamped page come from the dialog. An empty value is stored as null, and `Default` placeholder handling as null. |
| FieldEditing.EditedField | KeePassRPC/Forms/KeeEntryUserControl.cs:615-653 | The edited field keeps its uuid and value path. Its name is null for the entry's own user name or password, otherwise the old name, or the uuid when that is empty. The other parts come from the dialog as when adding. |
| FieldEditing.EditsKeepIdentity | KeePassRPC/Forms/KeeEntryUserControl.cs:636-645 | A field added and then edited any number of times keeps its uuid, name and literal value path. |
| FieldEditing.FirstCustomIndex | KeePassRPC/Forms/KeeEntryUserControl.cs:183 | The position found is the first non-null matcher whose type is unset or `Custom`. There is none only when no such matcher exists. |
| FieldEditing.ShownIdName | KeePassRPC/Forms/KeeEntryUserControl.cs:183-192 | The id and name shown are the first id and name of the first custom matcher, or "" when they are absent. |
| UrlLists.Added | KeePassRPC/Forms/KeeEntryUserControl.cs:345-368 | A dialog result adds its URL to a list exactly when that list is selected, and adds at most one URL. |
| UrlLists.UrlsOfMember | KeePassRPC/Forms/KeeEntryUserControl.cs:492-514 | A URL is read back for a kind and role exactly when a row of that kind and role shows it. |
| UrlLists.UrlsOfAppend | KeePassRPC/Forms/KeeEntryUserControl.cs:492-514 | Reading one list back from two blocks of rows reads it from each block in turn. |
| UrlLists.RowsFor | KeePassRPC/Forms/KeeEntryUserControl.cs:494-498 | Row i shows URL i of the list with that list's kind and role. |
| UrlLists.UrlsOfRowsFor | KeePassRPC/Forms/KeeEntryUserControl.cs:494-513 | The rows shown for a list give back exactly that list, and nothing for any other kind or role. |
| UrlLists.IndexOf | KeePassRPC/Forms/KeeEntryUserControl.cs:394 | The position found holds the URL and is its first occurrence. There is none exactly when the URL is absent. |
| UrlLists.RemoveFirst | KeePassRPC/Forms/KeeEntryUserControl.cs:393-400 | `List.Remove` takes out one occurrence of the URL, and leaves the list unchanged when the URL is absent. |
| UrlLists.RemoveFirstKeepsOrder | KeePassRPC/Forms/KeeEntryUserControl.cs:393-400 | The occurrence removed is the first one, and the URLs before and after it keep their order. |
| UrlLists.ListRows | KeePassRPC/Forms/KeeEntryUserControl.cs:492-514 | The view shows one row per URL of the four lists. |
| UrlLists.UrlsOfListRows | KeePassRPC/Forms/KeeEntryUserControl.cs:492-514 | The rows shown for the four lists give back each list exactly, in order. |
| UrlLists.ListRowsReadBack | KeePassRPC/Forms/KeeEntryUserControl.cs:492-514 | Every list, of every kind and role, is read back exactly from the rows `ReadURLStrings` shows. |
| UrlLists.AddedRow | KeePassRPC/Forms/KeeEntryUserControl.cs:345-368 | The rows added for one list are the rows shown for what is added to that list. |
| UrlLists.AddedRows | KeePassRPC/Forms/KeeEntryUserControl.cs:345-368 | The add handler appends one row for a match list and one for a block list when the dialog selects them. |
| UrlLists.AddedRowsMember | KeePassRPC/Forms/KeeEntryUserControl.cs:345-368 | A row is appended exactly when it shows the dialog's URL for a list the dialog selected. |
| UrlLists.AddedRowsAreListRows | KeePassRPC/Forms/KeeEntryUserControl.cs:345-368 | The rows the add handler appends are the rows of the four one-URL-or-empty additions. |
| UrlLists.AddedRowsShowSelected | KeePassRPC/Forms/KeeEntryUserControl.cs:345-368 | The appended rows show the URL in exactly the lists the dialog selected, so one URL can land in a match list and a block list at once. |
| UrlLists.ListRowsAppend | KeePassRPC/Forms/KeeEntryUserControl.cs:345-369 | Appending to the lists appends the rows for what was appended, counted with multiplicity. |
| UrlLists.RowsForMember | KeePassRPC/Forms/KeeEntryUserControl.cs:455-462 | A row shown for a list names a URL of that list and has that list's kind and role. It holds in both directions. |
| UrlLists.RowsForRemoveFirst | KeePassRPC/Forms/KeeEntryUserControl.cs:455-462 | Removing a URL from a list removes exactly one of its rows, or none when the URL is absent. |
| UrlLists.RemovedFromOwnList | KeePassRPC/Forms/KeeEntryUserControl.cs:455-462 | Deleting a row takes its URL, the first occurrence, from the list of the row's kind and role, keeping the order of the rest. Every other list is left as it is. |
| UrlLists.RowsForRemovedFrom | KeePassRPC/Forms/KeeEntryUserControl.cs:455-463 | Deleting a row takes it, once, from the rows of its own list, and the other lists keep their rows. |
| UrlLists.ListRowsRemove | KeePassRPC/Forms/KeeEntryUserControl.cs:455-463 | A row shown for the four lists names a URL of its own list. Removing that URL there removes exactly that row. |
| EntryEditor.Tags | KeePassRPC/Forms/KeeEntryUserControl.cs:479-487 | The fields `UpdateFields` collects are the rows' fields, in row order. |
| EntryEditor.LoadedRow | KeePassRPC/Forms/KeeEntryUserControl.cs:183-195 | The row Load shows for a field stands for that field. It shows the field's page and its first custom id and name. |
| EntryEditor.LoadedRows | KeePassRPC/Forms/KeeEntryUserControl.cs:159-197 | Load shows one row per stored field, in order: the row at each position is the row for the field at that position. |
| EntryEditor.TagsLoadedRows | KeePassRPC/Forms/KeeEntryUserControl.cs:159-197 | The fields behind the rows Load shows are the stored fields, in order, so a later `UpdateFields` stores them unchanged. |
| EntryEditor.AppendKeepsShown | KeePassRPC/Forms/KeeEntryUserControl.cs:345-369 | Appending a dialog result to the lists, and its rows to the view, keeps the view showing the lists. |
| EntryEditor.RemoveKeepsShown | KeePassRPC/Forms/KeeEntryUserControl.cs:455-463 | The deleted row's URL is in its own list. Removing it there, together with the row, keeps the view showing the lists. |
| EntryEditor.HideKeepsShown | KeePassRPC/Forms/KeeEntryUserControl.cs:78-108 | Toggling the hide box, and the `Hide` matchers with it, keeps the widgets showing the configuration. |
| EntryEditor.RadioKeepsShown | KeePassRPC/Forms/KeeEntryUserControl.cs:727-755 | Checking a radio, and setting the first `Url` method with it, keeps the widgets showing the configuration. |
| EntryEditor.KeeEntryUserControl.constructor | KeePassRPC/Forms/KeeEntryUserControl.cs:31-43 | The editor holds the entry's configuration, custom data and strings. It is not loaded yet, the hide box is unchecked, the designer's radio is checked, and both list views are empty. |
| EntryEditor.KeeEntryUserControl.DontUpdateEntryConfigGates | KeePassRPC/Forms/KeeEntryUserControl.cs:53-56 | `DontUpdateEntryConfig` holds exactly when the writer skips every configuration, whatever the custom data holds. |
| EntryEditor.KeeEntryUserControl.UpdateKprpcJson | KeePassRPC/Forms/KeeEntryUserControl.cs:57-76 | The custom data and strings become what the writer's decision makes of them, and nothing else changes. |
| EntryEditor.KeeEntryUserControl.EntrySaving | KeePassRPC/Forms/KeeEntryUserControl.cs:45-51 | A cancelled save changes nothing. Otherwise the writer runs once. |
| EntryEditor.KeeEntryUserControl.ChangeBehaviourState | KeePassRPC/Forms/KeeEntryUserControl.cs:276-325 | The behaviour is stored, shown in the combos and remembered, and then the writer runs. The editor stays `Valid`. |
| EntryEditor.KeeEntryUserControl.AutoFillSelected | KeePassRPC/Forms/KeeEntryUserControl.cs:226-248 | The new state is `AutoFillChanged` of the pick and the shown autosubmit. The autofill combo shows the pick, and the state is stored. |
| EntryEditor.KeeEntryUserControl.AutoSubmitSelected | KeePassRPC/Forms/KeeEntryUserControl.cs:250-272 | The new state is `AutoSubmitChanged` of the shown autofill and the pick. The autosubmit combo shows the pick, and the state is stored. |
| EntryEditor.KeeEntryUserControl.HideFromKeeChanged | KeePassRPC/Forms/KeeEntryUserControl.cs:78-108 | The box shows the new state, and the matchers gain or lose `Hide` accordingly. The writer runs, and the editor stays `Valid`. |
| EntryEditor.KeeEntryUserControl.AccuracyRadioChanged | KeePassRPC/Forms/KeeEntryUserControl.cs:727-755 | A checked radio becomes the checked one and sets the first `Url` method. An unchecked one changes neither the radio nor the configuration. The writer runs either way, and the editor stays `Valid`. |
| EntryEditor.KeeEntryUserControl.RealmChanged | KeePassRPC/Forms/KeeEntryUserControl.cs:215-224 | An empty realm is stored as null, and any other as itself. The writer runs. |
| EntryEditor.KeeEntryUserControl.UpdateUrlStrings | KeePassRPC/Forms/KeeEntryUserControl.cs:469-476 | The four lists become the configuration's and the writer runs. The editor becomes `Valid` again. |
| EntryEditor.KeeEntryUserControl.AppendToLists | KeePassRPC/Forms/KeeEntryUserControl.cs:345-368 | Each selected list gains the URL, and the view gains one row per selected list, in list order. |
| EntryEditor.KeeEntryUserControl.AppendUrl | KeePassRPC/Forms/KeeEntryUserControl.cs:345-368 | Appends as `AppendToLists` does and keeps the view showing the lists. |
| EntryEditor.KeeEntryUserControl.RemoveFromList | KeePassRPC/Forms/KeeEntryUserControl.cs:393-400 | The row's URL goes, once, from the list its kind and role name, and the other lists stay. |
| EntryEditor.KeeEntryUserControl.RemoveUrlRow | KeePassRPC/Forms/KeeEntryUserControl.cs:455-463 | The row's URL is in its list. The URL goes from there once, the row goes from the view, and the view keeps showing the lists. |
| EntryEditor.KeeEntryUserControl.AddUrl | KeePassRPC/Forms/KeeEntryUserControl.cs:332-372 | The selected lists gain the URL and the view gains its rows. The lists are then stored and written, and the editor is `Valid` with the view showing the lists. |
| EntryEditor.KeeEntryUserControl.EditUrl | KeePassRPC/Forms/KeeEntryUserControl.cs:374-434 | The old URL goes from its list and its row goes. The dialog's result is appended and the lists are stored and written. The editor stays `Valid`. |
| EntryEditor.KeeEntryUserControl.DeleteUrl | KeePassRPC/Forms/KeeEntryUserControl.cs:450-467 | The row's URL goes from its list and the row goes. The lists are stored and written, and the editor stays `Valid`. |
| EntryEditor.KeeEntryUserControl.UpdateFields | KeePassRPC/Forms/KeeEntryUserControl.cs:479-489 | The rows' fields, in row order, become the configuration's fields and the writer runs. The editor becomes `Valid`. |
| EntryEditor.KeeEntryUserControl.AddField | KeePassRPC/Forms/KeeEntryUserControl.cs:546-598 | A row for the new field is appended, showing the dialog's name, id and page. The new field becomes the configuration's last field. |
| EntryEditor.KeeEntryUserControl.EditField | KeePassRPC/Forms/KeeEntryUserControl.cs:600-662 | The edited row goes and a row for the edited field is appended, so that field moves to the end of the configuration's fields. |
| EntryEditor.KeeEntryUserControl.DeleteField | KeePassRPC/Forms/KeeEntryUserControl.cs:670-676 | The row goes, and so does the configuration's field at the same position. |
| EntryEditor.KeeEntryUserControl.AppendUrlRows | KeePassRPC/Forms/KeeEntryUserControl.cs:494-498 | The view gains one row per URL of the list, in list order. |
| EntryEditor.KeeEntryUserControl.ReadUrlStrings | KeePassRPC/Forms/KeeEntryUserControl.cs:492-514 | The view gains the rows of the four lists, list by list. |
| EntryEditor.KeeEntryUserControl.ShowUrlLists | KeePassRPC/Forms/KeeEntryUserControl.cs:199 | Filling the empty view reads every list back exactly. |
| EntryEditor.KeeEntryUserControl.Load | KeePassRPC/Forms/KeeEntryUserControl.cs:110-213 | After Load the editor is `Valid` and loaded, and the view shows the lists, each read back exactly. The rows stand for the stored fields. Nothing is written. The configuration changes in two ways only: the stored behaviour is canonicalised, and the matchers become `LoadedMatchers`, so an unset first `Url` method can become Domain. |
| EntryEditor.KeeEntryUserControl.LoadShown | KeePassRPC/Forms/KeeEntryUserControl.cs:146-205 | The lists, fields and behaviour are shown as Load shows them, and the hide box and radio are kept. |
| EntryEditor.KeeEntryUserControl.LoadLists | KeePassRPC/Forms/KeeEntryUserControl.cs:146-199 | The four lists are the configuration's. The view shows them and reads each back exactly, and the field rows are those of the stored fields. |
| EntryEditor.KeeEntryUserControl.LoadMatchers | KeePassRPC/Forms/KeeEntryUserControl.cs:115-131 | The hide box is checked exactly when a `Hide` matcher exists, and the radio follows the first `Url` matcher. Checking that radio runs both radios' handlers, so the matchers become `LoadedMatchers` of the old ones. Nothing is written. |
| EntryEditor.KeeEntryUserControl.LoadBehaviour | KeePassRPC/Forms/KeeEntryUserControl.cs:201-205 | The stored behaviour is read, shown and stored back canonically, and nothing else changes. |
| EntryEditor.KeeEntryUserControl.LoadFields | KeePassRPC/Forms/KeeEntryUserControl.cs:158-197 | The field rows are Load's rows for the stored fields, and their fields are those fields. |
| ResolvedFields.ResolvedField.Equals | KeePassRPC/Models/Shared/ResolvedField.cs:7-12 | False for null and true for the same object. Otherwise true exactly when all nine components agree, with the matcher arrays compared by reference. |
| ResolvedFields.ResolvedField.EqualsObject | KeePassRPC/Models/Shared/ResolvedField.cs:14-20 | False for null and for any other runtime type. For a `ResolvedField` it agrees with the typed `Equals`. |
| ResolvedFields.ResolvedField.HashCode | KeePassRPC/Models/Shared/ResolvedField.cs:22-37 | The chain of nine multiply-by-397-and-xor steps equals `KeyHash` of the compared components, so the hash depends on those alone. |
| ResolvedFields.MixAllEight | KeePassRPC/Models/Shared/ResolvedField.cs:24-35 | Threading the hash over the eight components after the uuid is eight mixing steps, in order. |
| ResolvedFields.ResolvedField.OperatorEquals | KeePassRPC/Models/Shared/ResolvedField.cs:39-42 | True for two nulls and false when only one side is null. Two objects are equal exactly when their compared components agree. |
| ResolvedFields.ResolvedField.OperatorNotEquals | KeePassRPC/Models/Shared/ResolvedField.cs:44-47 | True exactly when one side alone is null, or the components differ. |
| ResolvedFields.EqualsIsReflexive | KeePassRPC/Models/Shared/ResolvedField.cs:10 | Every field equals itself, null uuid included. |
| ResolvedFields.EqualsIsSymmetric | KeePassRPC/Models/Shared/ResolvedField.cs:7-12 | Equality is symmetric, and the reverse call does not throw. |
| ResolvedFields.EqualsIsTransitive | KeePassRPC/Models/Shared/ResolvedField.cs:7-12 | Equality is transitive. |
| ResolvedFields.ResolvedValueParticipates | KeePassRPC/Models/Shared/ResolvedField.cs:11 | Fields whose resolved values differ are unequal. |
| ResolvedFields.MatcherConfigsByReference | KeePassRPC/Models/Shared/ResolvedField.cs:11 | Two distinct matcher arrays with equal contents make the fields unequal. |
| ResolvedFields.HashAgreesWithEquals | KeePassRPC/Models/Shared/ResolvedField.cs:22-37 | Equal fields have equal hash codes. |
| ResolvedFields.OperatorsAreComplementary | KeePassRPC/Models/Shared/ResolvedField.cs:39-47 | `!=` is the negation of `==`. |

## Left out

- Widgets that only display: the text, tooltip and enabled state of the realm box, the group boxes, the buttons, and the type column of the field rows.
- `DeleteField`: deletes any row. The source offers the delete button and the Delete key only when the row's value column is neither "KeePass username" nor "KeePass password", which marks the rows of the entry's own user name and password. The value column and this guard are not modelled, because the column depends on `FieldType` members declared outside this model.
- The database default accuracy's tooltip in Load, since it changes nothing in the configuration.
- `Load`: requires a `Url` matcher unless the radio checked before Load is Exact. Otherwise Load checks radio 3, whose handler calls `First` with no `Url` matcher and throws; the exception is not modelled. The radios' handlers that Load sets off are modelled, and so is the hide box's. The realm box's `TextChanged` is left out: setting the text to the stored realm either changes nothing or stores that realm again, an empty one as null.
- Re-entrant combo events: setting a combo's text inside `changeBehaviourState` fires no further handler in the model.
- Multi-select edit and delete of URLs. The model handles one selected row.
- Null arrays in the configuration (`AltUrls`, `Fields`, `MatcherConfigs` and the like), null matcher entries, and the `_conf == null` early return of Load. Here the configuration's lists are always present, and a list the entry lacks is empty.
- The "Corrupt Entry found!" exception on a row without a field: a field row always carries its field here.
- `AccuracyRadioChanged`: requires a `Url` matcher when the radio is checked. The source's `First` throws otherwise, and the exception is not modelled.
- `ResolvedFields.ResolvedField.Equals`: requires that its own uuid be non-null whenever the resolved values agree and the objects differ. The source throws a null-reference exception there, and the exception is not modelled.
- `ResolvedFields.ResolvedField.HashCode`: requires a non-null uuid, for the same reason.
- The runtime's hash functions, JSON serialisation, the default-configuration comparison and the GUID service are parameters, not definitions. `FieldType` is its integer value.
- The radios mutate a matcher object that the configuration shares. The model replaces the matcher list with an updated copy, which loses aliasing but keeps the stored result.
- `ChangeBehaviourState` remembers the new behaviour before the write rather than after it. The writer does not read it, so the result is the same.
