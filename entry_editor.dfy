/** The Kee tab of the entry editing dialog
    (KeePassRPC/Forms/KeeEntryUserControl.cs): an object holding the entry's
    configuration, the widgets that show it, the four URL lists behind the
    URL list view, and the entry's custom data and strings. Every handler
    changes the configuration and then runs the change-detection writer. */
module EntryEditor {
  import opened Shared
  import opened BehaviourCombinator
  import opened EntryMatchers
  import opened UrlLists
  import opened FieldEditing
  import opened ChangeDetection

  /** A row of the field list view: the name and id columns as shown, the
      page column, and the field the row stands for (its `Tag`). */
  datatype FieldRow = FieldRow(shownName: Option<string>, shownId: Option<string>, shownPage: int32, tag: Field)

  /** The fields behind the rows, in row order (`UpdateFields`). */
  function Tags(rows: seq<FieldRow>): (fs: seq<Field>)
    ensures |fs| == |rows|
    ensures forall i | 0 <= i < |rows| :: fs[i] == rows[i].tag
  {
    seq(|rows|, i requires 0 <= i < |rows| => rows[i].tag)
  }

  /** The row Load shows for a stored field. */
  function LoadedRow(f: Field): (row: FieldRow)
    ensures row.tag == f && row.shownPage == f.page
    ensures row.shownId == Some(ShownIdName(f).0) && row.shownName == Some(ShownIdName(f).1)
  {
    var idName := ShownIdName(f);
    FieldRow(Some(idName.1), Some(idName.0), f.page, f)
  }

  /** The rows Load shows for the stored fields, in field order. */
  function LoadedRows(fields: seq<Field>): (rows: seq<FieldRow>)
    ensures |rows| == |fields|
    ensures forall i | 0 <= i < |fields| :: rows[i] == LoadedRow(fields[i])
  {
    if fields == [] then []
    else LoadedRows(fields[..|fields| - 1]) + [LoadedRow(fields[|fields| - 1])]
  }

  /** The fields behind the rows Load shows are the stored fields, in order. */
  lemma {:induction false} TagsLoadedRows(fields: seq<Field>)
    ensures Tags(LoadedRows(fields)) == fields
  {
    if fields != [] {
      var init := fields[..|fields| - 1];
      TagsLoadedRows(init);
      TagsAppend(LoadedRows(init), [LoadedRow(fields[|fields| - 1])]);
      assert fields == init + [fields[|fields| - 1]];
    }
  }

  /** The rows taken away and put back keep the fields in row order. */
  lemma TagsAppend(a: seq<FieldRow>, b: seq<FieldRow>)
    ensures Tags(a + b) == Tags(a) + Tags(b)
  {
  }

  lemma TagsWithout(rows: seq<FieldRow>, k: nat)
    requires k < |rows|
    ensures Tags(rows[..k] + rows[k + 1..]) == Tags(rows)[..k] + Tags(rows)[k + 1..]
  {
  }

  /** The URL list view shows the rows of the four lists, each once per
      occurrence, in some order. */
  ghost predicate RowsShowLists(rows: seq<UrlRow>, normal: seq<string>, normalBlocked: seq<string>,
                                regEx: seq<string>, regExBlocked: seq<string>)
  {
    multiset(rows) == multiset(ListRows(normal, normalBlocked, regEx, regExBlocked))
  }

  /** Appending a dialog result to the lists and its rows to the view keeps
      the view showing the lists. */
  lemma AppendKeepsShown(rows: seq<UrlRow>, normal: seq<string>, normalBlocked: seq<string>, regEx: seq<string>,
                         regExBlocked: seq<string>, url: string, isMatch: bool, isBlock: bool, isRegEx: bool)
    requires RowsShowLists(rows, normal, normalBlocked, regEx, regExBlocked)
    ensures RowsShowLists(rows + AddedRows(url, isMatch, isBlock, isRegEx),
                          normal + Added(url, isMatch && !isRegEx), normalBlocked + Added(url, isBlock && !isRegEx),
                          regEx + Added(url, isMatch && isRegEx), regExBlocked + Added(url, isBlock && isRegEx))
  {
    ListRowsAppend(normal, normalBlocked, regEx, regExBlocked,
                   Added(url, isMatch && !isRegEx), Added(url, isBlock && !isRegEx),
                   Added(url, isMatch && isRegEx), Added(url, isBlock && isRegEx));
    AddedRowsAreListRows(url, isMatch, isBlock, isRegEx);
  }

  /** The row at `k` names a URL of its own list, and deleting the row from
      the view and that URL, once, from its list keeps the view showing the
      lists. */
  lemma RemoveKeepsShown(rows: seq<UrlRow>, normal: seq<string>, normalBlocked: seq<string>, regEx: seq<string>,
                         regExBlocked: seq<string>, k: nat)
    requires RowsShowLists(rows, normal, normalBlocked, regEx, regExBlocked)
    requires k < |rows|
    ensures rows[k].url in ListOf(rows[k].kind, rows[k].role, normal, normalBlocked, regEx, regExBlocked)
    ensures RowsShowLists(rows[..k] + rows[k + 1..],
                          RemovedFrom(normal, rows[k], Normal, Match), RemovedFrom(normalBlocked, rows[k], Normal, Block),
                          RemovedFrom(regEx, rows[k], RegEx, Match), RemovedFrom(regExBlocked, rows[k], RegEx, Block))
  {
    var row := rows[k];
    assert rows == rows[..k] + ([row] + rows[k + 1..]);
    assert row in multiset(rows);
    ListRowsRemove(normal, normalBlocked, regEx, regExBlocked, row);
    MultisetWithout(rows[..k], row, rows[k + 1..]);
  }

  ghost predicate ConfHoldsLists(conf: EntryConfig, normal: seq<string>, normalBlocked: seq<string>,
                                 regEx: seq<string>, regExBlocked: seq<string>)
  {
    && conf.altUrls == normal
    && conf.blockedUrls == normalBlocked
    && conf.regExUrls == regEx
    && conf.regExBlockedUrls == regExBlocked
  }

  /** The behaviour combos, the hide box and the accuracy radios show the
      configuration as Load shows it. */
  ghost predicate WidgetsShow(conf: EntryConfig, combos: ComboState, current: EntryAutomationBehaviour,
                              hideChecked: bool, accuracy: MatchAccuracyMethod)
  {
    && combos == Render(current)
    && conf.behaviour == Stored(current)
    && hideChecked == HasHide(conf.matcherConfigs)
    && accuracy == ShownAccuracy(conf.matcherConfigs)
  }

  /** Checking or unchecking the hide box, and adding or removing the `Hide`
      matchers to match, keeps the widgets showing the configuration: the
      accuracy radio does not move. */
  lemma HideKeepsShown(conf: EntryConfig, combos: ComboState, current: EntryAutomationBehaviour,
                       hideChecked: bool, accuracy: MatchAccuracyMethod, checked: bool)
    requires WidgetsShow(conf, combos, current, hideChecked, accuracy)
    ensures WidgetsShow(conf.(matcherConfigs := if checked then WithHide(conf.matcherConfigs) else WithoutHide(conf.matcherConfigs)),
                        combos, current, checked, accuracy)
  {
    HideKeepsShownAccuracy(conf.matcherConfigs);
  }

  /** Checking an accuracy radio, and setting the first `Url` matcher's
      method to match, keeps the widgets showing the configuration: the hide
      box does not change. */
  lemma RadioKeepsShown(conf: EntryConfig, combos: ComboState, current: EntryAutomationBehaviour,
                        hideChecked: bool, accuracy: MatchAccuracyMethod, radio: MatchAccuracyMethod)
    requires WidgetsShow(conf, combos, current, hideChecked, accuracy)
    requires HasUrl(conf.matcherConfigs)
    ensures WidgetsShow(conf.(matcherConfigs := WithFirstUrlMethod(conf.matcherConfigs, radio)), combos, current, hideChecked, radio)
  {
    RadioIsShown(conf.matcherConfigs, radio);
  }

  class KeeEntryUserControl {
    /** `JsonConvert.ExportToString` on a configuration. */
    const serialize: EntryConfig -> string
    /** `conf.Equals(defaultConf)`, the default configuration being fixed by
        the database settings for the whole session. */
    const isDefault: EntryConfig -> bool
    /** The dialog was opened on a read-only entry. */
    const readOnly: bool
    /** `FieldMatcherConfig.ForSingleClientMatch(id, name, htmlType, querySelector)`. */
    const matcherFor: (Option<string>, Option<string>, Option<string>, Option<string>) -> FieldMatcherConfig

    var conf: EntryConfig
    var customData: map<string, string>
    var strings: map<string, string>
    /** `_calledLoaded`. */
    var loaded: bool
    /** `_currentAutomationBehaviour`. */
    var currentBehaviour: EntryAutomationBehaviour
    var combos: ComboState
    var hideChecked: bool
    /** The checked accuracy radio button: Domain, Hostname or Exact for
        radio 1, 2 or 3. */
    var accuracy: MatchAccuracyMethod
    var normalUrls: seq<string>
    var normalBlockedUrls: seq<string>
    var regExUrls: seq<string>
    var regExBlockedUrls: seq<string>
    /** The rows of the URL list view. */
    var urlRows: seq<UrlRow>
    /** The rows of the field list view. */
    var fieldRows: seq<FieldRow>

    /** Once loaded, the configuration holds the four URL lists and the
        fields in row order, and the widgets show the configuration as Load
        would. */
    ghost predicate Valid()
      reads this`loaded, this`conf, this`fieldRows
      reads this`normalUrls, this`normalBlockedUrls, this`regExUrls, this`regExBlockedUrls
      reads this`combos, this`currentBehaviour, this`hideChecked, this`accuracy
    {
      loaded ==>
        && ConfHoldsLists(conf, normalUrls, normalBlockedUrls, regExUrls, regExBlockedUrls)
        && conf.fields == Tags(fieldRows)
        && WidgetsShow(conf, combos, currentBehaviour, hideChecked, accuracy)
    }

    /** `Valid` but for the URL lists in the configuration, as the URL
        handlers leave it until the lists are stored. */
    ghost predicate ShowsConf()
      reads this`loaded, this`conf, this`fieldRows
      reads this`combos, this`currentBehaviour, this`hideChecked, this`accuracy
    {
      loaded ==> conf.fields == Tags(fieldRows) && WidgetsShow(conf, combos, currentBehaviour, hideChecked, accuracy)
    }

    /** The URL list view shows the four lists. */
    ghost predicate UrlsShown()
      reads this`urlRows, this`normalUrls, this`normalBlockedUrls, this`regExUrls, this`regExBlockedUrls
    {
      RowsShowLists(urlRows, normalUrls, normalBlockedUrls, regExUrls, regExBlockedUrls)
    }

    /** The state the constructor leaves for Load. */
    ghost predicate Fresh()
      reads this`loaded, this`urlRows, this`fieldRows, this`hideChecked
    {
      !loaded && urlRows == [] && fieldRows == [] && !hideChecked
    }

    /** `conf` is the configuration as read from the entry, and `radio` the
        accuracy radio that `InitializeComponent` leaves checked. */
    constructor (serialize: EntryConfig -> string, isDefault: EntryConfig -> bool, readOnly: bool,
                 matcherFor: (Option<string>, Option<string>, Option<string>, Option<string>) -> FieldMatcherConfig,
                 conf: EntryConfig, customData: map<string, string>, strings: map<string, string>,
                 radio: MatchAccuracyMethod)
      ensures Valid() && UrlsShown() && Fresh()
      ensures accuracy == radio
      ensures this.serialize == serialize && this.isDefault == isDefault && this.readOnly == readOnly
      ensures this.matcherFor == matcherFor
      ensures this.conf == conf && this.customData == customData && this.strings == strings
      ensures currentBehaviour == EntryAutomationBehaviour.Default
    {
      this.serialize := serialize;
      this.isDefault := isDefault;
      this.readOnly := readOnly;
      this.matcherFor := matcherFor;
      this.conf := conf;
      this.customData := customData;
      this.strings := strings;
      loaded := false;
      currentBehaviour := EntryAutomationBehaviour.Default;
      combos := Render(EntryAutomationBehaviour.Default);
      hideChecked := false;
      accuracy := radio;
      normalUrls := [];
      normalBlockedUrls := [];
      regExUrls := [];
      regExBlockedUrls := [];
      urlRows := [];
      fieldRows := [];
    }

    /** `DontUpdateEntryConfig`. */
    predicate DontUpdateEntryConfig()
      reads this`loaded
    {
      DontUpdate(loaded, readOnly)
    }

    /** `DontUpdateEntryConfig` holds exactly when the writer skips every
        configuration, whatever the custom data holds. */
    lemma DontUpdateEntryConfigGates()
      ensures DontUpdateEntryConfig() <==> forall c: EntryConfig, cd: map<string, string> :: WriteFor(c, cd) == Skip
    {
      if !DontUpdateEntryConfig() {
        var c := EntryConfig([], [], None, None, [], [], [], []);
        assert WriteFor(c, map[ConfigKey := serialize(c) + "."]) != Skip;
      }
    }

    /** The write `UpdateKPRPCJSON` does for configuration `c` when the
        custom data is `cd`. */
    function WriteFor(c: EntryConfig, cd: map<string, string>): WriteDecision
      reads this`loaded
    {
      Decide(loaded, readOnly, isDefault(c), Lookup(cd, ConfigKey), serialize(c))
    }

    /** `UpdateKPRPCJSON`: stores the serialised configuration under
        "KPRPC JSON" in the custom data, and drops the legacy string of that
        name, unless nothing may be written, the configuration is the default
        one and none is stored yet, or the stored one is already current. */
    method UpdateKprpcJson()
      requires Valid()
      modifies this`customData, this`strings
      ensures Valid()
      ensures customData == ApplyToCustomData(WriteFor(conf, old(customData)), old(customData))
      ensures strings == ApplyToStrings(WriteFor(conf, old(customData)), old(strings))
    {
      if DontUpdateEntryConfig() {
        return;
      }
      if !isDefault(conf) || ConfigKey in customData {
        var confStr := serialize(conf);
        if ConfigKey in customData && confStr == customData[ConfigKey] {
          return;
        }
        customData := customData[ConfigKey := confStr];
        if ConfigKey in strings {
          strings := strings - {ConfigKey};
        }
      }
    }

    /** `_pwEntryForm_EntrySaving`: on a save that is not cancelled the
        writer runs once more. */
    method EntrySaving(cancel: bool)
      requires Valid()
      modifies this`customData, this`strings
      ensures Valid()
      ensures cancel ==> customData == old(customData) && strings == old(strings)
      ensures !cancel ==> customData == ApplyToCustomData(WriteFor(conf, old(customData)), old(customData))
      ensures !cancel ==> strings == ApplyToStrings(WriteFor(conf, old(customData)), old(strings))
    {
      if cancel {
        return;
      }
      UpdateKprpcJson();
    }

    /** `changeBehaviourState`: stores `b` (null for `Default`), shows it in
        the combos, remembers it as the current behaviour, and writes. The
        writer does not read the remembered behaviour, so it is remembered
        before the write rather than after. */
    method ChangeBehaviourState(b: EntryAutomationBehaviour)
      requires Valid()
      modifies this`conf, this`combos, this`currentBehaviour, this`customData, this`strings
      ensures Valid()
      ensures conf == old(conf).(behaviour := Stored(b))
      ensures combos == Render(b) && currentBehaviour == b
      ensures customData == ApplyToCustomData(WriteFor(conf, old(customData)), old(customData))
      ensures strings == ApplyToStrings(WriteFor(conf, old(customData)), old(strings))
    {
      conf := conf.(behaviour := Stored(b));
      combos := Render(b);
      currentBehaviour := b;
      UpdateKprpcJson();
    }

    /** `comboBoxAutoFill_SelectedIndexChanged` with `v` selected. */
    method AutoFillSelected(v: ComboValue)
      requires Valid()
      modifies this`conf, this`combos, this`currentBehaviour, this`customData, this`strings
      ensures Valid()
      ensures currentBehaviour == AutoFillChanged(v, old(combos.autoSubmit))
      ensures combos.autoFill == v
      ensures conf == old(conf).(behaviour := Stored(currentBehaviour))
      ensures customData == ApplyToCustomData(WriteFor(conf, old(customData)), old(customData))
      ensures strings == ApplyToStrings(WriteFor(conf, old(customData)), old(strings))
    {
      ChangeBehaviourState(AutoFillChanged(v, combos.autoSubmit));
    }

    /** `comboBoxAutoSubmit_SelectedIndexChanged` with `v` selected. */
    method AutoSubmitSelected(v: ComboValue)
      requires Valid()
      modifies this`conf, this`combos, this`currentBehaviour, this`customData, this`strings
      ensures Valid()
      ensures currentBehaviour == AutoSubmitChanged(old(combos.autoFill), v)
      ensures combos.autoSubmit == v
      ensures conf == old(conf).(behaviour := Stored(currentBehaviour))
      ensures customData == ApplyToCustomData(WriteFor(conf, old(customData)), old(customData))
      ensures strings == ApplyToStrings(WriteFor(conf, old(customData)), old(strings))
    {
      ChangeBehaviourState(AutoSubmitChanged(combos.autoFill, v));
    }

    /** `checkBoxHideFromKee_CheckedChanged`: checking appends a `Hide`
        matcher when there is none, unchecking removes every one. */
    method HideFromKeeChanged(checked: bool)
      requires Valid()
      modifies this`hideChecked, this`conf, this`customData, this`strings
      ensures Valid()
      ensures hideChecked == checked
      ensures conf == old(conf).(matcherConfigs :=
        if checked then WithHide(old(conf.matcherConfigs)) else WithoutHide(old(conf.matcherConfigs)))
      ensures customData == ApplyToCustomData(WriteFor(conf, old(customData)), old(customData))
      ensures strings == ApplyToStrings(WriteFor(conf, old(customData)), old(strings))
    {
      if loaded {
        HideKeepsShown(conf, combos, currentBehaviour, hideChecked, accuracy, checked);
      }
      var ms := if checked then WithHide(conf.matcherConfigs) else WithoutHide(conf.matcherConfigs);
      hideChecked, conf := checked, conf.(matcherConfigs := ms);
      UpdateKprpcJson();
    }

    /** The `CheckedChanged` handler of the accuracy radio for `radio`: when
        it is the checked one, the first `Url` matcher takes its method. */
    method AccuracyRadioChanged(radio: MatchAccuracyMethod, checked: bool)
      requires Valid()
      requires checked ==> HasUrl(conf.matcherConfigs)
      modifies this`accuracy, this`conf, this`customData, this`strings
      ensures Valid()
      ensures accuracy == if checked then radio else old(accuracy)
      ensures conf == if checked then old(conf).(matcherConfigs := WithFirstUrlMethod(old(conf.matcherConfigs), radio)) else old(conf)
      ensures customData == ApplyToCustomData(WriteFor(conf, old(customData)), old(customData))
      ensures strings == ApplyToStrings(WriteFor(conf, old(customData)), old(strings))
    {
      if checked {
        if loaded {
          RadioKeepsShown(conf, combos, currentBehaviour, hideChecked, accuracy, radio);
        }
        accuracy, conf := radio, conf.(matcherConfigs := WithFirstUrlMethod(conf.matcherConfigs, radio));
      }
      UpdateKprpcJson();
    }

    /** `textBoxKeeRealm_TextChanged`: an empty realm is stored as null. */
    method RealmChanged(text: string)
      requires Valid()
      modifies this`conf, this`customData, this`strings
      ensures Valid()
      ensures conf == old(conf).(httpRealm := if text == "" then None else Some(text))
      ensures customData == ApplyToCustomData(WriteFor(conf, old(customData)), old(customData))
      ensures strings == ApplyToStrings(WriteFor(conf, old(customData)), old(strings))
    {
      if text != "" {
        conf := conf.(httpRealm := Some(text));
      } else {
        conf := conf.(httpRealm := None);
      }
      UpdateKprpcJson();
    }

    /** `UpdateURLStrings`: the four lists become the configuration's. */
    method UpdateUrlStrings()
      requires ShowsConf() && UrlsShown()
      modifies this`conf, this`customData, this`strings
      ensures Valid() && UrlsShown()
      ensures unchanged(this`urlRows, this`normalUrls, this`normalBlockedUrls, this`regExUrls, this`regExBlockedUrls)
      ensures conf == old(conf).(altUrls := normalUrls, blockedUrls := normalBlockedUrls,
                                 regExUrls := regExUrls, regExBlockedUrls := regExBlockedUrls)
      ensures customData == ApplyToCustomData(WriteFor(conf, old(customData)), old(customData))
      ensures strings == ApplyToStrings(WriteFor(conf, old(customData)), old(strings))
    {
      conf := conf.(altUrls := normalUrls, blockedUrls := normalBlockedUrls,
                    regExUrls := regExUrls, regExBlockedUrls := regExBlockedUrls);
      UpdateKprpcJson();
      assert unchanged(this`urlRows, this`normalUrls, this`normalBlockedUrls, this`regExUrls, this`regExBlockedUrls);
    }

    /** Appends a dialog result to each selected list, in list order, and a
        row for each. */
    method AppendToLists(url: string, isMatch: bool, isBlock: bool, isRegEx: bool)
      modifies this`normalUrls, this`normalBlockedUrls, this`regExUrls, this`regExBlockedUrls, this`urlRows
      ensures urlRows == old(urlRows) + AddedRows(url, isMatch, isBlock, isRegEx)
      ensures normalUrls == old(normalUrls) + Added(url, isMatch && !isRegEx)
      ensures normalBlockedUrls == old(normalBlockedUrls) + Added(url, isBlock && !isRegEx)
      ensures regExUrls == old(regExUrls) + Added(url, isMatch && isRegEx)
      ensures regExBlockedUrls == old(regExBlockedUrls) + Added(url, isBlock && isRegEx)
    {
      if isMatch && !isRegEx {
        normalUrls := normalUrls + [url];
        urlRows := urlRows + [UrlRow(url, Normal, Match)];
      }
      if isBlock && !isRegEx {
        normalBlockedUrls := normalBlockedUrls + [url];
        urlRows := urlRows + [UrlRow(url, Normal, Block)];
      }
      if isMatch && isRegEx {
        regExUrls := regExUrls + [url];
        urlRows := urlRows + [UrlRow(url, RegEx, Match)];
      }
      if isBlock && isRegEx {
        regExBlockedUrls := regExBlockedUrls + [url];
        urlRows := urlRows + [UrlRow(url, RegEx, Block)];
      }
    }

    /** The part of the URL add and edit handlers that appends a dialog
        result, keeping the view showing the lists. */
    method AppendUrl(url: string, isMatch: bool, isBlock: bool, isRegEx: bool)
      requires ShowsConf() && UrlsShown()
      modifies this`normalUrls, this`normalBlockedUrls, this`regExUrls, this`regExBlockedUrls, this`urlRows
      ensures ShowsConf() && UrlsShown()
      ensures urlRows == old(urlRows) + AddedRows(url, isMatch, isBlock, isRegEx)
      ensures normalUrls == old(normalUrls) + Added(url, isMatch && !isRegEx)
      ensures normalBlockedUrls == old(normalBlockedUrls) + Added(url, isBlock && !isRegEx)
      ensures regExUrls == old(regExUrls) + Added(url, isMatch && isRegEx)
      ensures regExBlockedUrls == old(regExBlockedUrls) + Added(url, isBlock && isRegEx)
    {
      ghost var rows0, normal0, normalBlocked0, regEx0, regExBlocked0 :=
        urlRows, normalUrls, normalBlockedUrls, regExUrls, regExBlockedUrls;
      AppendToLists(url, isMatch, isBlock, isRegEx);
      assert unchanged(this`loaded, this`conf, this`fieldRows, this`combos, this`currentBehaviour, this`hideChecked, this`accuracy);
      AppendKeepsShown(rows0, normal0, normalBlocked0, regEx0, regExBlocked0, url, isMatch, isBlock, isRegEx);
    }

    /** Takes the URL of `row`, once, from the list its kind and role name. */
    method RemoveFromList(row: UrlRow)
      modifies this`normalUrls, this`normalBlockedUrls, this`regExUrls, this`regExBlockedUrls
      ensures normalUrls == RemovedFrom(old(normalUrls), row, Normal, Match)
      ensures normalBlockedUrls == RemovedFrom(old(normalBlockedUrls), row, Normal, Block)
      ensures regExUrls == RemovedFrom(old(regExUrls), row, RegEx, Match)
      ensures regExBlockedUrls == RemovedFrom(old(regExBlockedUrls), row, RegEx, Block)
    {
      if row.kind == Normal && row.role == Match {
        normalUrls := RemoveFirst(normalUrls, row.url);
      } else if row.kind == Normal && row.role == Block {
        normalBlockedUrls := RemoveFirst(normalBlockedUrls, row.url);
      } else if row.kind == RegEx && row.role == Match {
        regExUrls := RemoveFirst(regExUrls, row.url);
      } else if row.kind == RegEx && row.role == Block {
        regExBlockedUrls := RemoveFirst(regExBlockedUrls, row.url);
      }
    }

    /** The part of the URL edit and delete handlers that drops the row at
        `k`: its URL goes, once, from the list its kind and role name, and
        its row goes. */
    method RemoveUrlRow(k: nat)
      requires ShowsConf() && UrlsShown()
      requires k < |urlRows|
      modifies this`normalUrls, this`normalBlockedUrls, this`regExUrls, this`regExBlockedUrls, this`urlRows
      ensures ShowsConf() && UrlsShown()
      ensures old(urlRows[k].url in ListOf(urlRows[k].kind, urlRows[k].role, normalUrls, normalBlockedUrls, regExUrls, regExBlockedUrls))
      ensures urlRows == old(urlRows[..k] + urlRows[k + 1..])
      ensures normalUrls == RemovedFrom(old(normalUrls), old(urlRows[k]), Normal, Match)
      ensures normalBlockedUrls == RemovedFrom(old(normalBlockedUrls), old(urlRows[k]), Normal, Block)
      ensures regExUrls == RemovedFrom(old(regExUrls), old(urlRows[k]), RegEx, Match)
      ensures regExBlockedUrls == RemovedFrom(old(regExBlockedUrls), old(urlRows[k]), RegEx, Block)
    {
      ghost var rows0, normal0, normalBlocked0, regEx0, regExBlocked0 :=
        urlRows, normalUrls, normalBlockedUrls, regExUrls, regExBlockedUrls;
      RemoveFromList(urlRows[k]);
      urlRows := urlRows[..k] + urlRows[k + 1..];
      assert unchanged(this`loaded, this`conf, this`fieldRows, this`combos, this`currentBehaviour, this`hideChecked, this`accuracy);
      RemoveKeepsShown(rows0, normal0, normalBlocked0, regEx0, regExBlocked0, k);
    }

    /** `buttonURLAdd_Click` with the dialog's result. */
    method AddUrl(url: string, isMatch: bool, isBlock: bool, isRegEx: bool)
      requires ShowsConf() && UrlsShown()
      modifies this`normalUrls, this`normalBlockedUrls, this`regExUrls, this`regExBlockedUrls, this`urlRows
      modifies this`conf, this`customData, this`strings
      ensures Valid() && UrlsShown()
      ensures urlRows == old(urlRows) + AddedRows(url, isMatch, isBlock, isRegEx)
      ensures normalUrls == old(normalUrls) + Added(url, isMatch && !isRegEx)
      ensures normalBlockedUrls == old(normalBlockedUrls) + Added(url, isBlock && !isRegEx)
      ensures regExUrls == old(regExUrls) + Added(url, isMatch && isRegEx)
      ensures regExBlockedUrls == old(regExBlockedUrls) + Added(url, isBlock && isRegEx)
      ensures conf == old(conf).(altUrls := normalUrls, blockedUrls := normalBlockedUrls,
                                 regExUrls := regExUrls, regExBlockedUrls := regExBlockedUrls)
      ensures customData == ApplyToCustomData(WriteFor(conf, old(customData)), old(customData))
      ensures strings == ApplyToStrings(WriteFor(conf, old(customData)), old(strings))
    {
      AppendUrl(url, isMatch, isBlock, isRegEx);
      assert unchanged(this`conf, this`customData, this`strings);
      label Appended:
      UpdateUrlStrings();
      assert unchanged@Appended(this`urlRows, this`normalUrls, this`normalBlockedUrls, this`regExUrls, this`regExBlockedUrls);
    }

    /** `buttonURLEdit_Click` on the selected row `k`: the old URL goes from
        its list and its row goes, then the dialog's result is appended. */
    method EditUrl(k: nat, url: string, isMatch: bool, isBlock: bool, isRegEx: bool)
      requires Valid() && UrlsShown()
      requires k < |urlRows|
      modifies this`normalUrls, this`normalBlockedUrls, this`regExUrls, this`regExBlockedUrls, this`urlRows
      modifies this`conf, this`customData, this`strings
      ensures Valid() && UrlsShown()
      ensures urlRows == old(urlRows[..k] + urlRows[k + 1..]) + AddedRows(url, isMatch, isBlock, isRegEx)
      ensures normalUrls == RemovedFrom(old(normalUrls), old(urlRows[k]), Normal, Match) + Added(url, isMatch && !isRegEx)
      ensures normalBlockedUrls == RemovedFrom(old(normalBlockedUrls), old(urlRows[k]), Normal, Block) + Added(url, isBlock && !isRegEx)
      ensures regExUrls == RemovedFrom(old(regExUrls), old(urlRows[k]), RegEx, Match) + Added(url, isMatch && isRegEx)
      ensures regExBlockedUrls == RemovedFrom(old(regExBlockedUrls), old(urlRows[k]), RegEx, Block) + Added(url, isBlock && isRegEx)
      ensures conf == old(conf).(altUrls := normalUrls, blockedUrls := normalBlockedUrls,
                                 regExUrls := regExUrls, regExBlockedUrls := regExBlockedUrls)
      ensures customData == ApplyToCustomData(WriteFor(conf, old(customData)), old(customData))
      ensures strings == ApplyToStrings(WriteFor(conf, old(customData)), old(strings))
    {
      RemoveUrlRow(k);
      assert unchanged(this`conf, this`customData, this`strings);
      AddUrl(url, isMatch, isBlock, isRegEx);
    }

    /** `buttonURLDelete_Click` on the selected row `k`. */
    method DeleteUrl(k: nat)
      requires Valid() && UrlsShown()
      requires k < |urlRows|
      modifies this`normalUrls, this`normalBlockedUrls, this`regExUrls, this`regExBlockedUrls, this`urlRows
      modifies this`conf, this`customData, this`strings
      ensures Valid() && UrlsShown()
      ensures old(urlRows[k].url in ListOf(urlRows[k].kind, urlRows[k].role, normalUrls, normalBlockedUrls, regExUrls, regExBlockedUrls))
      ensures urlRows == old(urlRows[..k] + urlRows[k + 1..])
      ensures normalUrls == RemovedFrom(old(normalUrls), old(urlRows[k]), Normal, Match)
      ensures normalBlockedUrls == RemovedFrom(old(normalBlockedUrls), old(urlRows[k]), Normal, Block)
      ensures regExUrls == RemovedFrom(old(regExUrls), old(urlRows[k]), RegEx, Match)
      ensures regExBlockedUrls == RemovedFrom(old(regExBlockedUrls), old(urlRows[k]), RegEx, Block)
      ensures conf == old(conf).(altUrls := normalUrls, blockedUrls := normalBlockedUrls,
                                 regExUrls := regExUrls, regExBlockedUrls := regExBlockedUrls)
      ensures customData == ApplyToCustomData(WriteFor(conf, old(customData)), old(customData))
      ensures strings == ApplyToStrings(WriteFor(conf, old(customData)), old(strings))
    {
      RemoveUrlRow(k);
      assert unchanged(this`conf, this`customData, this`strings);
      label Removed:
      UpdateUrlStrings();
      assert unchanged@Removed(this`urlRows, this`normalUrls, this`normalBlockedUrls, this`regExUrls, this`regExBlockedUrls);
    }

    /** `UpdateFields`: the fields behind the rows, in row order, become the
        configuration's. */
    method UpdateFields()
      requires loaded ==> ConfHoldsLists(conf, normalUrls, normalBlockedUrls, regExUrls, regExBlockedUrls)
      requires loaded ==> WidgetsShow(conf, combos, currentBehaviour, hideChecked, accuracy)
      modifies this`conf, this`customData, this`strings
      ensures Valid()
      ensures conf == old(conf).(fields := Tags(fieldRows))
      ensures customData == ApplyToCustomData(WriteFor(conf, old(customData)), old(customData))
      ensures strings == ApplyToStrings(WriteFor(conf, old(customData)), old(strings))
    {
      conf := conf.(fields := Tags(fieldRows));
      UpdateKprpcJson();
    }

    /** The matcher the field dialog's result asks for. */
    function DialogMatcher(d: FieldDialogResult): FieldMatcherConfig
    {
      matcherFor(d.id, d.name, d.htmlType, d.querySelector)
    }

    /** `buttonFieldAdd_Click` with the dialog's result and the fresh id the
        GUID service supplied: a new row is appended for the new field, which
        becomes the configuration's last field. */
    method AddField(d: FieldDialogResult, freshId: string)
      requires Valid()
      modifies this`fieldRows, this`conf, this`customData, this`strings
      ensures Valid()
      ensures fieldRows == old(fieldRows) + [FieldRow(d.name, d.id, d.page, NewField(d, freshId, DialogMatcher(d)))]
      ensures conf == old(conf).(fields := Tags(fieldRows))
      ensures loaded ==> conf.fields == old(conf.fields) + [NewField(d, freshId, DialogMatcher(d))]
      ensures customData == ApplyToCustomData(WriteFor(conf, old(customData)), old(customData))
      ensures strings == ApplyToStrings(WriteFor(conf, old(customData)), old(strings))
    {
      var field := NewField(d, freshId, matcherFor(d.id, d.name, d.htmlType, d.querySelector));
      TagsAppend(fieldRows, [FieldRow(d.name, d.id, d.page, field)]);
      fieldRows := fieldRows + [FieldRow(d.name, d.id, d.page, field)];
      UpdateFields();
    }

    /** `buttonFieldEdit_Click` on the selected row `k`: its row goes, and a
        row for the edited field is appended, so the edited field moves to the
        end of the configuration's fields. */
    method EditField(k: nat, d: FieldDialogResult)
      requires Valid()
      requires k < |fieldRows|
      modifies this`fieldRows, this`conf, this`customData, this`strings
      ensures Valid()
      ensures fieldRows == old(fieldRows[..k] + fieldRows[k + 1..])
        + [FieldRow(d.name, d.id, d.page, EditedField(old(fieldRows[k].tag), d, DialogMatcher(d)))]
      ensures conf == old(conf).(fields := Tags(fieldRows))
      ensures loaded ==>
        conf.fields == old(conf.fields[..k] + conf.fields[k + 1..]) + [EditedField(old(conf.fields[k]), d, DialogMatcher(d))]
      ensures customData == ApplyToCustomData(WriteFor(conf, old(customData)), old(customData))
      ensures strings == ApplyToStrings(WriteFor(conf, old(customData)), old(strings))
    {
      var tag := fieldRows[k].tag;
      var field := EditedField(tag, d, matcherFor(d.id, d.name, d.htmlType, d.querySelector));
      var rest := fieldRows[..k] + fieldRows[k + 1..];
      TagsWithout(fieldRows, k);
      TagsAppend(rest, [FieldRow(d.name, d.id, d.page, field)]);
      fieldRows := rest + [FieldRow(d.name, d.id, d.page, field)];
      UpdateFields();
    }

    /** `buttonFieldDelete_Click` on the selected row `k`. */
    method DeleteField(k: nat)
      requires Valid()
      requires k < |fieldRows|
      modifies this`fieldRows, this`conf, this`customData, this`strings
      ensures Valid()
      ensures fieldRows == old(fieldRows[..k] + fieldRows[k + 1..])
      ensures conf == old(conf).(fields := Tags(fieldRows))
      ensures loaded ==> conf.fields == old(conf.fields[..k] + conf.fields[k + 1..])
      ensures customData == ApplyToCustomData(WriteFor(conf, old(customData)), old(customData))
      ensures strings == ApplyToStrings(WriteFor(conf, old(customData)), old(strings))
    {
      TagsWithout(fieldRows, k);
      fieldRows := fieldRows[..k] + fieldRows[k + 1..];
      UpdateFields();
    }

    /** The rows `ReadURLStrings` appends for one list. */
    method AppendUrlRows(urls: seq<string>, kind: UrlKind, role: UrlRole)
      modifies this`urlRows
      ensures urlRows == old(urlRows) + RowsFor(urls, kind, role)
    {
      var i := 0;
      while i < |urls|
        invariant 0 <= i <= |urls|
        invariant urlRows == old(urlRows) + RowsFor(urls[..i], kind, role)
      {
        urlRows := urlRows + [UrlRow(urls[i], kind, role)];
        i := i + 1;
      }
      assert urls[..i] == urls;
    }

    /** `ReadURLStrings`: a row for every URL of every list, list by list. */
    method ReadUrlStrings()
      modifies this`urlRows
      ensures urlRows == old(urlRows) + ListRows(normalUrls, normalBlockedUrls, regExUrls, regExBlockedUrls)
    {
      ghost var rows0 := urlRows;
      AppendUrlRows(normalUrls, Normal, Match);
      AppendUrlRows(normalBlockedUrls, Normal, Block);
      AppendUrlRows(regExUrls, RegEx, Match);
      AppendUrlRows(regExBlockedUrls, RegEx, Block);
      AppendListRows(rows0, normalUrls, normalBlockedUrls, regExUrls, regExBlockedUrls);
    }

    /** The part of Load that shows the four lists in the empty URL list
        view: each list is read back from the rows exactly. */
    method ShowUrlLists()
      requires urlRows == []
      modifies this`urlRows
      ensures UrlsShown()
      ensures ReadBack(urlRows, normalUrls, normalBlockedUrls, regExUrls, regExBlockedUrls)
    {
      ReadUrlStrings();
      assert urlRows == ListRows(normalUrls, normalBlockedUrls, regExUrls, regExBlockedUrls);
      ListRowsReadBack(normalUrls, normalBlockedUrls, regExUrls, regExBlockedUrls);
    }

    /** `KeeEntryUserControl_Load`: shows the configuration. The hide box is
        checked when a `Hide` matcher is present, the accuracy radio follows
        the first `Url` matcher, the URL lists are copied from the
        configuration and shown, a row is shown per field, and the stored
        behaviour is shown in the combos. Nothing is written before the
        editor counts as loaded, but checking the radio can already change
        the configuration (`LoadMatchers`). */
    method Load()
      requires Fresh()
      requires HasUrl(conf.matcherConfigs) || accuracy == Exact
      modifies this`hideChecked, this`accuracy, this`conf, this`customData, this`strings, this`fieldRows, this`urlRows
      modifies this`normalUrls, this`normalBlockedUrls, this`regExUrls, this`regExBlockedUrls
      modifies this`combos, this`currentBehaviour, this`loaded
      ensures Valid() && UrlsShown() && loaded
      ensures conf == old(conf).(matcherConfigs := LoadedMatchers(old(conf.matcherConfigs), old(accuracy)),
                                 behaviour := Stored(Current(old(conf.behaviour))))
      ensures customData == old(customData) && strings == old(strings)
      ensures currentBehaviour == Current(conf.behaviour)
      ensures ReadBack(urlRows, normalUrls, normalBlockedUrls, regExUrls, regExBlockedUrls)
      ensures fieldRows == LoadedRows(conf.fields)
    {
      LoadMatchers();
      LoadShown();
      loaded := true;
    }

    /** The part of Load after the matchers: the lists, the fields and the
        behaviour. */
    method LoadShown()
      requires !loaded && urlRows == []
      requires hideChecked == HasHide(conf.matcherConfigs) && accuracy == ShownAccuracy(conf.matcherConfigs)
      modifies this`conf, this`customData, this`strings, this`fieldRows, this`urlRows
      modifies this`normalUrls, this`normalBlockedUrls, this`regExUrls, this`regExBlockedUrls
      modifies this`combos, this`currentBehaviour
      ensures conf == old(conf).(behaviour := Stored(Current(old(conf.behaviour))))
      ensures customData == old(customData) && strings == old(strings)
      ensures currentBehaviour == Current(old(conf.behaviour))
      ensures WidgetsShow(conf, combos, currentBehaviour, hideChecked, accuracy)
      ensures ConfHoldsLists(conf, normalUrls, normalBlockedUrls, regExUrls, regExBlockedUrls)
      ensures RowsShowLists(urlRows, normalUrls, normalBlockedUrls, regExUrls, regExBlockedUrls)
      ensures ReadBack(urlRows, normalUrls, normalBlockedUrls, regExUrls, regExBlockedUrls)
      ensures fieldRows == LoadedRows(conf.fields) && conf.fields == Tags(fieldRows)
      ensures unchanged(this`loaded, this`hideChecked, this`accuracy)
    {
      LoadLists();
      LoadBehaviour();
    }

    /** The part of Load that copies the four URL lists from the
        configuration, shows a row per field, and shows the lists. */
    method LoadLists()
      requires urlRows == []
      modifies this`normalUrls, this`normalBlockedUrls, this`regExUrls, this`regExBlockedUrls, this`fieldRows, this`urlRows
      ensures ConfHoldsLists(conf, normalUrls, normalBlockedUrls, regExUrls, regExBlockedUrls)
      ensures RowsShowLists(urlRows, normalUrls, normalBlockedUrls, regExUrls, regExBlockedUrls)
      ensures ReadBack(urlRows, normalUrls, normalBlockedUrls, regExUrls, regExBlockedUrls)
      ensures fieldRows == LoadedRows(conf.fields)
      ensures conf.fields == Tags(fieldRows)
    {
      normalUrls, normalBlockedUrls, regExUrls, regExBlockedUrls :=
        conf.altUrls, conf.blockedUrls, conf.regExUrls, conf.regExBlockedUrls;
      LoadFields();
      ShowUrlLists();
    }

    /** The part of Load that shows the matchers: the hide box is checked
        when a `Hide` matcher is present, which changes nothing, and the
        accuracy radio for the first `Url` matcher is checked. When that
        radio was not checked already, the radio checked until then is
        unchecked and the new one checked, and both handlers fire; only the
        second changes anything (`LoadedMatchers`). The writer skips both. */
    method LoadMatchers()
      requires !loaded && !hideChecked
      requires HasUrl(conf.matcherConfigs) || accuracy == Exact
      modifies this`hideChecked, this`accuracy, this`conf, this`customData, this`strings
      ensures conf == old(conf).(matcherConfigs := LoadedMatchers(old(conf.matcherConfigs), old(accuracy)))
      ensures customData == old(customData) && strings == old(strings)
      ensures hideChecked == HasHide(conf.matcherConfigs)
      ensures accuracy == ShownAccuracy(conf.matcherConfigs)
    {
      if HasHide(conf.matcherConfigs) {
        HideFromKeeChanged(true);
      }
      var shown := ShownAccuracy(conf.matcherConfigs);
      if shown != accuracy {
        AccuracyRadioChanged(accuracy, false);
        AccuracyRadioChanged(shown, true);
      }
      LoadedMatchersShown(old(conf.matcherConfigs), old(accuracy));
    }

    /** The part of Load that shows the stored behaviour: the combos are
        reset to "Use Kee setting" and then show the stored behaviour, which
        is stored back unchanged. */
    method LoadBehaviour()
      requires !loaded
      modifies this`combos, this`currentBehaviour, this`conf, this`customData, this`strings
      ensures conf == old(conf).(behaviour := Stored(Current(old(conf.behaviour))))
      ensures customData == old(customData) && strings == old(strings)
      ensures currentBehaviour == Current(old(conf.behaviour)) && combos == Render(currentBehaviour)
      ensures unchanged(this`fieldRows, this`urlRows, this`normalUrls, this`normalBlockedUrls, this`regExUrls,
                        this`regExBlockedUrls, this`hideChecked, this`accuracy)
    {
      combos := combos.(autoFill := UseKeeSetting, autoSubmit := UseKeeSetting);
      currentBehaviour := Current(conf.behaviour);
      ChangeBehaviourState(currentBehaviour);
    }

    /** The part of Load that shows a row per field. */
    method LoadFields()
      modifies this`fieldRows
      ensures fieldRows == LoadedRows(conf.fields)
      ensures conf.fields == Tags(fieldRows)
    {
      var fields := conf.fields;
      var rows: seq<FieldRow> := [];
      for i := 0 to |fields|
        invariant rows == LoadedRows(fields[..i])
      {
        var field := fields[i];
        var idName := ShownIdName(field);
        assert fields[..i + 1][..i] == fields[..i];
        rows := rows + [FieldRow(Some(idName.1), Some(idName.0), field.page, field)];
      }
      assert fields[..|fields|] == fields;
      fieldRows := rows;
      TagsLoadedRows(fields);
    }
  }
}
