/** The autofill/autosubmit behaviour combinator of the entry editor: two
    three-valued combo boxes projected onto six stored behaviour states and
    back (KeePassRPC/Forms/KeeEntryUserControl.cs, the two combo handlers and
    `changeBehaviourState`). */
module BehaviourCombinator {
  import opened Shared

  /** The items of both combo boxes: "Use Kee setting", "Never", "Always". */
  datatype ComboValue = UseKeeSetting | Never | Always

  /** What `changeBehaviourState` shows: the text and enabled state of the
      autofill and the autosubmit combo box. */
  datatype ComboState = ComboState(
    autoFill: ComboValue,
    autoSubmit: ComboValue,
    autoFillEnabled: bool,
    autoSubmitEnabled: bool)

  /** The combo boxes as `changeBehaviourState` renders a behaviour. Autofill
      is locked only while autosubmit is "Always"; autosubmit is locked only
      while autofill is "Never". */
  function Render(b: EntryAutomationBehaviour): (s: ComboState)
    ensures !s.autoFillEnabled <==> b == AlwaysAutoFillAlwaysAutoSubmit
    ensures !s.autoSubmitEnabled <==> b == NeverAutoFillNeverAutoSubmit
    ensures s.autoSubmit == Always ==> s.autoFill == Always
    ensures s.autoFill == Never ==> s.autoSubmit == Never
  {
    match b
    case AlwaysAutoFill => ComboState(Always, UseKeeSetting, true, true)
    case NeverAutoSubmit => ComboState(UseKeeSetting, Never, true, true)
    case AlwaysAutoFillAlwaysAutoSubmit => ComboState(Always, Always, false, true)
    case NeverAutoFillNeverAutoSubmit => ComboState(Never, Never, true, false)
    case AlwaysAutoFillNeverAutoSubmit => ComboState(Always, Never, true, true)
    case Default => ComboState(UseKeeSetting, UseKeeSetting, true, true)
  }

  /** The state chosen when the autofill combo changes to `autoFill` while the
      autosubmit combo shows `autoSubmit`. The chosen state shows the autofill
      value the user picked; it keeps the autosubmit value except that
      "Never" autofill forces "Never" autosubmit and an "Always" autosubmit
      without "Always" autofill falls back to "Use Kee setting". */
  function AutoFillChanged(autoFill: ComboValue, autoSubmit: ComboValue): (b: EntryAutomationBehaviour)
    ensures Render(b).autoFill == autoFill
    ensures Render(b).autoSubmit ==
      if autoFill == Never then Never
      else if autoFill == UseKeeSetting && autoSubmit == Always then UseKeeSetting
      else autoSubmit
  {
    match autoFill
    case UseKeeSetting =>
      if autoSubmit == Never then NeverAutoSubmit else EntryAutomationBehaviour.Default
    case Never =>
      NeverAutoFillNeverAutoSubmit
    case Always =>
      if autoSubmit == Never then AlwaysAutoFillNeverAutoSubmit
      else if autoSubmit == Always then AlwaysAutoFillAlwaysAutoSubmit
      else AlwaysAutoFill
  }

  /** The state chosen when the autosubmit combo changes to `autoSubmit` while
      the autofill combo shows `autoFill`. The chosen state shows the
      autosubmit value the user picked; it keeps the autofill value except
      that "Always" autosubmit forces "Always" autofill and a "Never" autofill
      without "Never" autosubmit falls back to "Use Kee setting". */
  function AutoSubmitChanged(autoFill: ComboValue, autoSubmit: ComboValue): (b: EntryAutomationBehaviour)
    ensures Render(b).autoSubmit == autoSubmit
    ensures Render(b).autoFill ==
      if autoSubmit == Always then Always
      else if autoSubmit == UseKeeSetting && autoFill == Never then UseKeeSetting
      else autoFill
  {
    match autoSubmit
    case UseKeeSetting =>
      if autoFill == Always then AlwaysAutoFill else EntryAutomationBehaviour.Default
    case Never =>
      if autoFill == Always then AlwaysAutoFillNeverAutoSubmit
      else if autoFill == Never then NeverAutoFillNeverAutoSubmit
      else NeverAutoSubmit
    case Always =>
      AlwaysAutoFillAlwaysAutoSubmit
  }

  /** The value `changeBehaviourState` stores in the configuration's
      `Behaviour`: `Default` is stored as null, every other state as
      itself. */
  function Stored(b: EntryAutomationBehaviour): (r: Option<EntryAutomationBehaviour>)
    ensures r == None <==> b == EntryAutomationBehaviour.Default
    ensures r != None ==> r.value == b
  {
    if b == EntryAutomationBehaviour.Default then None else Some(b)
  }

  /** The behaviour a stored value stands for (`GetValueOrDefault(Default)`). */
  function Current(stored: Option<EntryAutomationBehaviour>): (b: EntryAutomationBehaviour)
    ensures stored == None ==> b == EntryAutomationBehaviour.Default
    ensures stored != None ==> b == stored.value
  {
    match stored
    case None => EntryAutomationBehaviour.Default
    case Some(v) => v
  }

  /** Storing a state and reading it back gives the same state, and a stored
      value is canonical: null and `Default` are the only two that read the
      same. */
  lemma StoredRoundTrip(b: EntryAutomationBehaviour, stored: Option<EntryAutomationBehaviour>)
    ensures Current(Stored(b)) == b
    ensures Stored(Current(stored)) == stored || stored == Some(EntryAutomationBehaviour.Default)
  {
  }

  /** Two states that render the same combo texts are the same state. */
  lemma RenderIsInjective(a: EntryAutomationBehaviour, b: EntryAutomationBehaviour)
    requires Render(a).autoFill == Render(b).autoFill
    requires Render(a).autoSubmit == Render(b).autoSubmit
    ensures a == b
  {
  }

  /** Feeding the combo texts of any state back through either combo handler
      selects that state again. */
  lemma RenderRoundTrip(b: EntryAutomationBehaviour)
    ensures AutoFillChanged(Render(b).autoFill, Render(b).autoSubmit) == b
    ensures AutoSubmitChanged(Render(b).autoFill, Render(b).autoSubmit) == b
  {
    var s := Render(b);
    RenderIsInjective(AutoFillChanged(s.autoFill, s.autoSubmit), b);
    RenderIsInjective(AutoSubmitChanged(s.autoFill, s.autoSubmit), b);
  }

  /** "Never" autofill yields never-autofill-never-autosubmit, whatever
      autosubmit shows, and in that state the autosubmit combo is locked;
      "Always" autosubmit yields always-autofill-always-autosubmit, whatever
      autofill shows, and in that state the autofill combo is locked. */
  lemma PromotionRules(autoFill: ComboValue, autoSubmit: ComboValue)
    ensures AutoFillChanged(Never, autoSubmit) == NeverAutoFillNeverAutoSubmit
    ensures !Render(AutoFillChanged(Never, autoSubmit)).autoSubmitEnabled
    ensures AutoSubmitChanged(autoFill, Always) == AlwaysAutoFillAlwaysAutoSubmit
    ensures !Render(AutoSubmitChanged(autoFill, Always)).autoFillEnabled
  {
  }
}
