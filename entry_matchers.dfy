/** The editor's operations on an entry's matcher list
    (KeePassRPC/Forms/KeeEntryUserControl.cs): the "hide from Kee" check box
    adds or removes `Hide` matchers, and the three accuracy radio buttons set
    the method of the first `Url` matcher, which Load reads back. */
module EntryMatchers {
  import opened Shared

  /** The matcher the "hide from Kee" check box adds (`new EntryMatcherConfig
      { MatcherType = Hide }`, leaving the nullable method unset). */
  const HideMatcher: EntryMatcherConfig := EntryMatcherConfig(Hide, None)

  predicate HasHide(ms: seq<EntryMatcherConfig>) {
    exists i | 0 <= i < |ms| :: ms[i].matcherType == Hide
  }

  predicate HasUrl(ms: seq<EntryMatcherConfig>) {
    exists i | 0 <= i < |ms| :: ms[i].matcherType == Url
  }

  /** `ms[i]` is the first `Url` matcher of `ms`. */
  predicate IsFirstUrl(ms: seq<EntryMatcherConfig>, i: int) {
    0 <= i < |ms| && ms[i].matcherType == Url && forall j | 0 <= j < i :: ms[j].matcherType != Url
  }

  /** Checking the box: a `Hide` matcher is appended when none is present;
      the list is otherwise kept as it is. */
  function WithHide(ms: seq<EntryMatcherConfig>): (r: seq<EntryMatcherConfig>)
    ensures HasHide(r)
    ensures |r| == if HasHide(ms) then |ms| else |ms| + 1
    ensures r[..|ms|] == ms
    ensures forall i | |ms| <= i < |r| :: r[i] == HideMatcher
    ensures HasHide(ms) ==> r == ms
  {
    if forall i | 0 <= i < |ms| :: ms[i].matcherType != Hide then
      var r := ms + [HideMatcher];
      assert r[|ms|] == HideMatcher;
      r
    else ms
  }

  /** Unchecking the box (`List.RemoveAll`): every `Hide` matcher goes, and
      every other matcher stays. */
  function WithoutHide(ms: seq<EntryMatcherConfig>): (r: seq<EntryMatcherConfig>)
    ensures !HasHide(r)
    ensures forall m :: m in r <==> m in ms && m.matcherType != Hide
    ensures |r| <= |ms|
  {
    if ms == [] then []
    else if ms[0].matcherType == Hide then WithoutHide(ms[1..])
    else [ms[0]] + WithoutHide(ms[1..])
  }

  /** Removing the `Hide` matchers works piecewise, so the kept matchers keep
      their relative order. */
  lemma {:induction false} WithoutHideAppend(a: seq<EntryMatcherConfig>, b: seq<EntryMatcherConfig>)
    ensures WithoutHide(a + b) == WithoutHide(a) + WithoutHide(b)
  {
    if a == [] {
      assert a + b == b;
    } else {
      assert (a + b)[0] == a[0];
      assert (a + b)[1..] == a[1..] + b;
      WithoutHideAppend(a[1..], b);
    }
  }

  /** A list without `Hide` matchers is left exactly as it is. */
  lemma {:induction false} WithoutHideKeepsOthers(ms: seq<EntryMatcherConfig>)
    requires !HasHide(ms)
    ensures WithoutHide(ms) == ms
  {
    if ms != [] {
      assert !HasHide(ms[1..]) by {
        forall i | 0 <= i < |ms[1..]| ensures ms[1..][i].matcherType != Hide {
          assert ms[1..][i] == ms[i + 1];
        }
      }
      WithoutHideKeepsOthers(ms[1..]);
    }
  }

  /** Re-checking changes nothing, unchecking twice changes nothing, and
      checking then unchecking leaves exactly the non-`Hide` matchers, so a
      list that had none comes back unchanged. */
  lemma HideToggleLaws(ms: seq<EntryMatcherConfig>)
    ensures WithHide(WithHide(ms)) == WithHide(ms)
    ensures WithoutHide(WithoutHide(ms)) == WithoutHide(ms)
    ensures WithoutHide(WithHide(ms)) == WithoutHide(ms)
    ensures !HasHide(ms) ==> WithoutHide(WithHide(ms)) == ms
  {
    WithoutHideKeepsOthers(WithoutHide(ms));
    if !HasHide(ms) {
      WithoutHideAppend(ms, [HideMatcher]);
      assert WithoutHide([HideMatcher]) == [];
      WithoutHideKeepsOthers(ms);
    }
  }

  /** The position of the first `Url` matcher, if any. */
  function FirstUrlIndex(ms: seq<EntryMatcherConfig>): (r: Option<nat>)
    ensures r.Some? ==> IsFirstUrl(ms, r.value)
    ensures r.None? <==> !HasUrl(ms)
  {
    if ms == [] then None
    else if ms[0].matcherType == Url then Some(0)
    else match FirstUrlIndex(ms[1..])
      case None => None
      case Some(i) => Some(i + 1)
  }

  /** The first `Url` matcher, or null (`FirstOrDefault`). */
  function FirstUrlMatcher(ms: seq<EntryMatcherConfig>): (r: Option<EntryMatcherConfig>)
    ensures r.None? <==> !HasUrl(ms)
    ensures forall i | IsFirstUrl(ms, i) :: r == Some(ms[i])
  {
    match FirstUrlIndex(ms)
    case None => None
    case Some(i) => Some(ms[i])
  }

  /** The accuracy radio Load selects: Exact when there is no `Url` matcher or
      the first one's method is Exact, Hostname when it is Hostname, and
      Domain for anything else (Domain or an unset method). */
  function ShownAccuracy(ms: seq<EntryMatcherConfig>): (r: MatchAccuracyMethod)
    ensures !HasUrl(ms) ==> r == Exact
    ensures forall i | IsFirstUrl(ms, i) ::
      r == if ms[i].urlMatchMethod == Some(Exact) then Exact
           else if ms[i].urlMatchMethod == Some(Hostname) then Hostname
           else Domain
  {
    var urlMc := FirstUrlMatcher(ms);
    if urlMc.None? || urlMc.value.urlMatchMethod == Some(Exact) then Exact
    else if urlMc.value.urlMatchMethod == Some(Hostname) then Hostname
    else Domain
  }

  /** A checked accuracy radio sets the method of the first `Url` matcher
      (`First` throws when there is none); nothing else changes. */
  function WithFirstUrlMethod(ms: seq<EntryMatcherConfig>, m: MatchAccuracyMethod): (r: seq<EntryMatcherConfig>)
    requires HasUrl(ms)
    ensures |r| == |ms|
    ensures forall i | IsFirstUrl(ms, i) ::
      r[i] == ms[i].(urlMatchMethod := Some(m)) && forall j | 0 <= j < |ms| && j != i :: r[j] == ms[j]
  {
    var i := FirstUrlIndex(ms).value;
    ms[i := ms[i].(urlMatchMethod := Some(m))]
  }

  /** After a radio sets the method, Load would select that same radio, and
      whether the entry is hidden is unchanged. */
  lemma RadioIsShown(ms: seq<EntryMatcherConfig>, m: MatchAccuracyMethod)
    requires HasUrl(ms)
    ensures ShownAccuracy(WithFirstUrlMethod(ms, m)) == m
    ensures HasHide(WithFirstUrlMethod(ms, m)) == HasHide(ms)
  {
    var i := FirstUrlIndex(ms).value;
    var r := WithFirstUrlMethod(ms, m);
    assert IsFirstUrl(r, i);
    if HasHide(ms) {
      var k :| 0 <= k < |ms| && ms[k].matcherType == Hide;
      assert r[k].matcherType == Hide;
    }
    if HasHide(r) {
      var k :| 0 <= k < |r| && r[k].matcherType == Hide;
      assert ms[k].matcherType == Hide;
    }
  }

  /** The matchers once Load has checked the accuracy radio `ShownAccuracy`
      picks, when `before` is the radio checked until then. Checking a
      radio that was not checked fires its handler, which sets the first
      `Url` matcher's method to that radio's (`First` throws when there is
      none, which can only happen when the radio to check is Exact). The
      only change this makes is an unset method becoming Domain. */
  function LoadedMatchers(ms: seq<EntryMatcherConfig>, before: MatchAccuracyMethod): (r: seq<EntryMatcherConfig>)
    requires HasUrl(ms) || before == Exact
    ensures !HasUrl(ms) ==> r == ms
    ensures forall i | IsFirstUrl(ms, i) ::
      r == if ms[i].urlMatchMethod.None? && before != Domain then ms[i := ms[i].(urlMatchMethod := Some(Domain))] else ms
  {
    var shown := ShownAccuracy(ms);
    if shown == before then ms
    else
      var i := FirstUrlIndex(ms).value;
      assert IsFirstUrl(ms, i) && forall j | IsFirstUrl(ms, j) :: j == i;
      assert shown == if ms[i].urlMatchMethod == Some(Exact) then Exact
        else if ms[i].urlMatchMethod == Some(Hostname) then Hostname else Domain;
      assert ms[i].urlMatchMethod.Some? ==> ms[i].urlMatchMethod == Some(shown) by {
        if ms[i].urlMatchMethod.Some? {
          var m := ms[i].urlMatchMethod.value;
          assert m == Domain || m == Hostname || m == Exact;
        }
      }
      assert ms[i := ms[i]] == ms;
      WithFirstUrlMethod(ms, shown)
  }

  /** Load's radio leaves the radio Load shows, and the hide box, as they
      were. */
  lemma LoadedMatchersShown(ms: seq<EntryMatcherConfig>, before: MatchAccuracyMethod)
    requires HasUrl(ms) || before == Exact
    ensures ShownAccuracy(LoadedMatchers(ms, before)) == ShownAccuracy(ms)
    ensures HasHide(LoadedMatchers(ms, before)) == HasHide(ms)
  {
    if ShownAccuracy(ms) != before {
      RadioIsShown(ms, ShownAccuracy(ms));
    }
  }

  /** Looking past a leading non-`Url` matcher finds the same first `Url`
      matcher. */
  lemma FirstUrlMatcherSkip(ms: seq<EntryMatcherConfig>)
    requires ms != [] && ms[0].matcherType != Url
    ensures FirstUrlMatcher(ms) == FirstUrlMatcher(ms[1..])
  {
  }

  /** Removing the `Hide` matchers keeps the first `Url` matcher. */
  lemma {:induction false} WithoutHideKeepsFirstUrl(ms: seq<EntryMatcherConfig>)
    ensures FirstUrlMatcher(WithoutHide(ms)) == FirstUrlMatcher(ms)
  {
    if ms != [] {
      WithoutHideKeepsFirstUrl(ms[1..]);
      if ms[0].matcherType == Hide {
        FirstUrlMatcherSkip(ms);
      } else {
        assert WithoutHide(ms) == [ms[0]] + WithoutHide(ms[1..]);
      }
    }
  }

  /** Adding or removing `Hide` matchers keeps the first `Url` matcher, so the
      accuracy radio shown does not change. */
  lemma HideKeepsShownAccuracy(ms: seq<EntryMatcherConfig>)
    ensures ShownAccuracy(WithoutHide(ms)) == ShownAccuracy(ms)
    ensures ShownAccuracy(WithHide(ms)) == ShownAccuracy(ms)
  {
    WithoutHideKeepsFirstUrl(ms);
    SameFirstUrlSameAccuracy(WithoutHide(ms), ms);
    if !HasHide(ms) {
      assert WithHide(ms) == ms + [HideMatcher];
      AppendKeepsFirstUrl(ms, [HideMatcher]);
    }
    SameFirstUrlSameAccuracy(WithHide(ms), ms);
  }

  lemma SameFirstUrlSameAccuracy(a: seq<EntryMatcherConfig>, b: seq<EntryMatcherConfig>)
    requires FirstUrlMatcher(a) == FirstUrlMatcher(b)
    ensures ShownAccuracy(a) == ShownAccuracy(b)
  {
  }

  /** The first `Url` matcher of a list with one is unaffected by anything
      appended after it, and a list without one defers to the appended part. */
  lemma {:induction false} AppendKeepsFirstUrl(a: seq<EntryMatcherConfig>, b: seq<EntryMatcherConfig>)
    requires forall i | 0 <= i < |b| :: b[i].matcherType != Url
    ensures FirstUrlMatcher(a + b) == FirstUrlMatcher(a)
  {
    if a == [] {
      assert a + b == b;
    } else {
      assert (a + b)[1..] == a[1..] + b;
      AppendKeepsFirstUrl(a[1..], b);
      if a[0].matcherType != Url {
        FirstUrlMatcherSkip(a);
        FirstUrlMatcherSkip(a + b);
      }
    }
  }
}
