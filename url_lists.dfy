/** The URL lists of the entry editor (KeePassRPC/Forms/KeeEntryUserControl.cs):
    four lists of strings, literal ("Normal") or pattern ("RegEx"), each
    allowing ("Match") or denying ("Block"), shown together as the rows of
    one list view. */
module UrlLists {
  import opened Shared

  datatype UrlKind = Normal | RegEx
  datatype UrlRole = Match | Block

  /** A row of the URL list view: the URL, then "Normal"/"RegEx", then
      "Match"/"Block". */
  datatype UrlRow = UrlRow(url: string, kind: UrlKind, role: UrlRole)

  /** Whether the URL dialog's Match/Block/RegEx flags select a list. */
  predicate Selected(kind: UrlKind, role: UrlRole, isMatch: bool, isBlock: bool, isRegEx: bool) {
    (if role == Match then isMatch else isBlock) && (kind == RegEx <==> isRegEx)
  }

  /** What a dialog result adds to one list: the URL when the list is
      selected, nothing otherwise. */
  function Added(url: string, selected: bool): (xs: seq<string>)
    ensures |xs| <= 1 && (selected <==> xs == [url])
  {
    if selected then [url] else []
  }

  /** The list of one kind and role among the four. */
  function ListOf(kind: UrlKind, role: UrlRole, normal: seq<string>, normalBlocked: seq<string>,
                  regEx: seq<string>, regExBlocked: seq<string>): seq<string>
  {
    if kind == Normal then (if role == Match then normal else normalBlocked)
    else (if role == Match then regEx else regExBlocked)
  }

  /** The URLs of the rows of one kind and role, in row order. */
  function UrlsOf(rows: seq<UrlRow>, kind: UrlKind, role: UrlRole): (urls: seq<string>)
    ensures |urls| <= |rows|
  {
    if rows == [] then []
    else
      var rest := UrlsOf(rows[1..], kind, role);
      if rows[0].kind == kind && rows[0].role == role then [rows[0].url] + rest else rest
  }

  /** A URL is read back for a kind and role exactly when a row of that kind
      and role shows it. */
  lemma {:induction false} UrlsOfMember(rows: seq<UrlRow>, kind: UrlKind, role: UrlRole, u: string)
    ensures u in UrlsOf(rows, kind, role) <==> UrlRow(u, kind, role) in rows
  {
    if rows != [] {
      UrlsOfMember(rows[1..], kind, role, u);
      assert rows == [rows[0]] + rows[1..];
    }
  }

  lemma {:induction false} UrlsOfAppend(a: seq<UrlRow>, b: seq<UrlRow>, kind: UrlKind, role: UrlRole)
    ensures UrlsOf(a + b, kind, role) == UrlsOf(a, kind, role) + UrlsOf(b, kind, role)
  {
    if a == [] {
      assert a + b == b;
    } else {
      assert (a + b)[0] == a[0];
      assert (a + b)[1..] == a[1..] + b;
      UrlsOfAppend(a[1..], b, kind, role);
    }
  }

  /** The rows `ReadURLStrings` shows for one list. */
  function RowsFor(urls: seq<string>, kind: UrlKind, role: UrlRole): (rows: seq<UrlRow>)
    ensures |rows| == |urls|
    ensures forall i | 0 <= i < |urls| :: rows[i] == UrlRow(urls[i], kind, role)
  {
    seq(|urls|, i requires 0 <= i < |urls| => UrlRow(urls[i], kind, role))
  }

  /** The rows shown for a list give back exactly that list, and nothing for
      any other kind or role. */
  lemma {:induction false} UrlsOfRowsFor(urls: seq<string>, kind: UrlKind, role: UrlRole, kind': UrlKind, role': UrlRole)
    ensures UrlsOf(RowsFor(urls, kind, role), kind', role') == if kind == kind' && role == role' then urls else []
  {
    if urls != [] {
      assert RowsFor(urls, kind, role)[1..] == RowsFor(urls[1..], kind, role);
      UrlsOfRowsFor(urls[1..], kind, role, kind', role');
      if kind == kind' && role == role' {
        assert urls == [urls[0]] + urls[1..];
      }
    }
  }

  /** The position of the first occurrence of `x` (`List.IndexOf`). */
  function IndexOf(xs: seq<string>, x: string): (r: Option<nat>)
    ensures r.Some? ==> r.value < |xs| && xs[r.value] == x && x !in xs[..r.value]
    ensures r.None? <==> x !in xs
  {
    if xs == [] then None
    else if xs[0] == x then Some(0)
    else match IndexOf(xs[1..], x)
      case None => None
      case Some(i) =>
        assert xs[..i + 1] == [xs[0]] + xs[1..][..i];
        Some(i + 1)
  }

  /** `List.Remove`: the first occurrence of `x` goes, if there is one; the
      rest keep their order. */
  function RemoveFirst(xs: seq<string>, x: string): (r: seq<string>)
    ensures multiset(r) == multiset(xs) - multiset{x}
    ensures x !in xs ==> r == xs
  {
    match IndexOf(xs, x)
    case None => xs
    case Some(i) =>
      assert xs == xs[..i] + [xs[i]] + xs[i + 1..];
      xs[..i] + xs[i + 1..]
  }

  /** `List.Remove` takes out the first occurrence and no other: the URLs
      before it and after it stay, in their order. */
  lemma RemoveFirstKeepsOrder(xs: seq<string>, x: string)
    requires x in xs
    ensures IndexOf(xs, x).Some?
    ensures var i := IndexOf(xs, x).value;
      RemoveFirst(xs, x) == xs[..i] + xs[i + 1..] && xs[i] == x && x !in xs[..i]
  {
  }

  /** The rows shown for the four lists, list by list: normal match, normal
      block, pattern match, pattern block (`ReadURLStrings`). */
  function ListRows(normal: seq<string>, normalBlocked: seq<string>, regEx: seq<string>, regExBlocked: seq<string>): (rows: seq<UrlRow>)
    ensures |rows| == |normal| + |normalBlocked| + |regEx| + |regExBlocked|
  {
    RowsFor(normal, Normal, Match) + RowsFor(normalBlocked, Normal, Block)
      + RowsFor(regEx, RegEx, Match) + RowsFor(regExBlocked, RegEx, Block)
  }

  /** Rows appended block by block, one list after the other, are the
      rows of the four lists appended at once. */
  lemma AppendListRows(rows0: seq<UrlRow>, normal: seq<string>, normalBlocked: seq<string>, regEx: seq<string>, regExBlocked: seq<string>)
    ensures rows0 + RowsFor(normal, Normal, Match) + RowsFor(normalBlocked, Normal, Block)
        + RowsFor(regEx, RegEx, Match) + RowsFor(regExBlocked, RegEx, Block)
      == rows0 + ListRows(normal, normalBlocked, regEx, regExBlocked)
  {
  }

  /** Reading one list back from four row blocks reads it from each block
      in turn. */
  lemma UrlsOfFour(a: seq<UrlRow>, b: seq<UrlRow>, c: seq<UrlRow>, d: seq<UrlRow>, kind: UrlKind, role: UrlRole)
    ensures UrlsOf(a + b + c + d, kind, role)
      == UrlsOf(a, kind, role) + UrlsOf(b, kind, role) + UrlsOf(c, kind, role) + UrlsOf(d, kind, role)
  {
    UrlsOfAppend(a + b + c, d, kind, role);
    UrlsOfAppend(a + b, c, kind, role);
    UrlsOfAppend(a, b, kind, role);
  }

  /** The rows shown for the four lists give back each list exactly. */
  lemma UrlsOfListRows(normal: seq<string>, normalBlocked: seq<string>, regEx: seq<string>, regExBlocked: seq<string>,
                       kind: UrlKind, role: UrlRole)
    ensures UrlsOf(ListRows(normal, normalBlocked, regEx, regExBlocked), kind, role)
      == ListOf(kind, role, normal, normalBlocked, regEx, regExBlocked)
  {
    UrlsOfFour(RowsFor(normal, Normal, Match), RowsFor(normalBlocked, Normal, Block),
               RowsFor(regEx, RegEx, Match), RowsFor(regExBlocked, RegEx, Block), kind, role);
    UrlsOfRowsFor(normal, Normal, Match, kind, role);
    UrlsOfRowsFor(normalBlocked, Normal, Block, kind, role);
    UrlsOfRowsFor(regEx, RegEx, Match, kind, role);
    UrlsOfRowsFor(regExBlocked, RegEx, Block, kind, role);
    var xs := ListOf(kind, role, normal, normalBlocked, regEx, regExBlocked);
    var e: seq<string> := [];
    match (kind, role)
    case (Normal, Match) => assert xs + e + e + e == xs;
    case (Normal, Block) => assert e + xs + e + e == xs;
    case (RegEx, Match) => assert e + e + xs + e == xs;
    case (RegEx, Block) => assert e + e + e + xs == xs;
  }

  /** Every list, of every kind and role, is read back exactly from `rows`. */
  predicate ReadBack(rows: seq<UrlRow>, normal: seq<string>, normalBlocked: seq<string>, regEx: seq<string>, regExBlocked: seq<string>) {
    forall kind, role :: UrlsOf(rows, kind, role) == ListOf(kind, role, normal, normalBlocked, regEx, regExBlocked)
  }

  lemma ListRowsReadBack(normal: seq<string>, normalBlocked: seq<string>, regEx: seq<string>, regExBlocked: seq<string>)
    ensures ReadBack(ListRows(normal, normalBlocked, regEx, regExBlocked), normal, normalBlocked, regEx, regExBlocked)
  {
    forall kind, role
      ensures UrlsOf(ListRows(normal, normalBlocked, regEx, regExBlocked), kind, role)
        == ListOf(kind, role, normal, normalBlocked, regEx, regExBlocked)
    {
      UrlsOfListRows(normal, normalBlocked, regEx, regExBlocked, kind, role);
    }
  }

  /** The row a dialog result adds for one list: one row when the list is
      selected, none otherwise. */
  function AddedRow(url: string, selected: bool, kind: UrlKind, role: UrlRole): (rows: seq<UrlRow>)
    ensures rows == RowsFor(Added(url, selected), kind, role)
  {
    if selected then [UrlRow(url, kind, role)] else []
  }

  /** The rows the add handler appends for one dialog result, in its order:
      normal match, normal block, pattern match, pattern block. One URL can
      land in a match list and a block list at once. */
  function AddedRows(url: string, isMatch: bool, isBlock: bool, isRegEx: bool): (rows: seq<UrlRow>)
    ensures |rows| == (if isMatch then 1 else 0) + (if isBlock then 1 else 0)
  {
    AddedRow(url, isMatch && !isRegEx, Normal, Match) + AddedRow(url, isBlock && !isRegEx, Normal, Block)
      + AddedRow(url, isMatch && isRegEx, RegEx, Match) + AddedRow(url, isBlock && isRegEx, RegEx, Block)
  }

  /** The rows appended show the dialog's URL, each for a list the dialog
      selected, and there is one for every such list. */
  lemma AddedRowsMember(url: string, isMatch: bool, isBlock: bool, isRegEx: bool, row: UrlRow)
    ensures row in AddedRows(url, isMatch, isBlock, isRegEx) <==>
      row.url == url && Selected(row.kind, row.role, isMatch, isBlock, isRegEx)
  {
  }

  /** The rows appended are the rows shown for what is added to each list. */
  lemma AddedRowsAreListRows(url: string, isMatch: bool, isBlock: bool, isRegEx: bool)
    ensures AddedRows(url, isMatch, isBlock, isRegEx) ==
      ListRows(Added(url, isMatch && !isRegEx), Added(url, isBlock && !isRegEx),
               Added(url, isMatch && isRegEx), Added(url, isBlock && isRegEx))
  {
  }

  /** The rows appended show the URL in exactly the lists the dialog
      selected. */
  lemma AddedRowsShowSelected(url: string, isMatch: bool, isBlock: bool, isRegEx: bool, kind: UrlKind, role: UrlRole)
    ensures UrlsOf(AddedRows(url, isMatch, isBlock, isRegEx), kind, role) == Added(url, Selected(kind, role, isMatch, isBlock, isRegEx))
  {
    AddedRowsAreListRows(url, isMatch, isBlock, isRegEx);
    UrlsOfListRows(Added(url, isMatch && !isRegEx), Added(url, isBlock && !isRegEx),
                   Added(url, isMatch && isRegEx), Added(url, isBlock && isRegEx), kind, role);
  }

  lemma RowsForAppend(xs: seq<string>, ys: seq<string>, kind: UrlKind, role: UrlRole)
    ensures RowsFor(xs + ys, kind, role) == RowsFor(xs, kind, role) + RowsFor(ys, kind, role)
  {
  }

  /** Appending to the lists appends, list by list, to the rows shown for
      them, in some order. */
  lemma ListRowsAppend(normal: seq<string>, normalBlocked: seq<string>, regEx: seq<string>, regExBlocked: seq<string>,
                       a: seq<string>, b: seq<string>, c: seq<string>, d: seq<string>)
    ensures multiset(ListRows(normal + a, normalBlocked + b, regEx + c, regExBlocked + d))
      == multiset(ListRows(normal, normalBlocked, regEx, regExBlocked)) + multiset(ListRows(a, b, c, d))
  {
    RowsForAppend(normal, a, Normal, Match);
    RowsForAppend(normalBlocked, b, Normal, Block);
    RowsForAppend(regEx, c, RegEx, Match);
    RowsForAppend(regExBlocked, d, RegEx, Block);
  }

  /** A row shown for a list names a URL of that list, and of no other. */
  lemma RowsForMember(xs: seq<string>, kind: UrlKind, role: UrlRole, row: UrlRow)
    ensures row in RowsFor(xs, kind, role) <==> row.url in xs && row.kind == kind && row.role == role
  {
    if row.url in xs && row.kind == kind && row.role == role {
      var i :| 0 <= i < |xs| && xs[i] == row.url;
      assert RowsFor(xs, kind, role)[i] == row;
    }
  }

  lemma MultisetWithout<T>(a: seq<T>, x: T, b: seq<T>)
    ensures multiset(a + ([x] + b)) - multiset{x} == multiset(a + b)
  {
  }

  /** The rows shown for a list split around one of its URLs. */
  lemma RowsForSplit(pre: seq<string>, x: string, post: seq<string>, kind: UrlKind, role: UrlRole)
    ensures RowsFor(pre + ([x] + post), kind, role) == RowsFor(pre, kind, role) + ([UrlRow(x, kind, role)] + RowsFor(post, kind, role))
  {
    RowsForAppend(pre, [x] + post, kind, role);
    RowsForAppend([x], post, kind, role);
  }

  /** Removing a URL from a list removes one of its rows. */
  lemma RowsForRemoveFirst(xs: seq<string>, x: string, kind: UrlKind, role: UrlRole)
    ensures multiset(RowsFor(RemoveFirst(xs, x), kind, role)) ==
      if x in xs then multiset(RowsFor(xs, kind, role)) - multiset{UrlRow(x, kind, role)} else multiset(RowsFor(xs, kind, role))
  {
    var r := IndexOf(xs, x);
    if r.Some? {
      var i := r.value;
      var pre, post := xs[..i], xs[i + 1..];
      assert RemoveFirst(xs, x) == pre + post;
      assert xs == pre + ([x] + post);
      RowsForSplit(pre, x, post, kind, role);
      RowsForAppend(pre, post, kind, role);
      MultisetWithout(RowsFor(pre, kind, role), UrlRow(x, kind, role), RowsFor(post, kind, role));
    }
  }

  /** The list of one kind and role once the row `row` is deleted from the
      view: its URL goes from its own list, once. */
  function RemovedFrom(xs: seq<string>, row: UrlRow, kind: UrlKind, role: UrlRole): seq<string> {
    if row.kind == kind && row.role == role then RemoveFirst(xs, row.url) else xs
  }

  /** Deleting a row takes its URL, once, from the list of the row's own
      kind and role, keeping the order of the rest; every other list is
      left as it is. */
  lemma RemovedFromOwnList(xs: seq<string>, row: UrlRow, kind: UrlKind, role: UrlRole)
    ensures !(row.kind == kind && row.role == role) ==> RemovedFrom(xs, row, kind, role) == xs
    ensures row.kind == kind && row.role == role ==>
      multiset(RemovedFrom(xs, row, kind, role)) == multiset(xs) - multiset{row.url}
    ensures row.kind == kind && row.role == role && IndexOf(xs, row.url).Some? ==>
      var i := IndexOf(xs, row.url).value;
      RemovedFrom(xs, row, kind, role) == xs[..i] + xs[i + 1..]
  {
    if row.kind == kind && row.role == role && row.url in xs {
      RemoveFirstKeepsOrder(xs, row.url);
    }
  }

  /** Deleting a row from the list of its own kind and role takes that row,
      once, from the rows shown for the list; the other lists keep theirs. */
  lemma RowsForRemovedFrom(xs: seq<string>, row: UrlRow, kind: UrlKind, role: UrlRole)
    ensures multiset(RowsFor(RemovedFrom(xs, row, kind, role), kind, role))
      + (if row in RowsFor(xs, kind, role) then multiset{row} else multiset{})
      == multiset(RowsFor(xs, kind, role))
  {
    RowsForMember(xs, kind, role, row);
    if row.kind == kind && row.role == role {
      RowsForRemoveFirst(xs, row.url, kind, role);
    }
  }

  /** A row shown for the four lists names a URL of its own list, and
      deleting it there deletes exactly that row. */
  lemma ListRowsRemove(normal: seq<string>, normalBlocked: seq<string>, regEx: seq<string>, regExBlocked: seq<string>,
                       row: UrlRow)
    requires row in ListRows(normal, normalBlocked, regEx, regExBlocked)
    ensures row.url in ListOf(row.kind, row.role, normal, normalBlocked, regEx, regExBlocked)
    ensures multiset(ListRows(RemovedFrom(normal, row, Normal, Match), RemovedFrom(normalBlocked, row, Normal, Block),
                              RemovedFrom(regEx, row, RegEx, Match), RemovedFrom(regExBlocked, row, RegEx, Block)))
      + multiset{row} == multiset(ListRows(normal, normalBlocked, regEx, regExBlocked))
  {
    RowsForMember(normal, Normal, Match, row);
    RowsForMember(normalBlocked, Normal, Block, row);
    RowsForMember(regEx, RegEx, Match, row);
    RowsForMember(regExBlocked, RegEx, Block, row);
    RowsForRemovedFrom(normal, row, Normal, Match);
    RowsForRemovedFrom(normalBlocked, row, Normal, Block);
    RowsForRemovedFrom(regEx, row, RegEx, Match);
    RowsForRemovedFrom(regExBlocked, row, RegEx, Block);
  }
}
