/**
 When a search finds something. Places on a page are spent on sessions without participants too, which are dropped
 only afterwards, so that a match can be missed behind them. Whether it can has an exact condition.
 */
module SearchFinds {
  import opened ParticipantLists
  import opened Tables
  import opened SearchCriteria
  import opened SearchLimits
  import opened Handlers
  import Runs = SmallRuns

  /** Accepted sessions without participants take up places on a page and are dropped when it is scanned. */
  ghost function EmptyRows(db: Database, c: Criterion): set<Gid> {
    set gid | gid in AcceptedRows(db, c) && db.gatherings[gid].participants == []
  }

  ghost function PeopledRows(db: Database, c: Criterion): set<Gid> {
    set gid | gid in AcceptedRows(db, c) && db.gatherings[gid].participants != []
  }

  /** Whatever page the database gives, something is found. */
  ghost predicate AlwaysFinds(db: Database, c: Criterion, range: Range, source: Option<nat>, found: nat) {
    forall part :: Contributes(db, c, range, source, found, part) ==> part != []
  }

  lemma {:induction false} CountDistinct<T>(xs: seq<T>, s: set<T>)
    requires NoRepeats(xs) && forall x :: x in xs ==> x in s
    ensures |xs| <= |s|
    ensures (forall x :: x in s ==> x in xs) ==> |xs| == |s|
    decreases |xs|
  {
    if xs == [] {
      assert (forall x :: x in s ==> x in xs) ==> s == {};
    } else {
      var init, last := xs[..|xs| - 1], xs[|xs| - 1];
      assert xs == init + [last] && last in xs;
      CountDistinct(init, s - {last});
    }
  }

  lemma {:induction false} LatestOf(db: Database, order: Order, rows: set<Gid>) returns (last: Gid)
    requires rows != {}
    ensures last in rows && forall gid :: gid in rows ==> KeyOf(db, order, gid) <= KeyOf(db, order, last)
    decreases |rows|
  {
    last :| last in rows;
    var rest := rows - {last};
    if rest != {} {
      var other := LatestOf(db, order, rest);
      if KeyOf(db, order, last) < KeyOf(db, order, other) {
        last := other;
      }
    }
  }

  /** Every set of rows has an ordering. */
  lemma {:induction false} SomeOrdering(db: Database, order: Order, rows: set<Gid>) returns (full: seq<Gid>)
    ensures IsOrdering(db, rows, order, full) && |full| == |rows|
    decreases |rows|
  {
    if rows == {} {
      full := [];
    } else {
      var last := LatestOf(db, order, rows);
      var init := SomeOrdering(db, order, rows - {last});
      AppendLatest(db, order, rows - {last}, init, last);
      full := init + [last];
      assert rows - {last} + {last} == rows;
    }
  }

  lemma AppendLatest(db: Database, order: Order, rows: set<Gid>, full: seq<Gid>, last: Gid)
    requires IsOrdering(db, rows, order, full) && last !in rows
    requires forall gid :: gid in rows ==> KeyOf(db, order, gid) <= KeyOf(db, order, last)
    ensures IsOrdering(db, rows + {last}, order, full + [last])
  {
    AppendNoRepeats(full, last);
    assert forall i :: 0 <= i < |full| ==> full[i] in rows;
  }

  lemma JoinOrderings(db: Database, order: Order, a: set<Gid>, b: set<Gid>, first: seq<Gid>, second: seq<Gid>)
    requires IsOrdering(db, a, order, first) && IsOrdering(db, b, order, second) && a !! b
    requires forall x, y :: x in a && y in b ==> KeyOf(db, order, x) <= KeyOf(db, order, y)
    ensures IsOrdering(db, a + b, order, first + second)
  {
    var full := first + second;
    forall i | 0 <= i < |first|
      ensures full[i] in a
    {
    }
    forall j | |first| <= j < |full|
      ensures full[j] in b
    {
      assert full[j] == second[j - |first|];
    }
  }

  /** A page of empty sessions is scanned to nothing. */
  lemma NothingScanned(db: Database, rows: seq<Gid>)
    ensures Scanned(db, rows) == [] <==> forall gid :: gid in rows ==> gid !in db.gatherings || db.gatherings[gid].participants == []
  {
    if Scanned(db, rows) != [] {
      assert Scanned(db, rows)[0] in rows;
    }
  }

  /** The selection method and attribute 1 leave one order. */
  lemma OrderIsDetermined(c: Criterion, source: Option<nat>, order: Order, other: Order)
    requires OrderFits(c, source, order) && OrderFits(c, source, other)
    ensures order == other
  {
  }

  /** A listing whose window holds nobody shows that a match can be missed. */
  lemma EmptyWindow(db: Database, c: Criterion, range: Range, source: Option<nat>, found: nat, order: Order, full: seq<Gid>)
    requires !Skips(c, source) && OrderFits(c, source, order) && IsOrdering(db, AcceptedRows(db, c), order, full)
    requires forall gid :: gid in Window(full, LimitFor(c, range, found), OffsetFor(c, range)) ==> gid in EmptyRows(db, c)
    ensures !AlwaysFinds(db, c, range, source, found)
  {
    var page := Window(full, LimitFor(c, range, found), OffsetFor(c, range));
    assert IsPage(db, AcceptedRows(db, c), order, LimitFor(c, range, found), OffsetFor(c, range), page);
    NothingScanned(db, page);
    assert Contributes(db, c, range, source, found, []);
  }

  /** Whatever is found nothing in comes from a listing whose window holds nobody. */
  lemma NothingFound(db: Database, c: Criterion, range: Range, source: Option<nat>, found: nat, order: Order)
    returns (full: seq<Gid>)
    requires !Skips(c, source) && OrderFits(c, source, order) && Contributes(db, c, range, source, found, [])
    ensures IsOrdering(db, AcceptedRows(db, c), order, full)
    ensures forall gid :: gid in Window(full, LimitFor(c, range, found), OffsetFor(c, range)) ==> gid in EmptyRows(db, c)
  {
    var limit, offset := LimitFor(c, range, found), OffsetFor(c, range);
    var other, page :|
      OrderFits(c, source, other) && IsPage(db, AcceptedRows(db, c), other, limit, offset, page) && [] == Scanned(db, page);
    OrderIsDetermined(c, source, order, other);
    full :| IsOrdering(db, AcceptedRows(db, c), order, full) && page == Window(full, limit, offset);
    NothingScanned(db, page);
    WindowIsInside(full, limit, offset);
  }

  lemma RowsAreCounted(db: Database, c: Criterion)
    ensures AcceptedRows(db, c) == PeopledRows(db, c) + EmptyRows(db, c) && PeopledRows(db, c) !! EmptyRows(db, c)
    ensures |AcceptedRows(db, c)| == |PeopledRows(db, c)| + |EmptyRows(db, c)|
  {
    assert AcceptedRows(db, c) == PeopledRows(db, c) + EmptyRows(db, c);
  }

  lemma Interleaved<T>(a: seq<T>, b: seq<T>, k: nat)
    requires NoRepeats(a) && NoRepeats(b) && k <= |a| && forall x :: x in a ==> x !in b
    ensures NoRepeats(a[..k] + b + a[k..])
    ensures forall x :: x in a[..k] + b + a[k..] <==> x in a || x in b
  {
    assert a == a[..k] + a[k..];
    var whole := a[..k] + b + a[k..];
    assert forall i :: 0 <= i < |a| ==> a[i] in a;
    assert forall i :: 0 <= i < |b| ==> b[i] in b;
  }

  // ---------------------------------------------------------------- groups of equal keys

  function BelowKey(db: Database, order: Order, rows: set<Gid>, v: nat): set<Gid> {
    set gid | gid in rows && KeyOf(db, order, gid) < v
  }

  function AtKey(db: Database, order: Order, rows: set<Gid>, v: nat): set<Gid> {
    set gid | gid in rows && KeyOf(db, order, gid) == v
  }

  /** How many of `size` rows that stand behind `before` others are on the page. */
  function Share(before: nat, size: nat, limit: nat, offset: nat): nat {
    var from := if offset < before then before else offset;
    var end := if offset + limit < before + size then offset + limit else before + size;
    if from < end then end - from else 0
  }

  /** The page shows rows of this set only. */
  ghost predicate ShowsOnly(full: seq<Gid>, limit: nat, offset: nat, rows: set<Gid>) {
    forall i :: offset <= i < offset + limit && i < |full| ==> full[i] in rows
  }

  lemma WindowShowsOnly(full: seq<Gid>, limit: nat, offset: nat, rows: set<Gid>)
    ensures ShowsOnly(full, limit, offset, rows) <==> forall gid :: gid in Window(full, limit, offset) ==> gid in rows
  {
    var page := Window(full, limit, offset);
    forall i | offset <= i < offset + limit && i < |full|
      ensures full[i] in page
    {
      assert page[i - offset] == full[i];
    }
    forall k | 0 <= k < |page|
      ensures offset <= offset + k < offset + limit && offset + k < |full| && page[k] == full[offset + k]
    {
    }
  }

  lemma {:induction false} FirstAtLeast(db: Database, order: Order, full: seq<Gid>, v: nat) returns (k: nat)
    requires forall i, j :: 0 <= i < j < |full| ==> KeyOf(db, order, full[i]) <= KeyOf(db, order, full[j])
    ensures k <= |full|
    ensures forall i :: 0 <= i < |full| ==> (KeyOf(db, order, full[i]) < v <==> i < k)
    decreases |full|
  {
    if full == [] {
      k := 0;
    } else {
      var n := |full| - 1;
      k := FirstAtLeast(db, order, full[..n], v);
      if k == n && KeyOf(db, order, full[n]) < v {
        k := n + 1;
      } else if k < n {
        assert KeyOf(db, order, full[..n][k]) >= v;
      }
    }
  }

  /** In any ordering the rows below a key come first. */
  lemma BelowComesFirst(db: Database, order: Order, rows: set<Gid>, full: seq<Gid>, v: nat)
    requires IsOrdering(db, rows, order, full)
    ensures |BelowKey(db, order, rows, v)| <= |full|
    ensures forall i :: 0 <= i < |full| ==> (KeyOf(db, order, full[i]) < v <==> i < |BelowKey(db, order, rows, v)|)
  {
    var k := FirstAtLeast(db, order, full, v);
    var below := BelowKey(db, order, rows, v);
    forall gid | gid in below
      ensures gid in full[..k]
    {
      var i :| 0 <= i < |full| && full[i] == gid;
      assert full[..k][i] == gid;
    }
    CountDistinct(full[..k], below);
  }

  lemma NextKey(db: Database, order: Order, rows: set<Gid>, v: nat)
    ensures BelowKey(db, order, rows, v + 1) == BelowKey(db, order, rows, v) + AtKey(db, order, rows, v)
    ensures |BelowKey(db, order, rows, v + 1)| == |BelowKey(db, order, rows, v)| + |AtKey(db, order, rows, v)|
  {
    assert BelowKey(db, order, rows, v + 1) == BelowKey(db, order, rows, v) + AtKey(db, order, rows, v);
    assert BelowKey(db, order, rows, v) !! AtKey(db, order, rows, v);
  }

  /** And the rows of the key itself come next. */
  lemma GroupComesNext(db: Database, order: Order, rows: set<Gid>, full: seq<Gid>, v: nat)
    requires IsOrdering(db, rows, order, full)
    ensures
      var before, size := |BelowKey(db, order, rows, v)|, |AtKey(db, order, rows, v)|;
      before + size <= |full| && forall i :: before <= i < before + size ==> KeyOf(db, order, full[i]) == v
  {
    BelowComesFirst(db, order, rows, full, v);
    BelowComesFirst(db, order, rows, full, v + 1);
    NextKey(db, order, rows, v);
  }

  /** A page that shows only some rows shows no more of a group than there are of these in it. */
  lemma ShownGroupIsSmall(
    db: Database, order: Order, rows: set<Gid>, some: set<Gid>, full: seq<Gid>, limit: nat, offset: nat, v: nat)
    requires IsOrdering(db, rows, order, full) && ShowsOnly(full, limit, offset, some)
    ensures Share(|BelowKey(db, order, rows, v)|, |AtKey(db, order, rows, v)|, limit, offset) <= |AtKey(db, order, some, v)|
  {
    GroupComesNext(db, order, rows, full, v);
    var before, size := |BelowKey(db, order, rows, v)|, |AtKey(db, order, rows, v)|;
    var from := if offset < before then before else offset;
    var end := if offset + limit < before + size then offset + limit else before + size;
    if from < end {
      SliceIsSmall(full, from, end, AtKey(db, order, some, v));
    }
  }

  lemma SliceIsSmall<T>(full: seq<T>, from: nat, end: nat, s: set<T>)
    requires NoRepeats(full) && from <= end <= |full| && forall i :: from <= i < end ==> full[i] in s
    ensures end - from <= |s|
  {
    var slice := full[from..end];
    assert forall k :: 0 <= k < |slice| ==> slice[k] == full[from + k];
    CountDistinct(slice, s);
  }

  // ---------------------------------------------------------------- hiding

  /** No group shows more than its empty rows. */
  ghost predicate CanHide(db: Database, order: Order, rows: set<Gid>, empty: set<Gid>, limit: nat, offset: nat) {
    forall v: nat ::
      Share(|BelowKey(db, order, rows, v)|, |AtKey(db, order, rows, v)|, limit, offset) <= |AtKey(db, order, empty, v)|
  }

  /** One group: the empty rows stand behind as many others as are passed over. */
  lemma HideGroup(people: seq<Gid>, empty: seq<Gid>, before: nat, limit: nat, offset: nat) returns (group: seq<Gid>)
    requires NoRepeats(people) && NoRepeats(empty) && forall x :: x in people ==> x !in empty
    requires Share(before, |people| + |empty|, limit, offset) <= |empty|
    ensures NoRepeats(group) && |group| == |people| + |empty|
    ensures forall x :: x in group <==> x in people || x in empty
    ensures forall i :: 0 <= i < |group| && offset <= before + i < offset + limit ==> group[i] in empty
  {
    var passed := if offset < before then 0 else offset - before;
    var ahead := if passed < |people| then passed else |people|;
    group := people[..ahead] + empty + people[ahead..];
    Interleaved(people, empty, ahead);
    forall i | 0 <= i < |group| && offset <= before + i < offset + limit
      ensures group[i] in empty
    {
      assert ahead <= i < ahead + |empty|;
      assert group[i] == empty[i - ahead];
    }
  }

  /** What lies below the highest key. */
  lemma CanHideBelow(db: Database, order: Order, rows: set<Gid>, empty: set<Gid>, limit: nat, offset: nat, top: nat)
    requires CanHide(db, order, rows, empty, limit, offset)
    ensures CanHide(db, order, BelowKey(db, order, rows, top), BelowKey(db, order, empty, top), limit, offset)
  {
    var lower, lowerEmpty := BelowKey(db, order, rows, top), BelowKey(db, order, empty, top);
    forall v: nat
      ensures Share(|BelowKey(db, order, lower, v)|, |AtKey(db, order, lower, v)|, limit, offset)
           <= |AtKey(db, order, lowerEmpty, v)|
    {
      if v < top {
        assert BelowKey(db, order, lower, v) == BelowKey(db, order, rows, v);
        assert AtKey(db, order, lower, v) == AtKey(db, order, rows, v);
        assert AtKey(db, order, lowerEmpty, v) == AtKey(db, order, empty, v);
      } else {
        assert AtKey(db, order, lower, v) == {};
      }
    }
  }

  /** Rows of one key may be listed in any way. */
  lemma AnyListingOfGroup(db: Database, order: Order, group: set<Gid>, v: nat, full: seq<Gid>)
    requires (forall gid :: gid in group ==> KeyOf(db, order, gid) == v) && NoRepeats(full)
    requires forall gid :: gid in full <==> gid in group
    ensures IsOrdering(db, group, order, full) && |full| == |group|
  {
    assert forall i :: 0 <= i < |full| ==> full[i] in group;
    CountDistinct(full, group);
  }

  lemma HidingGroup(
    db: Database, order: Order, at: set<Gid>, atEmpty: set<Gid>, v: nat, before: nat, limit: nat, offset: nat)
    returns (group: seq<Gid>)
    requires (forall gid :: gid in at ==> KeyOf(db, order, gid) == v) && atEmpty <= at
    requires Share(before, |at|, limit, offset) <= |atEmpty|
    ensures IsOrdering(db, at, order, group) && |group| == |at|
    ensures forall i :: 0 <= i < |group| && offset <= before + i < offset + limit ==> group[i] in atEmpty
  {
    var people := SomeOrdering(db, order, at - atEmpty);
    var nobody := SomeOrdering(db, order, atEmpty);
    assert |at| == |at - atEmpty| + |atEmpty| by {
      assert at == (at - atEmpty) + atEmpty;
    }
    group := HideGroup(people, nobody, before, limit, offset);
    AnyListingOfGroup(db, order, at, v, group);
  }

  lemma JoinShown(first: seq<Gid>, second: seq<Gid>, limit: nat, offset: nat, rows: set<Gid>)
    requires ShowsOnly(first, limit, offset, rows)
    requires forall i :: 0 <= i < |second| && offset <= |first| + i < offset + limit ==> second[i] in rows
    ensures ShowsOnly(first + second, limit, offset, rows)
  {
    var full := first + second;
    forall i | offset <= i < offset + limit && i < |full|
      ensures full[i] in rows
    {
      if i < |first| {
        assert full[i] == first[i];
      } else {
        assert full[i] == second[i - |first|];
      }
    }
  }

  lemma ShowsMore(full: seq<Gid>, limit: nat, offset: nat, rows: set<Gid>, more: set<Gid>)
    requires ShowsOnly(full, limit, offset, rows) && rows <= more
    ensures ShowsOnly(full, limit, offset, more)
  {
  }

  /** The group of the highest key, behind an ordering of what lies below it. */
  lemma HideTop(
    db: Database, order: Order, lower: set<Gid>, at: set<Gid>, atEmpty: set<Gid>, empty: set<Gid>, limit: nat, offset: nat,
    top: nat, init: seq<Gid>)
    returns (full: seq<Gid>)
    requires lower !! at && atEmpty <= at && atEmpty <= empty
    requires forall gid :: gid in at ==> KeyOf(db, order, gid) == top
    requires forall x, y :: x in lower && y in at ==> KeyOf(db, order, x) <= KeyOf(db, order, y)
    requires Share(|lower|, |at|, limit, offset) <= |atEmpty|
    requires IsOrdering(db, lower, order, init) && |init| == |lower| && ShowsOnly(init, limit, offset, empty)
    ensures IsOrdering(db, lower + at, order, full) && |full| == |lower| + |at|
    ensures ShowsOnly(full, limit, offset, empty)
  {
    var group := HidingGroup(db, order, at, atEmpty, top, |lower|, limit, offset);
    JoinOrderings(db, order, lower, at, init, group);
    JoinShown(init, group, limit, offset, empty);
    full := init + group;
  }

  lemma TopSplits(db: Database, order: Order, rows: set<Gid>, empty: set<Gid>, top: nat)
    requires empty <= rows && forall gid :: gid in rows ==> KeyOf(db, order, gid) <= top
    ensures
      var lower, at := BelowKey(db, order, rows, top), AtKey(db, order, rows, top);
      && rows == lower + at && lower !! at && |rows| == |lower| + |at| && AtKey(db, order, empty, top) <= at
      && forall x, y :: x in lower && y in at ==> KeyOf(db, order, x) <= KeyOf(db, order, y)
  {
    assert rows == BelowKey(db, order, rows, top) + AtKey(db, order, rows, top);
  }

  /** Group by group, from the lowest key to the highest, the page can be filled with empty rows. */
  lemma {:induction false} HidingOrdering(
    db: Database, order: Order, rows: set<Gid>, empty: set<Gid>, limit: nat, offset: nat)
    returns (full: seq<Gid>)
    requires empty <= rows && CanHide(db, order, rows, empty, limit, offset)
    ensures IsOrdering(db, rows, order, full) && |full| == |rows|
    ensures ShowsOnly(full, limit, offset, empty)
    decreases |rows|
  {
    if rows == {} {
      full := [];
    } else {
      var last := LatestOf(db, order, rows);
      var top := KeyOf(db, order, last);
      var lower, lowerEmpty := BelowKey(db, order, rows, top), BelowKey(db, order, empty, top);
      FewerBelow(db, order, rows, last);
      CanHideBelow(db, order, rows, empty, limit, offset, top);
      var init := HidingOrdering(db, order, lower, lowerEmpty, limit, offset);
      ShowsMore(init, limit, offset, lowerEmpty, empty);
      TopSplits(db, order, rows, empty, top);
      full := HideTop(
        db, order, lower, AtKey(db, order, rows, top), AtKey(db, order, empty, top), empty, limit, offset, top, init);
    }
  }

  lemma FewerBelow(db: Database, order: Order, rows: set<Gid>, gid: Gid)
    requires gid in rows
    ensures |BelowKey(db, order, rows, KeyOf(db, order, gid))| < |rows|
  {
    var lower := BelowKey(db, order, rows, KeyOf(db, order, gid));
    assert rows == lower + (rows - lower) && gid in rows - lower;
  }

  // ---------------------------------------------------------------- when something is found

  /** The page shows more of some group than there are empty sessions in it. */
  ghost predicate SomeGroupShows(db: Database, c: Criterion, order: Order, limit: nat, offset: nat) {
    exists v: nat ::
      Share(|BelowKey(db, order, AcceptedRows(db, c), v)|, |AtKey(db, order, AcceptedRows(db, c), v)|, limit, offset)
      > |AtKey(db, order, EmptyRows(db, c), v)|
  }

  /**
   Exactly when a criterion finds something on every page the database may give, in any order and at any offset: of
   the rows of some sort key the page shows more than are empty.
   */
  lemma FindsIff(db: Database, c: Criterion, range: Range, source: Option<nat>, found: nat, order: Order)
    requires !Skips(c, source) && OrderFits(c, source, order)
    ensures AlwaysFinds(db, c, range, source, found)
       <==> SomeGroupShows(db, c, order, LimitFor(c, range, found), OffsetFor(c, range))
  {
    var limit, offset := LimitFor(c, range, found), OffsetFor(c, range);
    if SomeGroupShows(db, c, order, limit, offset) {
      if !AlwaysFinds(db, c, range, source, found) {
        var full := NothingFound(db, c, range, source, found, order);
        WindowShowsOnly(full, limit, offset, EmptyRows(db, c));
        NoGroupShows(db, c, order, limit, offset, full);
        assert false;
      }
    } else {
      assert CanHide(db, order, AcceptedRows(db, c), EmptyRows(db, c), limit, offset);
      var full := HidingOrdering(db, order, AcceptedRows(db, c), EmptyRows(db, c), limit, offset);
      WindowShowsOnly(full, limit, offset, EmptyRows(db, c));
      EmptyWindow(db, c, range, source, found, order, full);
    }
  }

  lemma NoGroupShows(db: Database, c: Criterion, order: Order, limit: nat, offset: nat, full: seq<Gid>)
    requires IsOrdering(db, AcceptedRows(db, c), order, full) && ShowsOnly(full, limit, offset, EmptyRows(db, c))
    ensures !SomeGroupShows(db, c, order, limit, offset)
  {
    forall v: nat
      ensures Share(|BelowKey(db, order, AcceptedRows(db, c), v)|, |AtKey(db, order, AcceptedRows(db, c), v)|, limit, offset)
           <= |AtKey(db, order, EmptyRows(db, c), v)|
    {
      ShownGroupIsSmall(db, order, AcceptedRows(db, c), EmptyRows(db, c), full, limit, offset, v);
    }
  }

  /**
   Without an order there is one group: fewer empty sessions than places on the page, and more sessions with
   participants than are passed over before it.
   */
  lemma UnorderedFindsIff(db: Database, c: Criterion, range: Range, source: Option<nat>, found: nat)
    requires !Skips(c, source) && OrderFits(c, source, AnyOrder)
    ensures AlwaysFinds(db, c, range, source, found)
       <==> |EmptyRows(db, c)| < LimitFor(c, range, found) && OffsetFor(c, range) < |PeopledRows(db, c)|
  {
    FindsIff(db, c, range, source, found, AnyOrder);
    RowsAreCounted(db, c);
    var rows, limit, offset := AcceptedRows(db, c), LimitFor(c, range, found), OffsetFor(c, range);
    OneGroup(db, rows);
    OneGroup(db, EmptyRows(db, c));
    assert SomeGroupShows(db, c, AnyOrder, limit, offset) <==> Share(0, |rows|, limit, offset) > |EmptyRows(db, c)|;
  }

  lemma OneGroup(db: Database, rows: set<Gid>)
    ensures BelowKey(db, AnyOrder, rows, 0) == {} && AtKey(db, AnyOrder, rows, 0) == rows
    ensures forall v: nat :: v != 0 ==> AtKey(db, AnyOrder, rows, v) == {}
  {
    assert AtKey(db, AnyOrder, rows, 0) == rows;
  }

  /** The rows of `empty` that may come before all of `people`. */
  ghost function Ahead(db: Database, order: Order, people: set<Gid>, empty: set<Gid>): set<Gid> {
    set gid | gid in empty && forall other :: other in people ==> KeyOf(db, order, gid) <= KeyOf(db, order, other)
  }

  /** Empty sessions that may come before everybody else in this order. */
  ghost function Blockers(db: Database, c: Criterion, order: Order): set<Gid> {
    Ahead(db, order, PeopledRows(db, c), EmptyRows(db, c))
  }

  /**
   On the first page, in any order: somebody is accepted, and the empty sessions that may come before everybody are
   fewer than the places.
   */
  lemma FirstPageFindsIff(db: Database, c: Criterion, range: Range, source: Option<nat>, found: nat, order: Order)
    requires !Skips(c, source) && OrderFits(c, source, order) && OffsetFor(c, range) == 0
    ensures AlwaysFinds(db, c, range, source, found)
       <==> PeopledRows(db, c) != {} && |Blockers(db, c, order)| < LimitFor(c, range, found)
  {
    FindsIff(db, c, range, source, found, order);
    RowsAreCounted(db, c);
    var limit, people, empty := LimitFor(c, range, found), PeopledRows(db, c), EmptyRows(db, c);
    if people != {} && |Blockers(db, c, order)| < limit {
      FirstGroupShows(db, order, people, empty, limit);
    }
    if SomeGroupShows(db, c, order, limit, 0) {
      var v: nat :|
        Share(|BelowKey(db, order, AcceptedRows(db, c), v)|, |AtKey(db, order, AcceptedRows(db, c), v)|, limit, 0)
        > |AtKey(db, order, empty, v)|;
      AheadAreFew(db, order, people, empty, limit, v);
    }
  }

  lemma AheadOfFirst(db: Database, order: Order, people: set<Gid>, empty: set<Gid>, first: Gid)
    requires people !! empty && first in people
    requires forall gid :: gid in people ==> KeyOf(db, order, first) <= KeyOf(db, order, gid)
    ensures
      var v := KeyOf(db, order, first);
      Ahead(db, order, people, empty) == BelowKey(db, order, people + empty, v) + AtKey(db, order, empty, v)
  {
    var v := KeyOf(db, order, first);
    assert forall gid :: gid in Ahead(db, order, people, empty) ==> KeyOf(db, order, gid) <= v;
  }

  lemma PeopledGroup(db: Database, order: Order, people: set<Gid>, empty: set<Gid>, somebody: Gid)
    requires people !! empty && somebody in people
    ensures
      var v := KeyOf(db, order, somebody);
      |AtKey(db, order, people + empty, v)| > |AtKey(db, order, empty, v)|
  {
    var v := KeyOf(db, order, somebody);
    var atEmpty := AtKey(db, order, empty, v);
    assert somebody !in atEmpty;
    SubsetIsSmaller(atEmpty + {somebody}, AtKey(db, order, people + empty, v));
  }

  /** The first group with somebody in it: what is empty up to there comes ahead. */
  lemma FirstGroupShows(db: Database, order: Order, people: set<Gid>, empty: set<Gid>, limit: nat)
    requires people !! empty && people != {} && |Ahead(db, order, people, empty)| < limit
    ensures exists v: nat ::
              Share(|BelowKey(db, order, people + empty, v)|, |AtKey(db, order, people + empty, v)|, limit, 0)
              > |AtKey(db, order, empty, v)|
  {
    var first := EarliestOf(db, order, people);
    var v := KeyOf(db, order, first);
    var below, atEmpty := BelowKey(db, order, people + empty, v), AtKey(db, order, empty, v);
    AheadOfFirst(db, order, people, empty, first);
    PeopledGroup(db, order, people, empty, first);
    assert |below + atEmpty| == |below| + |atEmpty| by {
      assert below !! atEmpty;
    }
    FirstShare(|below|, |AtKey(db, order, people + empty, v)|, limit, |atEmpty|);
  }

  lemma FirstShare(before: nat, size: nat, limit: nat, few: nat)
    ensures before + few < limit && few < size <==> Share(before, size, limit, 0) > few
  {
  }

  lemma AheadAreFew(db: Database, order: Order, people: set<Gid>, empty: set<Gid>, limit: nat, v: nat)
    requires
      Share(|BelowKey(db, order, people + empty, v)|, |AtKey(db, order, people + empty, v)|, limit, 0)
      > |AtKey(db, order, empty, v)|
    ensures people != {} && |Ahead(db, order, people, empty)| < limit
  {
    var below, at := BelowKey(db, order, people + empty, v), AtKey(db, order, people + empty, v);
    var atEmpty := AtKey(db, order, empty, v);
    FirstShare(|below|, |at|, limit, |atEmpty|);
    if at <= atEmpty {
      SubsetIsSmaller(at, atEmpty);
      assert false;
    }
    var somebody :| somebody in at && somebody !in atEmpty;
    assert somebody in people;
    assert forall gid :: gid in Ahead(db, order, people, empty) ==> KeyOf(db, order, gid) <= v;
    SubsetIsSmaller(Ahead(db, order, people, empty), below + atEmpty);
  }

  lemma {:induction false} EarliestOf(db: Database, order: Order, rows: set<Gid>) returns (first: Gid)
    requires rows != {}
    ensures first in rows && forall gid :: gid in rows ==> KeyOf(db, order, first) <= KeyOf(db, order, gid)
    decreases |rows|
  {
    first :| first in rows;
    var rest := rows - {first};
    if rest != {} {
      var other := EarliestOf(db, order, rest);
      if KeyOf(db, order, other) < KeyOf(db, order, first) {
        first := other;
      }
    }
  }

  lemma SubsetIsSmaller<T>(a: set<T>, b: set<T>)
    requires a <= b
    ensures |a| <= |b|
  {
    assert b == a + (b - a);
  }

  /** In particular a criterion that asks for room is never answered with nothing while some session is accepted. */
  lemma RoomyCriterionFinds(
    db: Database, c: Criterion, range: Range, source: Option<nat>, found: nat, part: seq<Gid>)
    requires Contributes(db, c, range, source, found, part)
    requires !Skips(c, source) && c.vacantOnly
    requires LimitFor(c, range, found) > 0 && OffsetFor(c, range) == 0
    ensures part == [] <==> AcceptedRows(db, c) == {}
  {
    RowsAreCounted(db, c);
    assert EmptyRows(db, c) == {};
    var order, page :|
      OrderFits(c, source, order)
      && IsPage(db, AcceptedRows(db, c), order, LimitFor(c, range, found), OffsetFor(c, range), page)
      && part == Scanned(db, page);
    assert Blockers(db, c, order) == {};
    FirstPageFindsIff(db, c, range, source, found, order);
    PagesStayInside(db, c, range, source, found, part);
    if part != [] {
      assert part[0] in part;
    }
  }

  /** Without asking for room, one session that was left empty is enough to hide an accepted one behind the limit. */
  lemma EmptySessionHidesMatch(db: Database)
    requires db.gatherings.Keys == db.sessions.Keys == {1, 2}
    requires Accepts(ANYTHING, db.gatherings[1], db.sessions[1]) && db.gatherings[1].participants == []
    requires Accepts(ANYTHING, db.gatherings[2], db.sessions[2]) && db.gatherings[2].participants != []
    ensures 2 in AcceptedRows(db, ANYTHING)
    ensures Contributes(db, ANYTHING, Range(0, 1), None, 0, [])
  {
    AnythingAccepts(ANYTHING, db.gatherings[1], db.sessions[1]);
    assert EmptyRows(db, ANYTHING) == {1};
    UnorderedFindsIff(db, ANYTHING, Range(0, 1), None, 0);
  }

  /**
   The server gets there: a creator with a guest is refused by a session for one and leaves it behind empty; a visitor
   creates another session. A search that accepts both may find neither.
   */
  lemma EmptySessionIsServed() returns (steps: seq<Step>)
    ensures steps == [Runs.Creating(Runs.CREATOR, 1, 2), Runs.Creating(Runs.VISITOR, 4, 1)] && Serves(EMPTY, steps)
    ensures
      var db := TablesOf(Served(EMPTY, steps));
      && 2 in AcceptedRows(db, ANYTHING) && db.gatherings[2].participants == [Runs.VISITOR]
      && Contributes(db, ANYTHING, Range(0, 1), None, 0, [])
  {
    var first, second := Runs.Creating(Runs.CREATOR, 1, 2), Runs.Creating(Runs.VISITOR, 4, 1);
    steps := [first, second];
    Runs.RefusedCreationRun(1, 2);
    Runs.OneStep(EMPTY, first);
    Runs.CreationStep(Runs.OneSession(1, []), Runs.VISITOR, 4);
    Runs.TwoSteps(EMPTY, first, second);
    var db := TablesOf(Served(EMPTY, steps));
    AnythingAccepts(ANYTHING, db.gatherings[1], db.sessions[1]);
    AnythingAccepts(ANYTHING, db.gatherings[2], db.sessions[2]);
    EmptySessionHidesMatch(db);
  }
}
