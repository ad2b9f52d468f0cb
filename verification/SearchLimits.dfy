/** How much a search returns: the criteria share one limit, unless they bring ranges of their own. */
module SearchLimits {
  import opened ParticipantLists
  import opened Tables
  import opened SearchCriteria
  import opened Handlers
  import Runs = SmallRuns
  import Spec = MatchmakingSpec

  // ---------------------------------------------------------------- the shared limit

  /** The subtraction in LIMIT wraps exactly when more has been found than was asked for. */
  lemma LimitWrapsIff(length: nat, found: nat)
    requires length < UINT32_SIZE && found < UINT32_SIZE
    ensures RemainingLimit(length, found) == length - found <==> found <= length
    ensures RemainingLimit(length, found) > length <==> found > length
  {
  }

  function RangesOf(criteria: seq<Criterion>): (ranges: seq<Range>)
    ensures |ranges| == |criteria|
  {
    seq(|criteria|, i requires 0 <= i < |criteria| => criteria[i].range)
  }

  /** A criterion with a range of length 0 uses what is left of the shared limit. */
  predicate AllOwn(ranges: seq<Range>) {
    forall i :: 0 <= i < |ranges| ==> ranges[i].length != 0
  }

  /** No criterion with a range of its own comes after one that shares the limit. */
  predicate OwnFirst(ranges: seq<Range>) {
    forall i, j :: 0 <= i < j < |ranges| && ranges[j].length != 0 ==> ranges[i].length != 0
  }

  function OwnTotal(ranges: seq<Range>): nat {
    if ranges == [] then 0 else OwnTotal(ranges[..|ranges| - 1]) + ranges[|ranges| - 1].length
  }

  /** What a caller can check: the ranges of their own come first and fit into the requested length together. */
  predicate FitTogether(ranges: seq<Range>, length: nat) {
    OwnFirst(ranges) && OwnTotal(ranges) <= length
  }

  /** One range more fits if it is shared, or if it is the next of its own and still fits. */
  lemma FitsOneMore(ranges: seq<Range>, last: Range, length: nat)
    ensures OwnTotal(ranges + [last]) == OwnTotal(ranges) + last.length
    ensures AllOwn(ranges + [last]) <==> AllOwn(ranges) && last.length != 0
    ensures FitTogether(ranges + [last], length)
       <==> FitTogether(ranges, length)
            && (last.length == 0 || (AllOwn(ranges) && OwnTotal(ranges) + last.length <= length))
  {
    var more := ranges + [last];
    assert more[..|ranges|] == ranges;
    assert more[|ranges|] == last && forall i :: 0 <= i < |ranges| ==> more[i] == ranges[i];
  }

  lemma RangesOneMore(criteria: seq<Criterion>)
    requires criteria != []
    ensures
      var n := |criteria| - 1;
      RangesOf(criteria) == RangesOf(criteria[..n]) + [criteria[n].range]
  {
  }

  /** If the ranges fit together, the total is at most the requested length; criteria of their own keep to their own. */
  lemma {:induction false} FittingRangesKeepTheBound(
    db: Database, criteria: seq<Criterion>, range: Range, source: Option<nat>, parts: seq<seq<Gid>>)
    requires Collects(db, criteria, range, source, parts)
    requires range.length < UINT32_SIZE && FitTogether(RangesOf(criteria), range.length)
    ensures |Flatten(parts)| <= range.length
    ensures AllOwn(RangesOf(criteria)) ==> |Flatten(parts)| <= OwnTotal(RangesOf(criteria))
    decreases |criteria|
  {
    if criteria != [] {
      var n := |criteria| - 1;
      RangesOneMore(criteria);
      FitsOneMore(RangesOf(criteria[..n]), criteria[n].range, range.length);
      FittingRangesKeepTheBound(db, criteria[..n], range, source, parts[..n]);
      LimitWrapsIff(range.length, |Flatten(parts[..n])|);
      PagesStayInside(db, criteria[n], range, source, |Flatten(parts[..n])|, parts[n]);
    }
  }

  lemma {:induction false} NoOwnRangesFit(ranges: seq<Range>, length: nat)
    requires forall i :: 0 <= i < |ranges| ==> ranges[i].length == 0
    ensures FitTogether(ranges, length) && OwnTotal(ranges) == 0
    decreases |ranges|
  {
    if ranges != [] {
      NoOwnRangesFit(ranges[..|ranges| - 1], length);
    }
  }

  /** In particular when no criterion brings its own range. */
  lemma SharedRangeBound(
    db: Database, criteria: seq<Criterion>, range: Range, source: Option<nat>, parts: seq<seq<Gid>>)
    requires Collects(db, criteria, range, source, parts)
    requires range.length < UINT32_SIZE
    requires forall c :: c in criteria ==> c.range.length == 0
    ensures |Flatten(parts)| <= range.length
  {
    forall i | 0 <= i < |criteria|
      ensures RangesOf(criteria)[i].length == 0
    {
      assert criteria[i] in criteria;
    }
    NoOwnRangesFit(RangesOf(criteria), range.length);
    FittingRangesKeepTheBound(db, criteria, range, source, parts);
  }

  lemma {:induction false} FitsSoFar(ranges: seq<Range>, length: nat, k: nat)
    requires FitTogether(ranges, length) && k <= |ranges|
    ensures FitTogether(ranges[..k], length)
    decreases |ranges|
  {
    if k == |ranges| {
      assert ranges[..k] == ranges;
    } else {
      var n := |ranges| - 1;
      assert ranges == ranges[..n] + [ranges[n]];
      FitsOneMore(ranges[..n], ranges[n], length);
      FitsSoFar(ranges[..n], length, k);
      assert ranges[..n][..k] == ranges[..k];
    }
  }

  lemma {:induction false} CollectsSoFar(
    db: Database, criteria: seq<Criterion>, range: Range, source: Option<nat>, parts: seq<seq<Gid>>, k: nat)
    requires Collects(db, criteria, range, source, parts) && k <= |criteria|
    ensures Collects(db, criteria[..k], range, source, parts[..k])
    decreases |criteria|
  {
    if k == |criteria| {
      assert criteria[..k] == criteria && parts[..k] == parts;
    } else {
      var n := |criteria| - 1;
      CollectsSoFar(db, criteria[..n], range, source, parts[..n], k);
      assert criteria[..n][..k] == criteria[..k] && parts[..n][..k] == parts[..k];
    }
  }

  /** And then no shared LIMIT wraps: each is what is left of the requested length. */
  lemma SharedLimitsNeverWrap(
    db: Database, criteria: seq<Criterion>, range: Range, source: Option<nat>, parts: seq<seq<Gid>>, k: nat)
    requires Collects(db, criteria, range, source, parts)
    requires range.length < UINT32_SIZE && FitTogether(RangesOf(criteria), range.length)
    requires k < |criteria| && criteria[k].range.length == 0
    ensures |Flatten(parts[..k])| <= range.length
    ensures LimitFor(criteria[k], range, |Flatten(parts[..k])|) == range.length - |Flatten(parts[..k])|
  {
    FitsSoFar(RangesOf(criteria), range.length, k);
    CollectsSoFar(db, criteria, range, source, parts, k);
    assert RangesOf(criteria)[..k] == RangesOf(criteria[..k]);
    FittingRangesKeepTheBound(db, criteria[..k], range, source, parts[..k]);
    LimitWrapsIff(range.length, |Flatten(parts[..k])|);
  }

  // ---------------------------------------------------------------- beyond the bound

  const ANYTHING: Criterion :=
    Criterion(["", "", "", "", "", ""], "", "", "", "", false, 0, false, false, false, false, 0, "", SelectRandom, Range(0, 0))

  function Ids(n: nat): seq<Gid> { seq(n, i requires 0 <= i => i + 1) }

  lemma IdsUpTo(n: nat)
    ensures forall gid :: gid in Ids(n) <==> 1 <= gid <= n
    ensures NoRepeats(Ids(n))
  {
    forall gid | 1 <= gid <= n
      ensures gid in Ids(n)
    {
      assert Ids(n)[gid - 1] == gid;
    }
  }

  /** What a search sees of the tables. */
  function TablesOf(s: State): Database {
    Database(s.gatherings, s.sessions)
  }

  /** The tables when `n` players have created a session for four each and are alone in it. */
  function Crowd(n: nat): Database {
    var f := Spec.ToSessionForm(Runs.Asking(4));
    Database(
      map gid | gid in Ids(n) :: Gathering(f.form, SessionKind, gid, gid, true, [gid]),
      map gid | gid in Ids(n) :: f.session)
  }

  lemma OneCreationMore(s: State, n: nat)
    requires TablesOf(s) == Crowd(n) && s.nextId == n + 1
    ensures Allowed(s, Runs.Creating(n + 1, 4, 1))
    ensures
      var t := Next(s, Runs.Creating(n + 1, 4, 1));
      TablesOf(t) == Crowd(n + 1) && t.nextId == n + 2
  {
    assert Spec.SessionRowsOf(s, n + 1) == {} by {
      IdsUpTo(n);
    }
    Runs.CreationStep(s, n + 1, 4);
    CrowdGrows(n);
  }

  lemma CrowdGrows(n: nat)
    ensures
      var f := Spec.ToSessionForm(Runs.Asking(4));
      && Crowd(n + 1).gatherings
         == Crowd(n).gatherings[n + 1 := Gathering(f.form, SessionKind, n + 1, n + 1, true, [n + 1])]
      && Crowd(n + 1).sessions == Crowd(n).sessions[n + 1 := f.session]
  {
    IdsUpTo(n);
    IdsUpTo(n + 1);
  }

  /** The server gets there: the players create their sessions one after the other. */
  lemma {:induction false} CrowdIsServed(n: nat) returns (steps: seq<Step>)
    ensures Serves(EMPTY, steps) && TablesOf(Served(EMPTY, steps)) == Crowd(n) && Served(EMPTY, steps).nextId == n + 1
  {
    if n == 0 {
      steps := [];
      assert TablesOf(EMPTY) == Crowd(0);
    } else {
      steps := CrowdIsServed(n - 1);
      OneCreationMore(Served(EMPTY, steps), n - 1);
      OneMoreStep(EMPTY, steps, Runs.Creating(n, 4, 1));
      steps := steps + [Runs.Creating(n, 4, 1)];
    }
  }

  /** A page of any listing of its rows is a possible contribution of a criterion without an order. */
  lemma UnorderedContributes(
    db: Database, c: Criterion, range: Range, source: Option<nat>, found: nat, rows: set<Gid>, full: seq<Gid>, page: seq<Gid>)
    requires c.selection.SelectRandom? && WellFormedCriterion(c) && rows == AcceptedRows(db, c)
    requires IsOrdering(db, rows, AnyOrder, full) && page == Window(full, LimitFor(c, range, found), OffsetFor(c, range))
    ensures Contributes(db, c, range, source, found, Scanned(db, page))
  {
    assert IsPage(db, AcceptedRows(db, c), AnyOrder, LimitFor(c, range, found), OffsetFor(c, range), page);
    assert OrderFits(c, source, AnyOrder);
  }

  lemma {:induction false} PeopledAreScanned(db: Database, rows: seq<Gid>)
    requires forall gid :: gid in rows ==> gid in db.gatherings && db.gatherings[gid].participants != []
    ensures Scanned(db, rows) == rows
    decreases |rows|
  {
    if rows != [] {
      var init, last := rows[..|rows| - 1], rows[|rows| - 1];
      assert rows == init + [last];
      PeopledAreScanned(db, init);
    }
  }

  lemma AnythingAccepts(c: Criterion, g: Gathering, session: Session)
    requires c == ANYTHING.(range := c.range)
    ensures WellFormedCriterion(c)
    ensures Accepts(c, g, session) <==> g.registered && g.kind == SessionKind && session.referGid == 0 && session.codeword == ""
  {
  }

  lemma CrowdIsAccepted(n: nat, c: Criterion)
    requires c == ANYTHING.(range := c.range)
    ensures WellFormedCriterion(c) && AcceptedRows(Crowd(n), c) == set gid | gid in Ids(n)
  {
    forall g, session
      ensures WellFormedCriterion(c)
      ensures Accepts(c, g, session)
         <==> g.registered && g.kind == SessionKind && session.referGid == 0 && session.codeword == ""
    {
      AnythingAccepts(c, g, session);
    }
  }

  /** A table that is large enough fills every page. */
  lemma CrowdFillsPages(n: nat, c: Criterion, range: Range, found: nat) returns (part: seq<Gid>)
    requires c == ANYTHING.(range := c.range)
    ensures Contributes(Crowd(n), c, range, None, found, part)
    ensures
      var limit, offset := LimitFor(c, range, found), OffsetFor(c, range);
      offset <= n ==> |part| == if limit <= n - offset then limit else n - offset
  {
    var full, rows := Ids(n), set gid | gid in Ids(n);
    IdsUpTo(n);
    CrowdIsAccepted(n, c);
    part := Window(full, LimitFor(c, range, found), OffsetFor(c, range));
    assert IsOrdering(Crowd(n), rows, AnyOrder, full);
    WindowIsInside(full, LimitFor(c, range, found), OffsetFor(c, range));
    CrowdIsScanned(n, part);
    UnorderedContributes(Crowd(n), c, range, None, found, rows, full, part);
  }

  lemma CrowdIsScanned(n: nat, page: seq<Gid>)
    requires forall gid :: gid in page ==> gid in Ids(n)
    ensures Scanned(Crowd(n), page) == page
  {
    PeopledAreScanned(Crowd(n), page);
  }

  lemma WindowIsInside<T>(xs: seq<T>, limit: nat, offset: nat)
    ensures forall x :: x in Window(xs, limit, offset) ==> x in xs
    ensures offset <= |xs| ==> |Window(xs, limit, offset)| == if limit <= |xs| - offset then limit else |xs| - offset
  {
  }

  /** Large enough for every page of these ranges. */
  predicate LargeEnough(n: nat, ranges: seq<Range>, range: Range) {
    && range.offset + range.length <= n
    && forall i :: 0 <= i < |ranges| ==> ranges[i].offset + ranges[i].length <= n
  }

  /** What a table that is large enough gives: each range of its own in full, and what is left to the others. */
  predicate IsFullTotal(ranges: seq<Range>, length: nat, total: nat) {
    if FitTogether(ranges, length) then total == if AllOwn(ranges) then OwnTotal(ranges) else length
    else total > length
  }

  lemma FullTotalOneMore(ranges: seq<Range>, last: Range, length: nat, total: nat, page: nat)
    requires IsFullTotal(ranges, length, total)
    requires if last.length != 0 then page == last.length else total <= length ==> page == length - total
    ensures IsFullTotal(ranges + [last], length, total + page)
  {
    FitsOneMore(ranges, last, length);
  }

  /** One query more on such a table. */
  lemma FullPage(n: nat, last: Range, range: Range, found: nat) returns (part: seq<Gid>)
    requires range.length < UINT32_SIZE && LargeEnough(n, [last], range)
    ensures Contributes(Crowd(n), ANYTHING.(range := last), range, None, found, part)
    ensures if last.length != 0 then |part| == last.length else found <= range.length ==> |part| == range.length - found
  {
    assert [last][0] == last;
    part := CrowdFillsPages(n, ANYTHING.(range := last), range, found);
    if last.length == 0 && found <= range.length {
      LimitWrapsIff(range.length, found);
    }
  }

  /** A run with criteria that accept anything, on a table that is large enough, and all that it gives. */
  ghost predicate IsFullRun(
    ranges: seq<Range>, range: Range, n: nat, criteria: seq<Criterion>, parts: seq<seq<Gid>>)
  {
    && RangesOf(criteria) == ranges && Collects(Crowd(n), criteria, range, None, parts)
    && IsFullTotal(ranges, range.length, |Flatten(parts)|)
  }

  lemma FullRunOneMore(
    ranges: seq<Range>, last: Range, range: Range, n: nat, criteria: seq<Criterion>, parts: seq<seq<Gid>>)
    returns (criteria': seq<Criterion>, parts': seq<seq<Gid>>)
    requires IsFullRun(ranges, range, n, criteria, parts)
    requires range.length < UINT32_SIZE && LargeEnough(n, [last], range)
    ensures IsFullRun(ranges + [last], range, n, criteria', parts')
  {
    var part := FullPage(n, last, range, |Flatten(parts)|);
    FullTotalOneMore(ranges, last, range.length, |Flatten(parts)|, |part|);
    criteria', parts' := OneQueryMore(Crowd(n), criteria, range, None, parts, ANYTHING.(range := last), part);
  }

  lemma {:induction false} FullRun(ranges: seq<Range>, range: Range, n: nat)
    returns (criteria: seq<Criterion>, parts: seq<seq<Gid>>)
    requires range.length < UINT32_SIZE && LargeEnough(n, ranges, range)
    ensures IsFullRun(ranges, range, n, criteria, parts)
    decreases |ranges|
  {
    if ranges == [] {
      criteria, parts := [], [];
    } else {
      var init, last := ranges[..|ranges| - 1], ranges[|ranges| - 1];
      criteria, parts := FullRun(init, range, n);
      criteria, parts := FullRunOneMore(init, last, range, n, criteria, parts);
      assert ranges == init + [last];
    }
  }

  lemma OneQueryMore(
    db: Database, criteria: seq<Criterion>, range: Range, source: Option<nat>, parts: seq<seq<Gid>>, c: Criterion,
    part: seq<Gid>)
    returns (criteria': seq<Criterion>, parts': seq<seq<Gid>>)
    requires Collects(db, criteria, range, source, parts)
    requires Contributes(db, c, range, source, |Flatten(parts)|, part)
    ensures Collects(db, criteria', range, source, parts') && RangesOf(criteria') == RangesOf(criteria) + [c.range]
    ensures |Flatten(parts')| == |Flatten(parts)| + |part|
  {
    CollectsAppend(db, criteria, range, source, parts, c, part);
    criteria', parts' := criteria + [c], parts + [part];
  }

  /** The total stays within the requested length, for every table and every criteria with these ranges. */
  ghost predicate KeepsTheBound(ranges: seq<Range>, range: Range) {
    forall db, criteria, source, parts ::
      RangesOf(criteria) == ranges && Collects(db, criteria, range, source, parts) ==> |Flatten(parts)| <= range.length
  }

  /** The same for the tables that the server can reach. */
  ghost predicate KeepsTheBoundWhenServed(ranges: seq<Range>, range: Range) {
    forall steps, criteria, source, parts ::
      Serves(EMPTY, steps) && RangesOf(criteria) == ranges
      && Collects(TablesOf(Served(EMPTY, steps)), criteria, range, source, parts) ==>
        |Flatten(parts)| <= range.length
  }

  /** Exactly when the shared limit bounds the total: ranges of their own come first, and fit into it together. */
  lemma SharedBoundIff(ranges: seq<Range>, range: Range)
    requires range.length < UINT32_SIZE
    ensures KeepsTheBound(ranges, range) <==> FitTogether(ranges, range.length)
    ensures KeepsTheBoundWhenServed(ranges, range) <==> FitTogether(ranges, range.length)
  {
    if FitTogether(ranges, range.length) {
      forall db, criteria, source, parts | RangesOf(criteria) == ranges && Collects(db, criteria, range, source, parts)
        ensures |Flatten(parts)| <= range.length
      {
        FittingRangesKeepTheBound(db, criteria, range, source, parts);
      }
    } else {
      var n := EnoughFor(ranges, range);
      var steps := CrowdIsServed(n);
      var criteria, parts := FullRun(ranges, range, n);
      assert Collects(TablesOf(Served(EMPTY, steps)), criteria, range, None, parts);
    }
  }

  lemma {:induction false} EnoughFor(ranges: seq<Range>, range: Range) returns (n: nat)
    ensures LargeEnough(n, ranges, range)
    decreases |ranges|
  {
    if ranges == [] {
      n := range.offset + range.length;
    } else {
      var last := ranges[|ranges| - 1];
      n := EnoughFor(ranges[..|ranges| - 1], range);
      n := n + last.offset + last.length;
    }
  }

  /**
   The smallest input: two players have created a session each; a range of its own lets a criterion exceed the
   request, and then the next LIMIT wraps.
   */
  lemma OwnRangeBreaksTheBound() returns (steps: seq<Step>, criteria: seq<Criterion>, parts: seq<seq<Gid>>)
    ensures Serves(EMPTY, steps) && TablesOf(Served(EMPTY, steps)) == Crowd(2)
    ensures |criteria| == 2 && Collects(Crowd(2), criteria, Range(0, 1), None, parts)
    ensures LimitFor(criteria[1], Range(0, 1), |Flatten(parts[..1])|) == UINT32_SIZE - 1
    ensures |Flatten(parts)| == 4
  {
    steps := CrowdIsServed(2);
    var own, range := ANYTHING.(range := Range(0, 2)), Range(0, 1);
    var first := CrowdFillsPages(2, own, range, 0);
    var second := CrowdFillsPages(2, ANYTHING, range, 2);
    CollectsAppend(Crowd(2), [], range, None, [], own, first);
    var one: seq<seq<Gid>> := [] + [first];
    assert Flatten(one) == first;
    CollectsAppend(Crowd(2), [] + [own], range, None, one, ANYTHING, second);
    criteria, parts := [] + [own] + [ANYTHING], one + [second];
    assert parts[..1] == one;
  }
}
