/**
 Searching for sessions: criteria given as strings are compiled to queries, the queries are answered by the
 tables, and the answers are collected under one shared limit.
 */
module SearchCriteria {
  import opened ParticipantLists
  import opened Tables
  import opened Decimals

  const UINT16_BOUND: nat := 0x1_0000

  datatype Selection = SelectRandom | NearestNeighbor | BroadenRange | ProgressScore | BroadenRangeWithProgressScore | OtherSelection

  datatype Range = Range(offset: nat, length: nat)

  datatype Criterion = Criterion(
    attribs: seq<string>, maxParticipants: string, minParticipants: string, gameMode: string, systemType: string,
    vacantOnly: bool, vacantParticipants: UInt16,
    excludeLocked: bool, excludeNonHostPID: bool, excludeUserPasswordSet: bool, excludeSystemPasswordSet: bool,
    referGid: nat, codeword: string, selection: Selection, range: Range)

  // ---------------------------------------------------------------- a criterion, read directly

  /** What one filter part says about a value: nothing, "equal to", or "between", as its text has it. */
  ghost predicate Admits(part: string, bound: nat, v: nat) {
    || part == ""
    || Denotes(part, v, bound)
    || exists before: string, after: string, lo: nat, hi: nat ::
         IsInterval(part, bound, before, after, lo, hi) && lo <= v <= hi
  }

  ghost predicate IsInterval(part: string, bound: nat, before: string, after: string, lo: nat, hi: nat) {
    part == before + "," + after && ',' !in before && Denotes(before, lo, bound) && Denotes(after, hi, bound)
  }

  ghost predicate WellFormed(part: string, bound: nat) {
    || part == ""
    || (exists v: nat :: Denotes(part, v, bound))
    || exists before: string, after: string, lo: nat, hi: nat :: IsInterval(part, bound, before, after, lo, hi)
  }

  /** Attribute 1 steers the selection method and is not a filter. */
  ghost predicate WellFormedCriterion(c: Criterion) {
    && (forall i :: 0 <= i < |c.attribs| && i != 1 ==> WellFormed(c.attribs[i], UINT32_SIZE))
    && WellFormed(c.maxParticipants, UINT16_BOUND)
    && WellFormed(c.minParticipants, UINT16_BOUND)
    && WellFormed(c.gameMode, UINT32_SIZE)
    && WellFormed(c.systemType, UINT32_SIZE)
  }

  predicate PassesExclusions(c: Criterion, g: Gathering, session: Session) {
    && g.registered && g.kind == SessionKind
    && session.referGid == c.referGid && session.codeword == c.codeword
    && |session.attribs| == |c.attribs|
    && (c.excludeLocked ==> session.openParticipation)
    && (c.excludeNonHostPID ==> g.host != 0)
    && (c.excludeUserPasswordSet ==> !session.userPasswordEnabled)
    && (c.excludeSystemPasswordSet ==> !session.systemPasswordEnabled)
  }

  ghost predicate Accepts(c: Criterion, g: Gathering, session: Session) {
    && PassesExclusions(c, g, session)
    && (forall i :: 0 <= i < |c.attribs| && i != 1 ==> Admits(c.attribs[i], UINT32_SIZE, session.attribs[i]))
    && Admits(c.maxParticipants, UINT16_BOUND, g.form.maxParticipants)
    && Admits(c.minParticipants, UINT16_BOUND, g.form.minParticipants)
    && Admits(c.gameMode, UINT32_SIZE, session.gameMode)
    && Admits(c.systemType, UINT32_SIZE, session.systemType)
    && (c.vacantOnly ==>
          g.participants != []
          && |g.participants| + (if c.vacantParticipants == 0 then 1 else c.vacantParticipants) <= g.form.maxParticipants)
  }

  // ---------------------------------------------------------------- queries

  datatype Column = Attrib(index: nat) | MaxColumn | MinColumn | GameModeColumn | SystemTypeColumn

  datatype Clause =
    | Between(column: Column, lo: nat, hi: nat)
    | Equals(column: Column, v: nat)
    | RoomFor(n: nat)

  datatype Order = AnyOrder | ByAttribute(a: nat) | ByScore(score: nat) | ByAttributeAndScore(a: nat, score: nat)

  datatype Query = Query(criterion: Criterion, clauses: seq<Clause>, order: Order, limit: nat, offset: nat)

  /** SQL counts array elements from 1, and an element that is not there is NULL. */
  function ColumnValue(column: Column, g: Gathering, session: Session): Option<nat> {
    match column
    case Attrib(i) => if 1 <= i <= |session.attribs| then Some(session.attribs[i - 1]) else None
    case MaxColumn => Some(g.form.maxParticipants)
    case MinColumn => Some(g.form.minParticipants)
    case GameModeColumn => Some(session.gameMode)
    case SystemTypeColumn => Some(session.systemType)
  }

  predicate Holds(clause: Clause, g: Gathering, session: Session) {
    match clause
    case Between(column, lo, hi) =>
      var v := ColumnValue(column, g, session);
      v.Some? && lo <= v.value <= hi
    case Equals(column, n) => ColumnValue(column, g, session) == Some(n)
    case RoomFor(n) => g.participants != [] && |g.participants| + n <= g.form.maxParticipants
  }

  predicate Selects(q: Query, g: Gathering, session: Session) {
    && PassesExclusions(q.criterion, g, session)
    && HoldAll(q.clauses, g, session)
  }

  function Abs(x: int): nat { if x < 0 then -x else x }

  function SortKey(order: Order, session: Session): nat {
    match order
    case AnyOrder => 0
    case ByAttribute(a) => Abs(a - session.attribs[1])
    case ByScore(p) => Abs(p - session.progressScore)
    case ByAttributeAndScore(a, p) => Abs(a - session.attribs[1] + p - session.progressScore)
  }

  datatype Database = Database(gatherings: map<Gid, Gathering>, sessions: map<Gid, Session>)

  function KeyOf(db: Database, order: Order, gid: Gid): nat {
    if gid in db.sessions then SortKey(order, db.sessions[gid]) else 0
  }

  function Matching(db: Database, q: Query): set<Gid> {
    set gid | gid in db.gatherings && gid in db.sessions && Selects(q, db.gatherings[gid], db.sessions[gid])
  }

  /** All of `rows`, each once, in an order that respects ORDER BY. */
  ghost predicate IsOrdering(db: Database, rows: set<Gid>, order: Order, full: seq<Gid>) {
    && (forall gid :: gid in full <==> gid in rows)
    && NoRepeats(full)
    && (forall i, j :: 0 <= i < j < |full| ==> KeyOf(db, order, full[i]) <= KeyOf(db, order, full[j]))
  }

  function Window<T>(xs: seq<T>, limit: nat, offset: nat): (r: seq<T>)
    ensures |r| <= limit
  {
    if offset >= |xs| then [] else if limit <= |xs| - offset then xs[offset..offset + limit] else xs[offset..]
  }

  /** One page of `rows`. */
  ghost predicate IsPage(db: Database, rows: set<Gid>, order: Order, limit: nat, offset: nat, page: seq<Gid>) {
    exists full: seq<Gid> :: IsOrdering(db, rows, order, full) && page == Window(full, limit, offset)
  }

  /** The database's side: rows in any order that ORDER BY allows. */
  method Execute(db: Database, q: Query) returns (answer: seq<Gid>)
    ensures IsPage(db, Matching(db, q), q.order, q.limit, q.offset, answer)
    ensures |answer| <= q.limit
    ensures forall gid :: gid in answer ==> gid in Matching(db, q)
  {
    var todo := Matching(db, q);
    var full: seq<Gid> := [];
    while todo != {}
      invariant todo <= Matching(db, q)
      invariant forall gid :: gid in full <==> gid in Matching(db, q) && gid !in todo
      invariant forall i, j :: 0 <= i < j < |full| ==> full[i] != full[j]
      invariant forall i, j :: 0 <= i < j < |full| ==>
                  KeyOf(db, q.order, full[i]) <= KeyOf(db, q.order, full[j])
      invariant forall i, gid :: 0 <= i < |full| && gid in todo ==>
                  KeyOf(db, q.order, full[i]) <= KeyOf(db, q.order, gid)
      decreases |todo|
    {
      var next := Nearest(db, q.order, todo);
      todo := todo - {next};
      full := full + [next];
    }
    assert IsOrdering(db, Matching(db, q), q.order, full);
    answer := Window(full, q.limit, q.offset);
  }

  method Nearest(db: Database, order: Order, todo: set<Gid>) returns (best: Gid)
    requires todo != {}
    ensures best in todo
    ensures forall gid :: gid in todo ==> KeyOf(db, order, best) <= KeyOf(db, order, gid)
  {
    best :| best in todo;
    var rest := todo - {best};
    while rest != {}
      invariant best in todo && rest <= todo
      invariant forall gid :: gid in todo - rest ==> KeyOf(db, order, best) <= KeyOf(db, order, gid)
      decreases |rest|
    {
      var gid :| gid in rest;
      rest := rest - {gid};
      if KeyOf(db, order, gid) < KeyOf(db, order, best) {
        best := gid;
      }
    }
  }

  // ---------------------------------------------------------------- compilation

  predicate HoldAll(clauses: seq<Clause>, g: Gathering, session: Session) {
    forall clause :: clause in clauses ==> Holds(clause, g, session)
  }

  ghost predicate AdmitsColumn(part: string, bound: nat, column: Column, g: Gathering, session: Session) {
    var v := ColumnValue(column, g, session);
    part == "" || (v.Some? && Admits(part, bound, v.value))
  }

  /** The clauses one part compiles to; None stands for a malformed part. */
  method CompilePart(part: string, bound: nat, column: Column) returns (r: Option<seq<Clause>>)
    requires 10 <= bound
    ensures r.Some? <==> WellFormed(part, bound)
    ensures r.Some? ==> forall g, session :: HoldAll(r.value, g, session) <==> AdmitsColumn(part, bound, column, g, session)
  {
    if part == "" {
      return Some([]);
    }
    var comma := FirstComma(part);
    if comma < |part| {
      var before, after := part[..comma], part[comma + 1..];
      assert part == before + "," + after;
      NotANumeral(part, comma, bound);
      IntervalIsTheCut(part, bound);
      var min := ParseUint(before, bound);
      if min.None? {
        return None;
      }
      var max := ParseUint(after, bound);
      if max.None? {
        return None;
      }
      IntervalMeaning(part, bound, before, after, min.value, max.value);
      var clause := Between(column, min.value, max.value);
      HoldAllOfOne(clause);
      return Some([clause]);
    } else {
      NoInterval(part, bound);
      var value := ParseUint(part, bound);
      if value.None? {
        return None;
      }
      var clause := Equals(column, value.value);
      HoldAllOfOne(clause);
      return Some([clause]);
    }
  }

  lemma HoldAllOfOne(clause: Clause)
    ensures forall g, session :: HoldAll([clause], g, session) <==> Holds(clause, g, session)
  {
    assert clause in [clause];
  }

  lemma NotANumeral(part: string, comma: nat, bound: nat)
    requires comma < |part| && part[comma] == ','
    ensures forall v :: !Denotes(part, v, bound)
  {
  }

  lemma IntervalIsTheCut(part: string, bound: nat)
    ensures forall before, after, lo, hi :: IsInterval(part, bound, before, after, lo, hi) ==>
              FirstComma(part) == |before| && before == part[..FirstComma(part)] && after == part[FirstComma(part) + 1..]
  {
    forall before, after, lo, hi | IsInterval(part, bound, before, after, lo, hi)
      ensures FirstComma(part) == |before| && before == part[..FirstComma(part)] && after == part[FirstComma(part) + 1..]
    {
      CutIsUnique(part, before, after);
    }
  }

  /** A numeral denotes one number, so an interval part admits exactly one interval. */
  lemma IntervalMeaning(part: string, bound: nat, before: string, after: string, lo: nat, hi: nat)
    requires IsInterval(part, bound, before, after, lo, hi)
    ensures WellFormed(part, bound)
    ensures forall v: nat :: Admits(part, bound, v) <==> lo <= v <= hi
  {
    IntervalIsTheCut(part, bound);
    assert part[|before|] == ',';
    NotANumeral(part, |before|, bound);
  }

  lemma NoInterval(part: string, bound: nat)
    requires FirstComma(part) == |part|
    ensures forall before, after, lo, hi :: !IsInterval(part, bound, before, after, lo, hi)
  {
    IntervalIsTheCut(part, bound);
  }

  // ---------------------------------------------------------------- one criterion

  datatype Compilation = Skipped | OutOfRange | Compiled(clauses: seq<Clause>, order: Order)

  /** These selection methods need the caller's own session, which only auto-matchmaking has. */
  predicate NeedsSource(c: Criterion) {
    c.selection.ProgressScore? || c.selection.BroadenRangeWithProgressScore?
  }

  /** These selection methods read attribute 1, whether or not the criterion has one. */
  predicate ReadsAttribute1(c: Criterion) {
    c.selection.NearestNeighbor? || c.selection.BroadenRange? || c.selection.BroadenRangeWithProgressScore?
  }

  ghost predicate Skips(c: Criterion, source: Option<nat>) {
    !WellFormedCriterion(c) || (NeedsSource(c) && source.None?)
  }

  ghost predicate IndexFails(c: Criterion, source: Option<nat>) {
    !Skips(c, source) && ReadsAttribute1(c) && |c.attribs| < 2
  }

  /** Attribute 1 as a number; what is not a numeral counts as 0. */
  ghost predicate Steers(part: string, a: nat) {
    Denotes(part, a, UINT32_SIZE) || (a == 0 && forall n: nat :: !Denotes(part, n, UINT32_SIZE))
  }

  ghost predicate OrderFits(c: Criterion, source: Option<nat>, order: Order) {
    match c.selection
    case SelectRandom => order == AnyOrder
    case OtherSelection => order == AnyOrder
    case NearestNeighbor => |c.attribs| >= 2 && order.ByAttribute? && Steers(c.attribs[1], order.a)
    case BroadenRange => |c.attribs| >= 2 && order.ByAttribute? && Steers(c.attribs[1], order.a)
    case ProgressScore => source.Some? && order == ByScore(source.value)
    case BroadenRangeWithProgressScore =>
      |c.attribs| >= 2 && source.Some?
      && if c.attribs[1] == "" then order == AnyOrder
         else order.ByAttributeAndScore? && Steers(c.attribs[1], order.a) && order.score == source.value
  }

  method ReadAttribute1(c: Criterion) returns (a: nat)
    requires |c.attribs| >= 2
    ensures Steers(c.attribs[1], a)
  {
    var parsed := ParseUint(c.attribs[1], UINT32_SIZE);
    match parsed
    case Some(n) => a := n;
    case None => a := 0;
  }

  ghost predicate AdmitsAttribs(c: Criterion, n: nat, g: Gathering, session: Session) {
    forall i :: 0 <= i < n <= |c.attribs| && i != 1 ==> AdmitsColumn(c.attribs[i], UINT32_SIZE, Attrib(i + 1), g, session)
  }

  lemma HoldAllOfBoth(a: seq<Clause>, b: seq<Clause>)
    ensures forall g, session :: HoldAll(a + b, g, session) <==> HoldAll(a, g, session) && HoldAll(b, g, session)
  {
    forall g, session
      ensures HoldAll(a + b, g, session) <==> HoldAll(a, g, session) && HoldAll(b, g, session)
    {
      assert forall clause :: clause in a + b <==> clause in a || clause in b;
    }
  }

  /** The attribute loop: None when some attribute other than number 1 is malformed. */
  method CompileAttribs(c: Criterion) returns (r: Option<seq<Clause>>)
    ensures r.Some? <==> forall i :: 0 <= i < |c.attribs| && i != 1 ==> WellFormed(c.attribs[i], UINT32_SIZE)
    ensures r.Some? ==> forall g, session :: HoldAll(r.value, g, session) <==> AdmitsAttribs(c, |c.attribs|, g, session)
  {
    var clauses: seq<Clause> := [];
    for i := 0 to |c.attribs|
      invariant forall j :: 0 <= j < i && j != 1 ==> WellFormed(c.attribs[j], UINT32_SIZE)
      invariant forall g, session :: HoldAll(clauses, g, session) <==> AdmitsAttribs(c, i, g, session)
    {
      if i != 1 {
        var part := CompilePart(c.attribs[i], UINT32_SIZE, Attrib(i + 1));
        if part.None? {
          return None;
        }
        HoldAllOfBoth(clauses, part.value);
        clauses := clauses + part.value;
      }
    }
    return Some(clauses);
  }

  /** The clauses of one criterion, or the reason why it has none. */
  method CompileFilters(c: Criterion) returns (r: Option<seq<Clause>>)
    ensures r.Some? <==> WellFormedCriterion(c)
    ensures r.Some? ==> forall g, session ::
              PassesExclusions(c, g, session) ==> (HoldAll(r.value, g, session) <==> Accepts(c, g, session))
  {
    var attribs := CompileAttribs(c);
    if attribs.None? {
      return None;
    }
    var max := CompilePart(c.maxParticipants, UINT16_BOUND, MaxColumn);
    if max.None? {
      return None;
    }
    var min := CompilePart(c.minParticipants, UINT16_BOUND, MinColumn);
    if min.None? {
      return None;
    }
    var gameMode := CompilePart(c.gameMode, UINT32_SIZE, GameModeColumn);
    if gameMode.None? {
      return None;
    }
    var systemType := CompilePart(c.systemType, UINT32_SIZE, SystemTypeColumn);
    if systemType.None? {
      return None;
    }
    var vacancy: seq<Clause> := [];
    if c.vacantOnly {
      var room := RoomFor(if c.vacantParticipants == 0 then 1 else c.vacantParticipants);
      HoldAllOfOne(room);
      vacancy := [room];
    }
    HoldAllOfBoth(attribs.value, max.value);
    HoldAllOfBoth(attribs.value + max.value, min.value);
    HoldAllOfBoth(attribs.value + max.value + min.value, gameMode.value);
    HoldAllOfBoth(attribs.value + max.value + min.value + gameMode.value, systemType.value);
    HoldAllOfBoth(attribs.value + max.value + min.value + gameMode.value + systemType.value, vacancy);
    return Some(attribs.value + max.value + min.value + gameMode.value + systemType.value + vacancy);
  }

  /**
   Compilation preserves meaning: the query selects the sessions that the criterion, read directly, accepts; and a
   criterion contributes nothing exactly when a part is malformed or its selection method lacks its source.
   */
  method CompileCriterion(c: Criterion, source: Option<nat>) returns (r: Compilation)
    ensures r.Skipped? <==> Skips(c, source)
    ensures r.OutOfRange? <==> IndexFails(c, source)
    ensures r.Compiled? ==> OrderFits(c, source, r.order)
    ensures r.Compiled? ==> forall g, session ::
              PassesExclusions(c, g, session) && HoldAll(r.clauses, g, session) <==> Accepts(c, g, session)
  {
    var filters := CompileFilters(c);
    if filters.None? {
      return Skipped;
    }
    var order := AnyOrder;
    match c.selection {
      case SelectRandom =>
      case NearestNeighbor =>
        if |c.attribs| < 2 {
          return OutOfRange;
        }
        var a := ReadAttribute1(c);
        order := ByAttribute(a);
      case BroadenRange =>
        if |c.attribs| < 2 {
          return OutOfRange;
        }
        var a := ReadAttribute1(c);
        order := ByAttribute(a);
      case ProgressScore =>
        if source.None? {
          return Skipped;
        }
        order := ByScore(source.value);
      case BroadenRangeWithProgressScore =>
        if source.None? {
          return Skipped;
        }
        if |c.attribs| < 2 {
          return OutOfRange;
        }
        if c.attribs[1] != "" {
          var a := ReadAttribute1(c);
          order := ByAttributeAndScore(a, source.value);
        }
      case OtherSelection =>
    }
    return Compiled(filters.value, order);
  }

  // ---------------------------------------------------------------- all criteria

  ghost function AcceptedRows(db: Database, c: Criterion): set<Gid> {
    set gid | gid in db.gatherings && gid in db.sessions && Accepts(c, db.gatherings[gid], db.sessions[gid])
  }

  /** The shared limit of a query, computed in uint32 from what the queries before it have returned. */
  function RemainingLimit(length: nat, found: nat): nat {
    (length - found) % UINT32_SIZE
  }

  function LimitFor(c: Criterion, range: Range, found: nat): nat {
    if c.range.length != 0 then c.range.length else RemainingLimit(range.length, found)
  }

  function OffsetFor(c: Criterion, range: Range): nat {
    if c.range.length != 0 then c.range.offset
    else if range.offset == UINT32_SIZE - 1 then 0
    else range.offset
  }

  /** A row whose participant list is empty has a NULL count and is dropped when it is scanned. */
  function Scanned(db: Database, rows: seq<Gid>): (r: seq<Gid>)
    ensures |r| <= |rows|
    ensures forall gid :: gid in r <==> gid in rows && gid in db.gatherings && db.gatherings[gid].participants != []
  {
    if rows == [] then []
    else
      var last := rows[|rows| - 1];
      Scanned(db, rows[..|rows| - 1])
      + if last in db.gatherings && db.gatherings[last].participants != [] then [last] else []
  }

  /** What criterion `c` adds when `found` sessions have been found already. */
  ghost predicate Contributes(
    db: Database, c: Criterion, range: Range, source: Option<nat>, found: nat, part: seq<Gid>)
  {
    if Skips(c, source) then part == []
    else
      exists order, page ::
        OrderFits(c, source, order)
        && IsPage(db, AcceptedRows(db, c), order, LimitFor(c, range, found), OffsetFor(c, range), page)
        && part == Scanned(db, page)
  }

  function Flatten(parts: seq<seq<Gid>>): seq<Gid> {
    if parts == [] then [] else Flatten(parts[..|parts| - 1]) + parts[|parts| - 1]
  }

  /** Each criterion in turn adds its part to what the ones before it have found. */
  ghost predicate Collects(
    db: Database, criteria: seq<Criterion>, range: Range, source: Option<nat>, parts: seq<seq<Gid>>)
    decreases |criteria|
  {
    && |parts| == |criteria|
    && (criteria != [] ==>
          var n := |criteria| - 1;
          && Collects(db, criteria[..n], range, source, parts[..n])
          && Contributes(db, criteria[n], range, source, |Flatten(parts[..n])|, parts[n]))
  }

  lemma CollectsAppend(
    db: Database, criteria: seq<Criterion>, range: Range, source: Option<nat>, parts: seq<seq<Gid>>,
    c: Criterion, part: seq<Gid>)
    requires Collects(db, criteria, range, source, parts)
    requires Contributes(db, c, range, source, |Flatten(parts)|, part)
    ensures Collects(db, criteria + [c], range, source, parts + [part])
    ensures Flatten(parts + [part]) == Flatten(parts) + part
  {
    assert (parts + [part])[..|parts|] == parts && (criteria + [c])[..|criteria|] == criteria;
  }

  /** The row loop. */
  method ScanRows(db: Database, rows: seq<Gid>) returns (scanned: seq<Gid>)
    ensures scanned == Scanned(db, rows)
  {
    scanned := [];
    for i := 0 to |rows|
      invariant scanned == Scanned(db, rows[..i])
    {
      assert rows[..i + 1][..i] == rows[..i];
      if rows[i] in db.gatherings && db.gatherings[rows[i]].participants != [] {
        scanned := scanned + [rows[i]];
      }
    }
    assert rows[..|rows|] == rows;
  }

  /** One pass of the criteria loop: the sessions to append, or None for an index out of range. */
  method SearchByCriterion(db: Database, c: Criterion, range: Range, source: Option<nat>, found: nat)
    returns (part: Option<seq<Gid>>)
    ensures part.None? <==> IndexFails(c, source)
    ensures part.Some? ==> Contributes(db, c, range, source, found, part.value)
  {
    var compiled := CompileCriterion(c, source);
    match compiled {
      case OutOfRange =>
        return None;
      case Skipped =>
        return Some([]);
      case Compiled(clauses, order) =>
        var q := Query(c, clauses, order, LimitFor(c, range, found), OffsetFor(c, range));
        assert Matching(db, q) == AcceptedRows(db, c) by {
          assert forall g, session :: Selects(q, g, session) <==> Accepts(c, g, session);
        }
        var rows := Execute(db, q);
        var scanned := ScanRows(db, rows);
        return Some(scanned);
    }
  }

  ghost predicate AnyIndexFails(criteria: seq<Criterion>, source: Option<nat>) {
    exists c :: c in criteria && IndexFails(c, source)
  }

  /** None: a selection method reads attribute 1 of a criterion that has none, an index out of range. */
  method FindMatchmakeSessionBySearchCriteria(
    db: Database, criteria: seq<Criterion>, range: Range, source: Option<nat>)
    returns (results: Option<seq<Gid>>, ghost parts: seq<seq<Gid>>)
    ensures results.None? <==> AnyIndexFails(criteria, source)
    ensures results.Some? ==> Collects(db, criteria, range, source, parts) && results.value == Flatten(parts)
  {
    var found: seq<Gid> := [];
    parts := [];
    for k := 0 to |criteria|
      invariant !AnyIndexFails(criteria[..k], source)
      invariant Collects(db, criteria[..k], range, source, parts) && found == Flatten(parts)
    {
      var part := SearchByCriterion(db, criteria[k], range, source, |found|);
      if part.None? {
        assert criteria[k] in criteria;
        return None, parts;
      }
      CollectsAppend(db, criteria[..k], range, source, parts, criteria[k], part.value);
      assert criteria[..k + 1] == criteria[..k] + [criteria[k]];
      parts := parts + [part.value];
      found := found + part.value;
    }
    assert criteria[..|criteria|] == criteria;
    return Some(found), parts;
  }

  // ---------------------------------------------------------------- what a search promises

  /** Every session found is accepted by some criterion and has participants. */
  lemma {:induction false} ResultsAreAccepted(
    db: Database, criteria: seq<Criterion>, range: Range, source: Option<nat>, parts: seq<seq<Gid>>, gid: Gid)
    requires Collects(db, criteria, range, source, parts)
    requires gid in Flatten(parts)
    ensures gid in db.gatherings && gid in db.sessions && db.gatherings[gid].participants != []
    ensures exists c :: c in criteria && Accepts(c, db.gatherings[gid], db.sessions[gid])
    decreases |criteria|
  {
    var n := |criteria| - 1;
    var c := criteria[n];
    if gid in parts[n] {
      assert gid in AcceptedRows(db, c) by {
        PagesStayInside(db, c, range, source, |Flatten(parts[..n])|, parts[n]);
      }
      assert c in criteria;
    } else {
      ResultsAreAccepted(db, criteria[..n], range, source, parts[..n], gid);
    }
  }

  lemma PagesStayInside(
    db: Database, c: Criterion, range: Range, source: Option<nat>, found: nat, part: seq<Gid>)
    requires Contributes(db, c, range, source, found, part)
    ensures |part| <= LimitFor(c, range, found)
    ensures forall gid :: gid in part ==> gid in AcceptedRows(db, c) && db.gatherings[gid].participants != []
  {
  }
}
