/**
 What a search finds and in which order, said column by column. The rules bind the predicates that `MatchmakingSpec` and
 `SearchCriteria` define from outside.
 */
module SearchRules {
  import opened ParticipantLists
  import opened Tables
  import opened Decimals
  import opened SearchCriteria
  import opened SearchFinds
  import Spec = MatchmakingSpec

  function Distance(x: int, y: int): nat {
    if x < y then y - x else x - y
  }

  // ---------------------------------------------------------------- by example

  /** A session that a search by example may answer with, column by column. */
  predicate Suits(s: State, gid: Gid, wanted: SessionForm, friends: seq<Pid>) {
    && gid in s.gatherings && gid in s.sessions
    && var g, row := s.gatherings[gid], s.sessions[gid];
    && g.registered && g.kind == SessionKind && g.host != 0
    && row.openParticipation && !row.userPasswordEnabled && !row.systemPasswordEnabled
    && 0 < |g.participants| < g.form.maxParticipants
    && g.form.maxParticipants == wanted.form.maxParticipants && g.form.minParticipants == wanted.form.minParticipants
    && (g.form.policy == 98 ==> g.owner in friends)
    && IsAlike(row, wanted.session)
  }

  /** Game mode, system type, codeword and all attributes but 1. */
  predicate IsAlike(row: Session, wanted: Session) {
    && row.gameMode == wanted.gameMode && row.systemType == wanted.systemType && row.codeword == wanted.codeword
    && row.attribs[0] == wanted.attribs[0] && row.attribs[2] == wanted.attribs[2] && row.attribs[3] == wanted.attribs[3]
    && row.attribs[4] == wanted.attribs[4] && row.attribs[5] == wanted.attribs[5]
  }

  /** The answer suits and no session that suits is nearer in attribute 1; there is none only if nothing suits. */
  lemma ExampleRule(s: State, wanted: SessionForm, friends: seq<Pid>, found: Option<Gid>)
    requires Spec.IsClosestMatch(s, wanted, friends, found)
    ensures found == None ==> forall gid :: !Suits(s, gid, wanted, friends)
    ensures found.Some? ==>
              Suits(s, found.value, wanted, friends)
              && forall gid :: Suits(s, gid, wanted, friends) ==>
                   Distance(wanted.session.attribs[1], s.sessions[found.value].attribs[1])
                   <= Distance(wanted.session.attribs[1], s.sessions[gid].attribs[1])
  {
    forall gid
      ensures Suits(s, gid, wanted, friends) <==> Spec.FindMatches(s, gid, wanted, friends)
    {
      if gid in s.sessions {
        AttributesAlike(s.sessions[gid].attribs, wanted.session.attribs);
      }
    }
  }

  lemma AttributesAlike(a: Attributes, b: Attributes)
    ensures a[2..] == b[2..] <==> a[2] == b[2] && a[3] == b[3] && a[4] == b[4] && a[5] == b[5]
  {
    if a[2..] == b[2..] {
      assert a[2..][0] == b[2..][0] && a[2..][1] == b[2..][1] && a[2..][2] == b[2..][2] && a[2..][3] == b[2..][3];
    }
  }

  // ---------------------------------------------------------------- by criteria

  /** The sessions a criterion accepts, column by column. */
  lemma AcceptedRule(db: Database, c: Criterion, gid: Gid)
    requires gid in db.gatherings && gid in db.sessions
    ensures
      var g, row := db.gatherings[gid], db.sessions[gid];
      gid in AcceptedRows(db, c)
      <==>
        && g.registered && g.kind == SessionKind
        && row.referGid == c.referGid && row.codeword == c.codeword && |c.attribs| == 6
        && (c.excludeLocked ==> row.openParticipation) && (c.excludeNonHostPID ==> g.host != 0)
        && (c.excludeUserPasswordSet ==> !row.userPasswordEnabled)
        && (c.excludeSystemPasswordSet ==> !row.systemPasswordEnabled)
        && Admits(c.attribs[0], 0x1_0000_0000, row.attribs[0]) && Admits(c.attribs[2], 0x1_0000_0000, row.attribs[2])
        && Admits(c.attribs[3], 0x1_0000_0000, row.attribs[3]) && Admits(c.attribs[4], 0x1_0000_0000, row.attribs[4])
        && Admits(c.attribs[5], 0x1_0000_0000, row.attribs[5])
        && Admits(c.maxParticipants, 0x1_0000, g.form.maxParticipants)
        && Admits(c.minParticipants, 0x1_0000, g.form.minParticipants)
        && Admits(c.gameMode, 0x1_0000_0000, row.gameMode) && Admits(c.systemType, 0x1_0000_0000, row.systemType)
        && (c.vacantOnly ==>
              g.participants != []
              && |g.participants| + (if c.vacantParticipants == 0 then 1 else c.vacantParticipants) <= g.form.maxParticipants)
  {
  }

  /** When a criterion is passed over, and when it makes the search panic. */
  lemma SkipRule(c: Criterion, source: Option<nat>)
    ensures Skips(c, source)
       <==> || (exists i :: 0 <= i < |c.attribs| && i != 1 && !WellFormed(c.attribs[i], 0x1_0000_0000))
            || !WellFormed(c.maxParticipants, 0x1_0000) || !WellFormed(c.minParticipants, 0x1_0000)
            || !WellFormed(c.gameMode, 0x1_0000_0000) || !WellFormed(c.systemType, 0x1_0000_0000)
            || (source == None && (c.selection.ProgressScore? || c.selection.BroadenRangeWithProgressScore?))
    ensures IndexFails(c, source)
       <==> !Skips(c, source) && |c.attribs| < 2
            && (c.selection.NearestNeighbor? || c.selection.BroadenRange? || c.selection.BroadenRangeWithProgressScore?)
  {
  }

  /** What a client writes into a part, and what that admits: anything, one number, or an interval with its ends. */
  lemma PartRule(n: nat, lo: nat, hi: nat, bound: nat, v: nat)
    requires lo < bound && hi < bound
    ensures Admits("", bound, v) && WellFormed("", bound)
    ensures WellFormed(Decimal(n), bound) <==> n < bound
    ensures n < bound ==> (Admits(Decimal(n), bound, v) <==> v == n)
    ensures WellFormed(Decimal(lo) + "," + Decimal(hi), bound)
    ensures Admits(Decimal(lo) + "," + Decimal(hi), bound, v) <==> lo <= v <= hi
  {
    NumeralPart(Decimal(n), n, bound, v);
    NoComma(Decimal(lo));
    IntervalMeaning(Decimal(lo) + "," + Decimal(hi), bound, Decimal(lo), Decimal(hi), lo, hi);
  }

  lemma NoComma(s: string)
    requires AllDigits(s)
    ensures ',' !in s && FirstComma(s) == |s|
  {
    forall i | 0 <= i < |s|
      ensures s[i] != ','
    {
      assert IsDigit(s[i]);
    }
  }

  lemma NumeralPart(s: string, n: nat, bound: nat, v: nat)
    requires s != "" && AllDigits(s) && ValueOf(s) == n
    ensures WellFormed(s, bound) <==> n < bound
    ensures n < bound ==> (Admits(s, bound, v) <==> v == n)
  {
    NoComma(s);
    NoInterval(s, bound);
    assert n < bound ==> Denotes(s, n, bound);
  }

  /** Numerals are read in base ten. */
  lemma NumeralRule()
    ensures AllDigits("4070") && ValueOf("4070") == 4070
  {
    assert "4070"[..3] == "407" && "407"[..2] == "40" && "40"[..1] == "4" && "4"[..0] == "";
  }

  // ---------------------------------------------------------------- order

  /** Rows from `skipped` on, `limit` of them if there are so many. */
  function Slice(full: seq<Gid>, limit: nat, skipped: nat): seq<Gid> {
    if skipped >= |full| then [] else full[skipped..if skipped + limit < |full| then skipped + limit else |full|]
  }

  function Limit(c: Criterion, range: Range, found: nat): nat {
    if c.range.length != 0 then c.range.length else (range.length - found) % 0x1_0000_0000
  }

  function Skipped(c: Criterion, range: Range): nat {
    if c.range.length != 0 then c.range.offset else if range.offset == 0xFFFF_FFFF then 0 else range.offset
  }

  predicate Ascends(db: Database, order: Order, rows: seq<Gid>) {
    forall i, j :: 0 <= i < j < |rows| ==> KeyOf(db, order, rows[i]) <= KeyOf(db, order, rows[j])
  }

  /** A contribution is a slice of all accepted rows in order, without the empty ones. */
  lemma SliceRule(
    db: Database, c: Criterion, range: Range, source: Option<nat>, found: nat, part: seq<Gid>, order: Order)
    returns (full: seq<Gid>)
    requires Contributes(db, c, range, source, found, part) && !Skips(c, source) && OrderFits(c, source, order)
    ensures (forall gid :: gid in full <==> gid in AcceptedRows(db, c)) && NoRepeats(full) && Ascends(db, order, full)
    ensures part == Scanned(db, Slice(full, Limit(c, range, found), Skipped(c, range)))
  {
    var other, page := SomePage(db, c, range, source, found, part);
    OrderIsDetermined(c, source, order, other);
    LimitRule(c, range, found);
    full := PageIsSlice(db, AcceptedRows(db, c), order, Limit(c, range, found), Skipped(c, range), page);
  }

  lemma LimitRule(c: Criterion, range: Range, found: nat)
    ensures LimitFor(c, range, found) == Limit(c, range, found) && OffsetFor(c, range) == Skipped(c, range)
  {
  }

  lemma SomePage(db: Database, c: Criterion, range: Range, source: Option<nat>, found: nat, part: seq<Gid>)
    returns (order: Order, page: seq<Gid>)
    requires Contributes(db, c, range, source, found, part) && !Skips(c, source)
    ensures OrderFits(c, source, order) && part == Scanned(db, page)
    ensures IsPage(db, AcceptedRows(db, c), order, LimitFor(c, range, found), OffsetFor(c, range), page)
  {
    order, page :|
      OrderFits(c, source, order)
      && IsPage(db, AcceptedRows(db, c), order, LimitFor(c, range, found), OffsetFor(c, range), page)
      && part == Scanned(db, page);
  }

  lemma PageIsSlice(db: Database, rows: set<Gid>, order: Order, limit: nat, offset: nat, page: seq<Gid>)
    returns (full: seq<Gid>)
    requires IsPage(db, rows, order, limit, offset, page)
    ensures (forall gid :: gid in full <==> gid in rows) && NoRepeats(full) && Ascends(db, order, full)
    ensures page == Slice(full, limit, offset)
  {
    full :| IsOrdering(db, rows, order, full) && page == Window(full, limit, offset);
    WindowIsSlice(full, limit, offset);
  }

  lemma WindowIsSlice(full: seq<Gid>, limit: nat, offset: nat)
    ensures Window(full, limit, offset) == Slice(full, limit, offset)
  {
  }

  /** Scanning keeps the order. */
  lemma {:induction false} ScannedAscends(db: Database, order: Order, rows: seq<Gid>)
    requires Ascends(db, order, rows)
    ensures Ascends(db, order, Scanned(db, rows))
    decreases |rows|
  {
    if rows != [] {
      var init, last := rows[..|rows| - 1], rows[|rows| - 1];
      ScannedAscends(db, order, init);
      forall i | 0 <= i < |Scanned(db, init)|
        ensures KeyOf(db, order, Scanned(db, init)[i]) <= KeyOf(db, order, last)
      {
        assert Scanned(db, init)[i] in init;
        var k :| 0 <= k < |init| && init[k] == Scanned(db, init)[i];
        assert rows[k] == init[k];
      }
    }
  }

  /** In terms of sort keys: contributions ascend, and a first page leaves nobody off who sorts before one on it. */
  lemma OrderRule(db: Database, c: Criterion, range: Range, source: Option<nat>, found: nat, part: seq<Gid>, order: Order)
    requires Contributes(db, c, range, source, found, part) && !Skips(c, source) && OrderFits(c, source, order)
    ensures Ascends(db, order, part)
    ensures Skipped(c, range) == 0 ==> forall on, off :: on in part && off in PeopledRows(db, c) && off !in part ==>
              KeyOf(db, order, on) <= KeyOf(db, order, off)
  {
    var full := SliceRule(db, c, range, source, found, part, order);
    var limit, skipped := Limit(c, range, found), Skipped(c, range);
    SliceAscends(db, order, full, limit, skipped);
    ScannedAscends(db, order, Slice(full, limit, skipped));
    if skipped == 0 {
      forall on, off | on in part && off in PeopledRows(db, c) && off !in part
        ensures KeyOf(db, order, on) <= KeyOf(db, order, off)
      {
        LeftOff(db, order, full, limit, on, off);
      }
    }
  }

  lemma SliceAscends(db: Database, order: Order, full: seq<Gid>, limit: nat, skipped: nat)
    requires Ascends(db, order, full)
    ensures Ascends(db, order, Slice(full, limit, skipped))
  {
    var slice := Slice(full, limit, skipped);
    assert forall i :: 0 <= i < |slice| ==> slice[i] == full[skipped + i];
  }

  lemma LeftOff(db: Database, order: Order, full: seq<Gid>, limit: nat, on: Gid, off: Gid)
    requires Ascends(db, order, full) && on in Slice(full, limit, 0) && off in full && off !in Slice(full, limit, 0)
    ensures KeyOf(db, order, on) <= KeyOf(db, order, off)
  {
    var slice := Slice(full, limit, 0);
    assert slice == full[..|slice|] && full == slice + full[|slice|..];
    var i :| 0 <= i < |slice| && slice[i] == on;
    assert off in full[|slice|..];
    var j :| 0 <= j < |full| - |slice| && full[|slice|..][j] == off;
    assert full[i] == on && full[|slice| + j] == off;
  }

  /** Attribute 1 of a criterion as a number: its numeral, or 0 if it is none. */
  ghost predicate Names(part: string, a: nat) {
    Denotes(part, a, 0x1_0000_0000) || (a == 0 && forall n: nat :: !Denotes(part, n, 0x1_0000_0000))
  }

  /** Nearest neighbour, and broadening ranges alike: by distance in attribute 1. */
  lemma NearestRule(db: Database, c: Criterion, range: Range, source: Option<nat>, found: nat, part: seq<Gid>, a: nat)
    requires Contributes(db, c, range, source, found, part) && !Skips(c, source)
    requires (c.selection.NearestNeighbor? || c.selection.BroadenRange?) && |c.attribs| >= 2 && Names(c.attribs[1], a)
    ensures forall gid :: gid in part ==> gid in db.sessions
    ensures forall i, j :: 0 <= i < j < |part| ==>
              Distance(a, db.sessions[part[i]].attribs[1]) <= Distance(a, db.sessions[part[j]].attribs[1])
    ensures Skipped(c, range) == 0 ==> forall on, off :: on in part && off in PeopledRows(db, c) && off !in part ==>
              Distance(a, db.sessions[on].attribs[1]) <= Distance(a, db.sessions[off].attribs[1])
  {
    OrderRule(db, c, range, source, found, part, ByAttribute(a));
    PagesStayInside(db, c, range, source, found, part);
    assert forall gid :: gid in db.sessions ==> KeyOf(db, ByAttribute(a), gid) == Distance(a, db.sessions[gid].attribs[1]);
    assert forall i :: 0 <= i < |part| ==> part[i] in part;
  }

  /** Progress score: by distance from the caller's own score. */
  lemma ProgressRule(db: Database, c: Criterion, range: Range, score: nat, found: nat, part: seq<Gid>)
    requires Contributes(db, c, range, Some(score), found, part) && !Skips(c, Some(score)) && c.selection.ProgressScore?
    ensures forall gid :: gid in part ==> gid in db.sessions
    ensures forall i, j :: 0 <= i < j < |part| ==>
              Distance(score, db.sessions[part[i]].progressScore) <= Distance(score, db.sessions[part[j]].progressScore)
    ensures Skipped(c, range) == 0 ==> forall on, off :: on in part && off in PeopledRows(db, c) && off !in part ==>
              Distance(score, db.sessions[on].progressScore) <= Distance(score, db.sessions[off].progressScore)
  {
    OrderRule(db, c, range, Some(score), found, part, ByScore(score));
    PagesStayInside(db, c, range, Some(score), found, part);
    assert forall gid :: gid in db.sessions ==> KeyOf(db, ByScore(score), gid) == Distance(score, db.sessions[gid].progressScore);
    assert forall i :: 0 <= i < |part| ==> part[i] in part;
  }

  /** Both: by the distance of the sums, in which the two differences may cancel out. Without attribute 1, in any order. */
  lemma CombinedRule(db: Database, c: Criterion, range: Range, score: nat, found: nat, part: seq<Gid>, a: nat)
    requires Contributes(db, c, range, Some(score), found, part) && !Skips(c, Some(score))
    requires c.selection.BroadenRangeWithProgressScore? && |c.attribs| >= 2 && c.attribs[1] != "" && Names(c.attribs[1], a)
    ensures forall gid :: gid in part ==> gid in db.sessions
    ensures forall i, j :: 0 <= i < j < |part| ==>
              Distance(a + score, db.sessions[part[i]].attribs[1] + db.sessions[part[i]].progressScore)
              <= Distance(a + score, db.sessions[part[j]].attribs[1] + db.sessions[part[j]].progressScore)
    ensures Skipped(c, range) == 0 ==> forall on, off :: on in part && off in PeopledRows(db, c) && off !in part ==>
              Distance(a + score, db.sessions[on].attribs[1] + db.sessions[on].progressScore)
              <= Distance(a + score, db.sessions[off].attribs[1] + db.sessions[off].progressScore)
  {
    var order := ByAttributeAndScore(a, score);
    OrderRule(db, c, range, Some(score), found, part, order);
    PagesStayInside(db, c, range, Some(score), found, part);
    CombinedKey(db, a, score);
    assert forall i :: 0 <= i < |part| ==> part[i] in part;
  }

  lemma CombinedKey(db: Database, a: nat, score: nat)
    ensures forall gid :: gid in db.sessions ==>
              KeyOf(db, ByAttributeAndScore(a, score), gid)
              == Distance(a + score, db.sessions[gid].attribs[1] + db.sessions[gid].progressScore)
  {
  }
}
