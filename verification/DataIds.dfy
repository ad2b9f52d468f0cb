/**
 How DataIDs are given out: automatically from a sequence, or explicitly by an import, which afterwards moves the
 sequence past its ID. The steps are single SQL statements, in any interleaving of any number of imports.
 */
module DataIds {
  import opened Tables

  type DataId = nat

  const START: nat := 940000
  const MAX_VALUE: nat := 281474976710656

  /** A Postgres sequence: nextval gives `last` until it has been called, and one more from then on. */
  datatype Sequence = Sequence(last: nat, called: bool)

  const NEW_SEQUENCE: Sequence := Sequence(START, false)

  /** What nextval is about to give. */
  function Position(q: Sequence): nat { if q.called then q.last + 1 else q.last }

  function NextVal(q: Sequence): Option<DataId> {
    if Position(q) <= MAX_VALUE then Some(Position(q)) else None
  }

  function Advanced(q: Sequence): Sequence {
    if NextVal(q).Some? then Sequence(Position(q), true) else q
  }

  /** setval to the greater of `id` and the last value; it fails above the maximum, and the failure is ignored. */
  function Bumped(q: Sequence, id: DataId): Sequence {
    var v := if id > q.last then id else q.last;
    if 1 <= v <= MAX_VALUE then Sequence(v, true) else q
  }

  datatype Statement =
    | InsertAuto
    | InsertReserved(id: DataId)
    | InsertExplicit(id: DataId)
    | Bump(id: DataId)

  /** `pending` are the imported IDs whose import has not moved the sequence yet. */
  datatype Db = Db(ids: set<DataId>, sequence: Sequence, pending: set<DataId>)

  const EMPTY_TABLE: Db := Db({}, NEW_SEQUENCE, {})

  /** Reserved IDs lie below the start value; an import bumps what it has inserted. */
  predicate MayExecute(db: Db, statement: Statement) {
    match statement
    case InsertReserved(id) => id < START
    case Bump(id) => id in db.pending
    case _ => true
  }

  /** An insert of an ID that is in the table already violates the primary key; the sequence has moved all the same. */
  function Execute(db: Db, statement: Statement): Db {
    match statement
    case InsertAuto =>
      var next := NextVal(db.sequence);
      if next.None? then db else db.(ids := db.ids + {next.value}, sequence := Advanced(db.sequence))
    case InsertReserved(id) => db.(ids := db.ids + {id})
    case InsertExplicit(id) => if id in db.ids then db else db.(ids := db.ids + {id}, pending := db.pending + {id})
    case Bump(id) => db.(sequence := Bumped(db.sequence, id), pending := db.pending - {id})
  }

  predicate MayExecuteAll(db: Db, statements: seq<Statement>)
    decreases |statements|
  {
    statements == [] || (MayExecute(db, statements[0]) && MayExecuteAll(Execute(db, statements[0]), statements[1..]))
  }

  function ExecuteAll(db: Db, statements: seq<Statement>): Db
    decreases |statements|
  {
    if statements == [] then db else ExecuteAll(Execute(db, statements[0]), statements[1..])
  }

  /** Out of the sequence's reach: below its start, above its maximum, or behind it. */
  predicate OutOfReach(q: Sequence, id: DataId) {
    id < START || id > MAX_VALUE || id < Position(q)
  }

  ghost predicate Ahead(db: Db) {
    && START <= db.sequence.last <= MAX_VALUE
    && db.pending <= db.ids
    && forall id :: id in db.ids && id !in db.pending ==> OutOfReach(db.sequence, id)
  }

  lemma StatementKeepsAhead(db: Db, statement: Statement)
    requires Ahead(db) && MayExecute(db, statement)
    ensures Ahead(Execute(db, statement))
    ensures Position(Execute(db, statement).sequence) >= Position(db.sequence)
  {
  }

  lemma {:induction false} StatementsKeepAhead(db: Db, statements: seq<Statement>)
    requires Ahead(db) && MayExecuteAll(db, statements)
    ensures Ahead(ExecuteAll(db, statements))
    ensures Position(ExecuteAll(db, statements).sequence) >= Position(db.sequence)
    decreases |statements|
  {
    if statements != [] {
      StatementKeepsAhead(db, statements[0]);
      StatementsKeepAhead(Execute(db, statements[0]), statements[1..]);
    }
  }

  /**
   After any interleaving, the next automatic ID is in the table exactly when an import has inserted it and has not
   moved the sequence yet. With no import under way it never is.
   */
  lemma AutomaticIdCollidesIff(statements: seq<Statement>)
    requires MayExecuteAll(EMPTY_TABLE, statements)
    ensures
      var db := ExecuteAll(EMPTY_TABLE, statements);
      && (NextVal(db.sequence).Some? ==> (NextVal(db.sequence).value in db.ids <==> NextVal(db.sequence).value in db.pending))
      && (NextVal(db.sequence).Some? && db.pending == {} ==> NextVal(db.sequence).value !in db.ids)
  {
    StatementsKeepAhead(EMPTY_TABLE, statements);
  }

  /** An automatic ID that has been given out is never given out again. */
  lemma AutomaticIdsAreUnique(db: Db, statements: seq<Statement>)
    requires Ahead(db) && NextVal(db.sequence).Some? && MayExecuteAll(Execute(db, InsertAuto), statements)
    ensures
      var later := ExecuteAll(Execute(db, InsertAuto), statements).sequence;
      NextVal(later).Some? ==> NextVal(later).value > NextVal(db.sequence).value
  {
    StatementKeepsAhead(db, InsertAuto);
    StatementsKeepAhead(Execute(db, InsertAuto), statements);
  }

  /** Between the two statements of an import of the start value, the next automatic insert fails. */
  lemma ImportUnderWayCollides()
    ensures
      var db := Execute(EMPTY_TABLE, InsertExplicit(START));
      NextVal(db.sequence) == Some(START) && START in db.ids
      && NextVal(Execute(db, Bump(START)).sequence) == Some(START + 1)
  {
  }
}
