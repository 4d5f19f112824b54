/** ClickHouse writes for the shared pool: a batch goes in with one insert; if that fails,
    record by record; what cannot be mapped or inserted goes to the dead-letter table. */
module Sink {
  import opened Wrappers
  import opened Models
  import opened Rows
  import opened ClickHouse
  import Naming

  datatype IncomingRecord = IncomingRecord(value: Json, coord: Coord, raw: string)

  datatype Dead = Dead(record: IncomingRecord, reason: Reason)

  datatype WriteResult = WriteResult(written: nat, deadLettered: nat, errors: seq<Reason>)

  /** What escapes `write`: an OverflowError from the mapping, or an error that the server
      kept raising. */
  datatype Escape = MappingOverflow | ServerError | InvalidName

  datatype WriteOutcome = Returned(result: WriteResult) | Raised(escape: Escape)

  const PAYLOAD_LIMIT := 64000
  const ERRORS_KEPT := 5

  // ---------------------------------------------------------------- bookkeeping

  function Coords(records: seq<IncomingRecord>): seq<Coord> {
    seq(|records|, i requires 0 <= i < |records| => records[i].coord)
  }

  function DeadCoords(dead: seq<Dead>): seq<Coord> {
    seq(|dead|, i requires 0 <= i < |dead| => dead[i].record.coord)
  }

  function Origins(rows: seq<Stored>): seq<Coord> {
    seq(|rows|, i requires 0 <= i < |rows| => rows[i].origin)
  }

  function LetterOrigins(letters: seq<DeadLetter>): seq<Coord> {
    seq(|letters|, i requires 0 <= i < |letters| => letters[i].origin)
  }

  function Take<T>(s: seq<T>, n: nat): seq<T> {
    if |s| <= n then s else s[..n]
  }

  function Reasons(dead: seq<Dead>): seq<Reason> {
    seq(|dead|, i requires 0 <= i < |dead| => dead[i].reason)
  }

  /** The dead-letter row of a record. */
  function LetterOf(d: Dead, pipelineId: string, table: string): DeadLetter {
    DeadLetter(pipelineId, d.record.coord, table, d.reason, Take(d.record.raw, PAYLOAD_LIMIT))
  }

  function Letters(dead: seq<Dead>, pipelineId: string, table: string): seq<DeadLetter> {
    seq(|dead|, i requires 0 <= i < |dead| => LetterOf(dead[i], pipelineId, table))
  }

  /** Between two stores the given rows were added to one table and the given letters to
      the dead-letter table; nothing else changed. */
  ghost predicate Grew(s: Store, t: Store, table: string, rows: seq<Stored>, letters: seq<DeadLetter>) {
    && RowsIn(t, table) == RowsIn(s, table) + rows
    && (forall other :: other != table ==> RowsIn(t, other) == RowsIn(s, other))
    && t.dlq == s.dlq + letters
  }

  lemma GrewTwice(s: Store, t: Store, u: Store, table: string,
                  rows: seq<Stored>, more: seq<Stored>, letters: seq<DeadLetter>, others: seq<DeadLetter>)
    requires Grew(s, t, table, rows, letters) && Grew(t, u, table, more, others)
    ensures Grew(s, u, table, rows + more, letters + others)
  {
  }

  function Repeat<T>(s: seq<T>, n: nat): seq<T> {
    if n == 0 then [] else Repeat(s, n - 1) + s
  }

  lemma {:induction false} AppliedInsert(s: Store, table: string, rows: seq<Stored>, n: nat)
    ensures Grew(s, ApplyTimes(s, Insert(table, rows), n), table, Repeat(rows, n), [])
  {
    if n > 0 {
      AppliedInsert(s, table, rows, n - 1);
      var t := ApplyTimes(s, Insert(table, rows), n - 1);
      assert Grew(t, Apply(t, Insert(table, rows)), table, rows, []);
      GrewTwice(s, t, Apply(t, Insert(table, rows)), table, Repeat(rows, n - 1), rows, [], []);
    }
  }

  lemma {:induction false} AppliedLetters(s: Store, table: string, letters: seq<DeadLetter>, n: nat)
    ensures Grew(s, ApplyTimes(s, InsertDeadLetters(letters), n), table, [], Repeat(letters, n))
  {
    if n > 0 {
      AppliedLetters(s, table, letters, n - 1);
      var t := ApplyTimes(s, InsertDeadLetters(letters), n - 1);
      GrewTwice(s, t, Apply(t, InsertDeadLetters(letters)), table, [], [], Repeat(letters, n - 1), letters);
    }
  }

  lemma {:induction false} AppliedCreate(s: Store, table: string, n: nat)
    ensures Grew(s, ApplyTimes(s, CreateTable(table), n), table, [], [])
    ensures n > 0 ==> table in ApplyTimes(s, CreateTable(table), n).tables
  {
    if n > 0 {
      AppliedCreate(s, table, n - 1);
      var t := ApplyTimes(s, CreateTable(table), n - 1);
      GrewTwice(s, t, Apply(t, CreateTable(table)), table, [], [], [], []);
    }
  }

  lemma {:induction false} RepeatOnce<T>(s: seq<T>)
    ensures Repeat(s, 0) == [] && Repeat(s, 1) == s
  {
    assert Repeat(s, 0) + s == s;
  }

  lemma {:induction false} RepeatKeeps<T>(s: seq<T>, n: nat)
    ensures forall x :: x in Repeat(s, n) ==> x in s
    ensures n > 0 ==> forall x :: x in s ==> x in Repeat(s, n)
  {
    if n > 0 {
      RepeatKeeps(s, n - 1);
    }
  }

  // ---------------------------------------------------------------- sorting by verdict

  /** The records that map, and their rows. */
  function Fitting(records: seq<IncomingRecord>, verdicts: seq<Mapping>): (r: seq<IncomingRecord>)
    requires |verdicts| == |records|
  {
    if records == [] then [] else
    var last := |records| - 1;
    Fitting(records[..last], verdicts[..last]) + if verdicts[last].Mapped? then [records[last]] else []
  }

  function FittingRows(records: seq<IncomingRecord>, verdicts: seq<Mapping>): seq<Stored>
    requires |verdicts| == |records|
  {
    if records == [] then [] else
    var last := |records| - 1;
    FittingRows(records[..last], verdicts[..last])
    + if verdicts[last].Mapped? then [Stored(verdicts[last].row, records[last].coord)] else []
  }

  /** The records that do not, in order, as dead letters. */
  function Unfit(records: seq<IncomingRecord>, verdicts: seq<Mapping>): seq<Dead>
    requires |verdicts| == |records|
  {
    if records == [] then [] else
    var last := |records| - 1;
    Unfit(records[..last], verdicts[..last]) + if verdicts[last].Mapped? then [] else [Dead(records[last], Unmappable)]
  }

  function Acceptable(rows: seq<Stored>, accepts: Row -> bool): seq<Stored> {
    if rows == [] then [] else
    var last := |rows| - 1;
    Acceptable(rows[..last], accepts) + if Accepted(accepts, rows[last].row) then [rows[last]] else []
  }

  function Refused(rows: seq<Stored>, accepts: Row -> bool): seq<Stored> {
    if rows == [] then [] else
    var last := |rows| - 1;
    Refused(rows[..last], accepts) + if Accepted(accepts, rows[last].row) then [] else [rows[last]]
  }

  lemma {:induction false} AllAreAcceptable(rows: seq<Stored>, accepts: Row -> bool)
    requires AllAcceptable(accepts, rows)
    ensures Acceptable(rows, accepts) == rows && Refused(rows, accepts) == []
  {
    if rows != [] {
      AllAreAcceptable(rows[..|rows| - 1], accepts);
      assert rows[|rows| - 1] in rows;
    }
  }

  lemma {:induction false} FittingRowsConcat(a: seq<IncomingRecord>, va: seq<Mapping>, b: seq<IncomingRecord>,
                                             vb: seq<Mapping>)
    requires |va| == |a| && |vb| == |b|
    ensures FittingRows(a + b, va + vb) == FittingRows(a, va) + FittingRows(b, vb)
  {
    if b == [] {
      assert a + b == a && va + vb == va;
    } else {
      var last := |b| - 1;
      FittingRowsConcat(a, va, b[..last], vb[..last]);
      assert (a + b)[..|a + b| - 1] == a + b[..last];
      assert (va + vb)[..|a + b| - 1] == va + vb[..last];
    }
  }

  lemma {:induction false} AcceptableConcat(a: seq<Stored>, b: seq<Stored>, accepts: Row -> bool)
    ensures Acceptable(a + b, accepts) == Acceptable(a, accepts) + Acceptable(b, accepts)
  {
    if b == [] {
      assert a + b == a;
    } else {
      var last := |b| - 1;
      AcceptableConcat(a, b[..last], accepts);
      assert (a + b)[..|a + b| - 1] == a + b[..last];
    }
  }

  /** What the table gets of a batch is what it gets of its parts. */
  lemma BatchIsRecordByRecord(a: seq<IncomingRecord>, va: seq<Mapping>, b: seq<IncomingRecord>, vb: seq<Mapping>,
                              accepts: Row -> bool)
    requires |va| == |a| && |vb| == |b|
    ensures Acceptable(FittingRows(a + b, va + vb), accepts)
         == Acceptable(FittingRows(a, va), accepts) + Acceptable(FittingRows(b, vb), accepts)
  {
    FittingRowsConcat(a, va, b, vb);
    AcceptableConcat(FittingRows(a, va), FittingRows(b, vb), accepts);
  }

  lemma BadRecordLast(a: seq<IncomingRecord>, va: seq<Mapping>, bad: IncomingRecord, verdict: Mapping,
                      accepts: Row -> bool)
    requires |va| == |a|
    requires verdict.Mapped? ==> !Accepted(accepts, verdict.row)
    ensures Acceptable(FittingRows(a + [bad], va + [verdict]), accepts) == Acceptable(FittingRows(a, va), accepts)
  {
    SortNext(a + [bad], |a|, va, verdict);
    assert (a + [bad])[..|a|] == a && (a + [bad])[..|a| + 1] == a + [bad];
    var rows := FittingRows(a, va);
    if verdict.Mapped? {
      assert (rows + [Stored(verdict.row, bad.coord)])[..|rows|] == rows;
    } else {
      assert rows + [] == rows;
    }
  }

  /** A bad record changes no neighbour's outcome: with a record that does not map or is
      refused anywhere in the batch, the rows that end up in the table are those of the
      batch without it. */
  lemma BadRecordChangesNothing(a: seq<IncomingRecord>, va: seq<Mapping>, bad: IncomingRecord, verdict: Mapping,
                                b: seq<IncomingRecord>, vb: seq<Mapping>, accepts: Row -> bool)
    requires |va| == |a| && |vb| == |b|
    requires verdict.Mapped? ==> !Accepted(accepts, verdict.row)
    ensures Acceptable(FittingRows(a + [bad] + b, va + [verdict] + vb), accepts)
         == Acceptable(FittingRows(a + b, va + vb), accepts)
  {
    BatchIsRecordByRecord(a + [bad], va + [verdict], b, vb, accepts);
    BadRecordLast(a, va, bad, verdict, accepts);
    BatchIsRecordByRecord(a, va, b, vb, accepts);
  }

  /** Row by row the same coordinates, and the same cells but for the ingestion time. */
  ghost predicate SameRows(rows: seq<Stored>, others: seq<Stored>) {
    && |rows| == |others|
    && forall i :: 0 <= i < |rows| ==>
         rows[i].origin == others[i].origin && SameButIngestion(rows[i].row, others[i].row)
  }

  lemma SameAcceptance(a: Row, b: Row, accepts: Row -> bool)
    requires SameButIngestion(a, b)
    ensures Accepted(accepts, a) == Accepted(accepts, b)
  {
    assert WithoutIngestion(a) == WithoutIngestion(b);
  }

  lemma CoordsSplit(a: seq<IncomingRecord>, b: seq<IncomingRecord>)
    ensures Coords(a + b) == Coords(a) + Coords(b)
  {
  }

  lemma {:induction false} FittingCoords(records: seq<IncomingRecord>, verdicts: seq<Mapping>)
    requires |verdicts| == |records|
    ensures Coords(Fitting(records, verdicts)) == Origins(FittingRows(records, verdicts))
    ensures |Fitting(records, verdicts)| == |FittingRows(records, verdicts)|
    ensures |Fitting(records, verdicts)| + |Unfit(records, verdicts)| == |records|
  {
    if records != [] {
      var last := |records| - 1;
      FittingCoords(records[..last], verdicts[..last]);
      if verdicts[last].Mapped? {
        CoordsSplit(Fitting(records[..last], verdicts[..last]), [records[last]]);
        OriginsSplit(FittingRows(records[..last], verdicts[..last]), [Stored(verdicts[last].row, records[last].coord)]);
      } else {
        assert Fitting(records, verdicts) == Fitting(records[..last], verdicts[..last]);
        assert FittingRows(records, verdicts) == FittingRows(records[..last], verdicts[..last]);
      }
    }
  }

  lemma OneMoreCoord(fit: seq<Coord>, unfit: seq<Coord>, all: seq<Coord>, c: Coord)
    requires multiset(fit) + multiset(unfit) == multiset(all)
    ensures multiset(fit + [c]) + multiset(unfit) == multiset(all + [c])
    ensures multiset(fit) + multiset(unfit + [c]) == multiset(all + [c])
  {
  }

  /** Every record is on one side, once. */
  lemma {:induction false} VerdictsSplit(records: seq<IncomingRecord>, verdicts: seq<Mapping>)
    requires |verdicts| == |records|
    ensures multiset(Coords(Fitting(records, verdicts))) + multiset(DeadCoords(Unfit(records, verdicts)))
         == multiset(Coords(records))
  {
    if records != [] {
      var last := |records| - 1;
      VerdictsSplit(records[..last], verdicts[..last]);
      FittingSide(records, verdicts);
      UnfitSide(records, verdicts);
      CoordsSnoc(records[..last], records[last]);
      assert records[..last] + [records[last]] == records;
      OneMoreCoord(Coords(Fitting(records[..last], verdicts[..last])),
                   DeadCoords(Unfit(records[..last], verdicts[..last])),
                   Coords(records[..last]), records[last].coord);
    }
  }

  lemma FittingSide(records: seq<IncomingRecord>, verdicts: seq<Mapping>)
    requires |verdicts| == |records| > 0
    ensures
      var last := |records| - 1;
      var fit := Fitting(records[..last], verdicts[..last]);
      Coords(Fitting(records, verdicts)) ==
        if verdicts[last].Mapped? then Coords(fit) + [records[last].coord] else Coords(fit)
  {
    var last := |records| - 1;
    var fit := Fitting(records[..last], verdicts[..last]);
    CoordsSnoc(fit, records[last]);
    assert fit + [] == fit;
  }

  lemma UnfitSide(records: seq<IncomingRecord>, verdicts: seq<Mapping>)
    requires |verdicts| == |records| > 0
    ensures
      var last := |records| - 1;
      var unfit := Unfit(records[..last], verdicts[..last]);
      DeadCoords(Unfit(records, verdicts)) ==
        if verdicts[last].Mapped? then DeadCoords(unfit) else DeadCoords(unfit) + [records[last].coord]
  {
    var last := |records| - 1;
    var unfit := Unfit(records[..last], verdicts[..last]);
    DeadSnoc(unfit, Dead(records[last], Unmappable));
    assert unfit + [] == unfit;
  }

  lemma CoordsSnoc(a: seq<IncomingRecord>, r: IncomingRecord)
    ensures Coords(a + [r]) == Coords(a) + [r.coord]
  {
  }

  lemma DeadSnoc(a: seq<Dead>, d: Dead)
    ensures DeadCoords(a + [d]) == DeadCoords(a) + [d.record.coord]
  {
  }

  // ---------------------------------------------------------------- the sink

  class Clock {
    var now: real

    constructor (now: real)
      ensures this.now == now
    {
      this.now := now;
    }

    /** Time does not run backwards. */
    method Now() returns (t: real)
      modifies this
      ensures old(now) <= t == now
    {
      var passed: real := *;
      if passed > 0.0 {
        now := now + passed;
      }
      t := now;
    }
  }

  /** The record was mapped to this row at some time up to now. */
  ghost predicate MappedBy(record: IncomingRecord, row: Row, config: PipelineConfig,
                           parse: string -> Option<Float>, now: real)
  {
    exists t: real, u: real :: t <= now && ToRow(record.value, config, parse, t, u) == Mapped(row)
  }

  ghost predicate AllMappedBy(keep: seq<IncomingRecord>, rows: seq<Stored>, config: PipelineConfig,
                              parse: string -> Option<Float>, now: real)
  {
    && |rows| == |keep|
    && forall i :: 0 <= i < |keep| ==>
         rows[i].origin == keep[i].coord && MappedBy(keep[i], rows[i].row, config, parse, now)
  }

  /** A record that was mapped is mapped again later, to the same row but for the ingestion
      time. */
  lemma MappedAgain(record: IncomingRecord, row: Row, config: PipelineConfig, parse: string -> Option<Float>,
                    earlier: real, now: real, ingestedAt: real)
    requires MappedBy(record, row, config, parse, earlier) && earlier <= now <= ingestedAt
    ensures
      var mapping := ToRow(record.value, config, parse, now, ingestedAt);
      && mapping.Mapped? && SameButIngestion(row, mapping.row) && SameButIngestion(mapping.row, row)
      && MappedBy(record, mapping.row, config, parse, ingestedAt)
  {
    var t: real, u: real :| t <= earlier && ToRow(record.value, config, parse, t, u) == Mapped(row);
    AcceptedAgainLater(record.value, config, parse, t, u, now, ingestedAt);
  }

  /** The row is what one of the records was mapped to, and says so. */
  ghost predicate StemsFrom(records: seq<IncomingRecord>, a: Stored, config: PipelineConfig,
                          parse: string -> Option<Float>, now: real)
  {
    exists r :: r in records && a.origin == r.coord && MappedBy(r, a.row, config, parse, now)
  }

  ghost predicate RowsFrom(records: seq<IncomingRecord>, rows: seq<Stored>, config: PipelineConfig,
                           parse: string -> Option<Float>, now: real)
  {
    forall a :: a in rows ==> StemsFrom(records, a, config, parse, now)
  }

  /** The failed inserts are of these records. */
  ghost predicate FailedFrom(records: seq<IncomingRecord>, dead: seq<Dead>) {
    forall d :: d in dead ==> d.record in records && d.reason == InsertFailed
  }

  /** Rows and failures of the isolation path so far. */
  ghost predicate Sourced(records: seq<IncomingRecord>, rows0: seq<Stored>, added: seq<Stored>, failed: seq<Dead>,
                          config: PipelineConfig, parse: string -> Option<Float>, now: real)
  {
    && AllMappedBy(records, rows0, config, parse, now)
    && RowsFrom(records, added, config, parse, now)
    && FailedFrom(records, failed)
  }

  lemma SourcedNext(records: seq<IncomingRecord>, rows0: seq<Stored>, added: seq<Stored>, failed: seq<Dead>,
                    config: PipelineConfig, parse: string -> Option<Float>, now: real, later: real,
                    record: IncomingRecord, more: seq<Stored>, dead: seq<Dead>)
    requires Sourced(records, rows0, added, failed, config, parse, now) && now <= later && record in records
    requires forall a :: a in more ==> a.origin == record.coord && MappedBy(record, a.row, config, parse, later)
    requires forall d :: d in dead ==> d == Dead(record, InsertFailed)
    ensures Sourced(records, rows0, added + more, failed + dead, config, parse, later)
  {
    MappedByStill(records, rows0, config, parse, now, later);
    RowsFromLater(records, added, config, parse, now, later);
    RowsFromMore(records, added, record, more, config, parse, later);
  }

  lemma RowsFromLater(records: seq<IncomingRecord>, rows: seq<Stored>, config: PipelineConfig,
                      parse: string -> Option<Float>, now: real, later: real)
    requires RowsFrom(records, rows, config, parse, now) && now <= later
    ensures RowsFrom(records, rows, config, parse, later)
  {
    forall a | a in rows ensures StemsFrom(records, a, config, parse, later) {
      var r :| r in records && a.origin == r.coord && MappedBy(r, a.row, config, parse, now);
      assert MappedBy(r, a.row, config, parse, later);
    }
  }

  lemma RowsFromMore(records: seq<IncomingRecord>, rows: seq<Stored>, record: IncomingRecord, more: seq<Stored>,
                     config: PipelineConfig, parse: string -> Option<Float>, now: real)
    requires RowsFrom(records, rows, config, parse, now) && record in records
    requires forall a :: a in more ==> a.origin == record.coord && MappedBy(record, a.row, config, parse, now)
    ensures RowsFrom(records, rows + more, config, parse, now)
  {
    forall a | a in rows + more ensures StemsFrom(records, a, config, parse, now) {
      assert a in rows || a in more;
    }
  }

  lemma MappedRowsFrom(keep: seq<IncomingRecord>, rows: seq<Stored>, config: PipelineConfig,
                       parse: string -> Option<Float>, now: real)
    requires AllMappedBy(keep, rows, config, parse, now)
    ensures RowsFrom(keep, rows, config, parse, now)
  {
    forall a | a in rows ensures StemsFrom(keep, a, config, parse, now) {
      var i :| 0 <= i < |rows| && rows[i] == a;
      assert keep[i] in keep && MappedBy(keep[i], a.row, config, parse, now);
    }
  }

  lemma RowsFromAll(keep: seq<IncomingRecord>, records: seq<IncomingRecord>, rows: seq<Stored>, config: PipelineConfig,
                    parse: string -> Option<Float>, now: real)
    requires RowsFrom(keep, rows, config, parse, now) && forall r :: r in keep ==> r in records
    ensures RowsFrom(records, rows, config, parse, now)
  {
    forall a | a in rows ensures StemsFrom(records, a, config, parse, now) {
      assert StemsFrom(keep, a, config, parse, now);
    }
  }

  /** Every record is in the table or among the dead, and nothing else is. */
  ghost predicate Accounted(records: seq<IncomingRecord>, added: seq<Stored>, dead: seq<Dead>) {
    && (forall r :: r in records ==> r.coord in Origins(added) || r.coord in DeadCoords(dead))
    && (forall c :: c in Origins(added) || c in DeadCoords(dead) ==> c in Coords(records))
  }

  /** The added rows and the dead together are the records, each once. */
  ghost predicate ExactlyOnce(records: seq<IncomingRecord>, added: seq<Stored>, dead: seq<Dead>) {
    multiset(Origins(added)) + multiset(DeadCoords(dead)) == multiset(Coords(records))
  }

  /** The added rows are the acceptable ones, in order, and the dead are the others. */
  ghost predicate SplitByRow(rows: seq<Stored>, accepts: Row -> bool, added: seq<Stored>, dead: seq<Dead>) {
    && SameRows(added, Acceptable(rows, accepts))
    && DeadCoords(dead) == Origins(Refused(rows, accepts))
  }

  lemma OriginsSplit(a: seq<Stored>, b: seq<Stored>)
    ensures Origins(a + b) == Origins(a) + Origins(b)
  {
  }

  lemma DeadSplit(a: seq<Dead>, b: seq<Dead>)
    ensures DeadCoords(a + b) == DeadCoords(a) + DeadCoords(b)
  {
  }

  /** One record further: `more` and `dead` are what its insert left. */
  lemma OneMoreRecord(records: seq<IncomingRecord>, i: nat, added: seq<Stored>, failed: seq<Dead>,
                      more: seq<Stored>, dead: seq<Dead>)
    requires i < |records|
    requires Accounted(records[..i], added, failed)
    requires forall a :: a in more ==> a.origin == records[i].coord
    requires forall d :: d in dead ==> d.record.coord == records[i].coord
    requires more != [] || dead != []
    ensures Accounted(records[..i + 1], added + more, failed + dead)
    ensures ExactlyOnce(records[..i], added, failed) && |more| + |dead| == 1 ==>
      ExactlyOnce(records[..i + 1], added + more, failed + dead)
  {
    assert records[..i + 1] == records[..i] + [records[i]];
    CoordsSplit(records[..i], [records[i]]);
    OriginsSplit(added, more);
    DeadSplit(failed, dead);
    var c := records[i].coord;
    assert Coords([records[i]]) == [c];
    assert forall x :: x in Origins(more) || x in DeadCoords(dead) ==> x == c;
    assert c in Origins(more) || c in DeadCoords(dead) by {
      if more != [] {
        assert more[0] in more;
        assert Origins(more)[0] == c;
      } else {
        assert dead[0] in dead;
        assert DeadCoords(dead)[0] == c;
      }
    }
    if |more| + |dead| == 1 {
      if |more| == 1 {
        assert more[0] in more;
        assert Origins(more) == [c] && DeadCoords(dead) == [];
      } else {
        assert dead[0] in dead;
        assert Origins(more) == [] && DeadCoords(dead) == [c];
      }
    }
    forall r | r in records[..i + 1]
      ensures r.coord in Origins(added + more) || r.coord in DeadCoords(failed + dead)
    {
      assert r in records[..i] || r == records[i];
    }
  }

  lemma OneMoreRow(rows: seq<Stored>, i: nat, accepts: Row -> bool, added: seq<Stored>, failed: seq<Dead>,
                   more: seq<Stored>, dead: seq<Dead>)
    requires i < |rows|
    requires SplitByRow(rows[..i], accepts, added, failed)
    requires if Accepted(accepts, rows[i].row) then dead == [] && SameRows(more, [rows[i]])
             else more == [] && |dead| == 1 && dead[0].record.coord == rows[i].origin
    ensures SplitByRow(rows[..i + 1], accepts, added + more, failed + dead)
  {
    assert rows[..i + 1][..i] == rows[..i];
    DeadSplit(failed, dead);
    OriginsSplit(Refused(rows[..i], accepts), [rows[i]]);
    if Accepted(accepts, rows[i].row) {
      assert Acceptable(rows[..i + 1], accepts) == Acceptable(rows[..i], accepts) + [rows[i]];
      assert Refused(rows[..i + 1], accepts) == Refused(rows[..i], accepts);
    } else {
      assert Acceptable(rows[..i + 1], accepts) == Acceptable(rows[..i], accepts);
      assert added + more == added;
      assert DeadCoords(dead) == Origins([rows[i]]);
    }
  }

  /** One verdict per record that was looked at, each at the times given. */
  ghost predicate Judged(records: seq<IncomingRecord>, verdicts: seq<Mapping>, times: seq<(real, real)>,
                         config: PipelineConfig, parse: string -> Option<Float>, now: real)
  {
    && |verdicts| == |times| <= |records|
    && forall i :: 0 <= i < |verdicts| ==>
         && times[i].0 <= now
         && verdicts[i] == ToRow(records[i].value, config, parse, times[i].0, times[i].1)
  }

  lemma JudgedNext(records: seq<IncomingRecord>, verdicts: seq<Mapping>, times: seq<(real, real)>,
                   config: PipelineConfig, parse: string -> Option<Float>, earlier: real, now: real, ingestedAt: real)
    requires Judged(records, verdicts, times, config, parse, earlier)
    requires |verdicts| < |records| && earlier <= now <= ingestedAt
    ensures Judged(records, verdicts + [ToRow(records[|verdicts|].value, config, parse, now, ingestedAt)],
                   times + [(now, ingestedAt)], config, parse, ingestedAt)
  {
  }

  lemma JudgedLater(records: seq<IncomingRecord>, verdicts: seq<Mapping>, times: seq<(real, real)>,
                    config: PipelineConfig, parse: string -> Option<Float>, now: real, later: real)
    requires Judged(records, verdicts, times, config, parse, now) && now <= later
    ensures Judged(records, verdicts, times, config, parse, later)
  {
  }

  /** What the mapping loop has established after i records, none of which overflowed. */
  ghost predicate Sorted(records: seq<IncomingRecord>, i: nat, verdicts: seq<Mapping>, times: seq<(real, real)>,
                         config: PipelineConfig, parse: string -> Option<Float>, now: real,
                         rows: seq<Stored>, keep: seq<IncomingRecord>, dead: seq<Dead>)
    requires i <= |records|
  {
    && |verdicts| == i
    && Judged(records, verdicts, times, config, parse, now)
    && (forall j :: 0 <= j < i ==> !verdicts[j].Overflowed?)
    && rows == FittingRows(records[..i], verdicts)
    && keep == Fitting(records[..i], verdicts)
    && dead == Unfit(records[..i], verdicts)
  }

  lemma SortedNext(records: seq<IncomingRecord>, i: nat, verdicts: seq<Mapping>, times: seq<(real, real)>,
                   config: PipelineConfig, parse: string -> Option<Float>, earlier: real, now: real, ingestedAt: real,
                   rows: seq<Stored>, keep: seq<IncomingRecord>, dead: seq<Dead>)
    requires i < |records| && earlier <= now <= ingestedAt
    requires Sorted(records, i, verdicts, times, config, parse, earlier, rows, keep, dead)
    ensures
      var mapping := ToRow(records[i].value, config, parse, now, ingestedAt);
      var (verdicts', times') := (verdicts + [mapping], times + [(now, ingestedAt)]);
      && Judged(records, verdicts', times', config, parse, ingestedAt)
      && verdicts'[i] == mapping
      && match mapping
         case Mapped(row) =>
           Sorted(records, i + 1, verdicts', times', config, parse, ingestedAt,
                  rows + [Stored(row, records[i].coord)], keep + [records[i]], dead)
         case Rejected =>
           Sorted(records, i + 1, verdicts', times', config, parse, ingestedAt,
                  rows, keep, dead + [Dead(records[i], Unmappable)])
         case Overflowed => true
  {
    var mapping := ToRow(records[i].value, config, parse, now, ingestedAt);
    JudgedNext(records, verdicts, times, config, parse, earlier, now, ingestedAt);
    SortNext(records, i, verdicts, mapping);
    assert rows + [] == rows && keep + [] == keep && dead + [] == dead;
  }

  lemma {:induction false} FittingIsMapped(records: seq<IncomingRecord>, verdicts: seq<Mapping>,
                                           times: seq<(real, real)>, config: PipelineConfig,
                                           parse: string -> Option<Float>, now: real)
    requires |verdicts| == |records| && Judged(records, verdicts, times, config, parse, now)
    ensures AllMappedBy(Fitting(records, verdicts), FittingRows(records, verdicts), config, parse, now)
  {
    if records != [] {
      var last := |records| - 1;
      FittingIsMapped(records[..last], verdicts[..last], times[..last], config, parse, now);
      if verdicts[last].Mapped? {
        assert ToRow(records[last].value, config, parse, times[last].0, times[last].1) == Mapped(verdicts[last].row);
        assert MappedBy(records[last], verdicts[last].row, config, parse, now);
      }
    }
  }

  lemma SortNext(records: seq<IncomingRecord>, i: nat, verdicts: seq<Mapping>, mapping: Mapping)
    requires i == |verdicts| < |records|
    ensures
      var fits := mapping.Mapped?;
      var (before, after, all) := (records[..i], records[..i + 1], verdicts + [mapping]);
      && FittingRows(after, all) ==
           FittingRows(before, verdicts) + (if fits then [Stored(mapping.row, records[i].coord)] else [])
      && Fitting(after, all) == Fitting(before, verdicts) + (if fits then [records[i]] else [])
      && Unfit(after, all) == Unfit(before, verdicts) + (if fits then [] else [Dead(records[i], Unmappable)])
  {
    assert records[..i + 1][..i] == records[..i];
    assert (verdicts + [mapping])[..i] == verdicts;
  }

  lemma SameOrigins(keep: seq<IncomingRecord>, rows: seq<Stored>, config: PipelineConfig,
                    parse: string -> Option<Float>, now: real)
    requires AllMappedBy(keep, rows, config, parse, now)
    ensures Origins(rows) == Coords(keep)
  {
  }

  lemma RowsAreOriginal(rows: seq<Stored>)
    ensures SameRows(rows, rows)
  {
  }

  /** A batch insert that was applied at least once accounts for all its records. */
  lemma BatchAccounted(keep: seq<IncomingRecord>, rows: seq<Stored>, n: nat)
    requires Origins(rows) == Coords(keep)
    ensures forall c :: c in Origins(Repeat(rows, n)) ==> c in Coords(keep)
    ensures n > 0 ==> Accounted(keep, Repeat(rows, n), [])
    ensures ExactlyOnce(keep, rows, [])
  {
    RepeatKeeps(rows, n);
    forall c | c in Origins(Repeat(rows, n))
      ensures c in Coords(keep)
    {
      var i :| 0 <= i < |Repeat(rows, n)| && Repeat(rows, n)[i].origin == c;
      var r := Repeat(rows, n)[i];
      assert r in rows;
      var j :| 0 <= j < |rows| && rows[j] == r;
      assert Origins(rows)[j] == c;
    }
    if n > 0 {
      forall r | r in keep
        ensures r.coord in Origins(Repeat(rows, n))
      {
        var j :| 0 <= j < |keep| && keep[j] == r;
        assert Origins(rows)[j] == r.coord;
        assert rows[j] in Repeat(rows, n);
        var i :| 0 <= i < |Repeat(rows, n)| && Repeat(rows, n)[i] == rows[j];
        assert Origins(Repeat(rows, n))[i] == r.coord;
      }
    }
    assert DeadCoords([]) == [];
  }

  lemma StillAccounted(keep: seq<IncomingRecord>, rows: seq<Stored>, n: nat, more: seq<Stored>, dead: seq<Dead>)
    requires Origins(rows) == Coords(keep)
    requires Accounted(keep, more, dead)
    ensures Accounted(keep, Repeat(rows, n) + more, dead)
  {
    BatchAccounted(keep, rows, n);
    OriginsSplit(Repeat(rows, n), more);
  }

  /** What the isolation loop has established after i records; `exact` says that a raised
      insert was not applied, `byRow` that acceptance depends on the row alone. */
  ghost predicate Isolated(s: Store, t: Store, table: string, records: seq<IncomingRecord>, rows: seq<Stored>, i: nat,
                           added: seq<Stored>, failed: seq<Dead>, exact: bool, byRow: bool, accepts: Row -> bool)
    requires i <= |records| == |rows|
  {
    && Grew(s, t, table, added, [])
    && Accounted(records[..i], added, failed)
    && (exact ==> ExactlyOnce(records[..i], added, failed))
    && (byRow ==> SplitByRow(rows[..i], accepts, added, failed))
  }

  lemma IsolatedNext(s: Store, t: Store, u: Store, table: string, records: seq<IncomingRecord>, rows: seq<Stored>,
                     i: nat, added: seq<Stored>, failed: seq<Dead>, more: seq<Stored>, dead: seq<Dead>,
                     exact: bool, byRow: bool, accepts: Row -> bool)
    requires i < |records| == |rows|
    requires Isolated(s, t, table, records, rows, i, added, failed, exact, byRow, accepts)
    requires Grew(t, u, table, more, [])
    requires forall a :: a in more ==> a.origin == records[i].coord
    requires forall d :: d in dead ==> d.record.coord == records[i].coord
    requires more != [] || dead != []
    requires exact ==> |more| + |dead| == 1
    requires byRow ==>
      if Accepted(accepts, rows[i].row) then dead == [] && SameRows(more, [rows[i]])
      else more == [] && |dead| == 1 && dead[0].record.coord == rows[i].origin
    ensures Isolated(s, u, table, records, rows, i + 1, added + more, failed + dead, exact, byRow, accepts)
  {
    GrewTwice(s, t, u, table, added, more, [], []);
    OneMoreRecord(records, i, added, failed, more, dead);
    if byRow {
      OneMoreRow(rows, i, accepts, added, failed, more, dead);
    }
  }

  lemma IsolatedAll(s: Store, t: Store, table: string, records: seq<IncomingRecord>, rows: seq<Stored>,
                    added: seq<Stored>, failed: seq<Dead>, exact: bool, byRow: bool, accepts: Row -> bool)
    requires |records| == |rows|
    requires Isolated(s, t, table, records, rows, |records|, added, failed, exact, byRow, accepts)
    ensures Grew(s, t, table, added, [])
    ensures Accounted(records, added, failed)
    ensures exact ==> ExactlyOnce(records, added, failed)
    ensures byRow ==> SplitByRow(rows, accepts, added, failed)
  {
    assert records[..|records|] == records && rows[..|rows|] == rows;
  }

  lemma MappedByStill(keep: seq<IncomingRecord>, rows: seq<Stored>, config: PipelineConfig,
                      parse: string -> Option<Float>, now: real, later: real)
    requires AllMappedBy(keep, rows, config, parse, now) && now <= later
    ensures AllMappedBy(keep, rows, config, parse, later)
  {
    forall i | 0 <= i < |keep|
      ensures MappedBy(keep[i], rows[i].row, config, parse, later)
    {
      assert MappedBy(keep[i], rows[i].row, config, parse, now);
    }
  }

  /** The pipeline's table; None where ch_unique_identifier raises. */
  function Identifies(config: PipelineConfig): Option<string> {
    Naming.Identifier(config.userId, config.collectionNumber, config.tableName)
  }

  function TableOf(config: PipelineConfig): string {
    match Identifies(config)
    case Some(table) => table
    case None => ""
  }

  function LetterReasons(letters: seq<DeadLetter>): seq<Reason> {
    seq(|letters|, i requires 0 <= i < |letters| => letters[i].reason)
  }

  /** Nothing but these records was added. */
  ghost predicate OnlyTheirs(records: seq<IncomingRecord>, rows: seq<Stored>, letters: seq<DeadLetter>) {
    forall c :: c in Origins(rows) || c in LetterOrigins(letters) ==> c in Coords(records)
  }

  /** The letter is the i-th record's: coordinates, payload, and why it is dead. */
  ghost predicate LetterFrom(records: seq<IncomingRecord>, verdicts: seq<Mapping>, l: DeadLetter, pipelineId: string,
                             table: string)
    requires |verdicts| == |records|
  {
    exists i :: 0 <= i < |records| &&
      l == LetterOf(Dead(records[i], if verdicts[i].Mapped? then InsertFailed else Unmappable), pipelineId, table)
  }

  ghost predicate LettersFrom(records: seq<IncomingRecord>, verdicts: seq<Mapping>, letters: seq<DeadLetter>,
                              pipelineId: string, table: string)
  {
    letters != [] ==>
      |verdicts| == |records| && forall l :: l in letters ==> LetterFrom(records, verdicts, l, pipelineId, table)
  }

  /** Fitting records are among the records, and mapped. */
  lemma {:induction false} FittingFrom(records: seq<IncomingRecord>, verdicts: seq<Mapping>, r: IncomingRecord)
    requires |verdicts| == |records| && r in Fitting(records, verdicts)
    ensures exists i :: 0 <= i < |records| && records[i] == r && verdicts[i].Mapped?
  {
    var last := |records| - 1;
    if r in Fitting(records[..last], verdicts[..last]) {
      FittingFrom(records[..last], verdicts[..last], r);
    }
  }

  lemma {:induction false} UnfitFrom(records: seq<IncomingRecord>, verdicts: seq<Mapping>, d: Dead)
    requires |verdicts| == |records| && d in Unfit(records, verdicts)
    ensures exists i :: 0 <= i < |records| && d == Dead(records[i], Unmappable) && !verdicts[i].Mapped?
  {
    var last := |records| - 1;
    if d in Unfit(records[..last], verdicts[..last]) {
      UnfitFrom(records[..last], verdicts[..last], d);
    }
  }

  lemma DeadFrom(records: seq<IncomingRecord>, verdicts: seq<Mapping>, isolated: seq<Dead>, d: Dead,
                 pipelineId: string, table: string)
    requires |verdicts| == |records| && FailedFrom(Fitting(records, verdicts), isolated)
    requires d in Unfit(records, verdicts) + isolated
    ensures LetterFrom(records, verdicts, LetterOf(d, pipelineId, table), pipelineId, table)
  {
    if d in Unfit(records, verdicts) {
      UnfitFrom(records, verdicts, d);
      var i :| 0 <= i < |records| && d == Dead(records[i], Unmappable) && !verdicts[i].Mapped?;
    } else {
      FittingFrom(records, verdicts, d.record);
      var i :| 0 <= i < |records| && records[i] == d.record && verdicts[i].Mapped?;
    }
  }

  lemma AllLettersFrom(records: seq<IncomingRecord>, verdicts: seq<Mapping>, isolated: seq<Dead>,
                       letters: seq<DeadLetter>, pipelineId: string, table: string, ok: bool)
    requires |verdicts| == |records| && FailedFrom(Fitting(records, verdicts), isolated)
    requires Lettered(Unfit(records, verdicts) + isolated, letters, pipelineId, table, ok)
    ensures LettersFrom(records, verdicts, letters, pipelineId, table)
  {
    var dead := Unfit(records, verdicts) + isolated;
    forall l | l in letters ensures LetterFrom(records, verdicts, l, pipelineId, table) {
      var j :| 0 <= j < |dead| && Letters(dead, pipelineId, table)[j] == l;
      DeadFrom(records, verdicts, isolated, dead[j], pipelineId, table);
    }
  }

  lemma AllRowsFrom(records: seq<IncomingRecord>, verdicts: seq<Mapping>, rows: seq<Stored>, config: PipelineConfig,
                    parse: string -> Option<Float>, now: real)
    requires |verdicts| == |records| && RowsFrom(Fitting(records, verdicts), rows, config, parse, now)
    ensures RowsFrom(records, rows, config, parse, now)
  {
    forall r | r in Fitting(records, verdicts) ensures r in records {
      FittingFrom(records, verdicts, r);
    }
    RowsFromAll(Fitting(records, verdicts), records, rows, config, parse, now);
  }

  /** Every record is in the table or in the dead-letter table. */
  ghost predicate Complete(records: seq<IncomingRecord>, rows: seq<Stored>, letters: seq<DeadLetter>) {
    forall r :: r in records ==> r.coord in Origins(rows) || r.coord in LetterOrigins(letters)
  }

  /** Added rows and added dead letters together are the records, each once. */
  ghost predicate Conserved(records: seq<IncomingRecord>, rows: seq<Stored>, letters: seq<DeadLetter>) {
    multiset(Origins(rows)) + multiset(LetterOrigins(letters)) == multiset(Coords(records))
  }

  /** A write that returned: every record was judged and is in the table or in the
      dead-letter table, and the two counts add up to the batch. */
  ghost predicate Settled(records: seq<IncomingRecord>, verdicts: seq<Mapping>, rows: seq<Stored>,
                          letters: seq<DeadLetter>, result: WriteResult)
  {
    && |verdicts| == |records|
    && result.written + result.deadLettered == |records|
    && Complete(records, rows, letters)
  }

  /** ... and, when a raised insert was not applied, each record once, with exact counts and
      the first five reasons. */
  ghost predicate SettledExactly(records: seq<IncomingRecord>, rows: seq<Stored>, letters: seq<DeadLetter>,
                                 result: WriteResult)
  {
    && Conserved(records, rows, letters)
    && result.written == |rows| && result.deadLettered == |letters|
    && |result.errors| == (if |letters| < 5 then |letters| else 5)
    && forall i :: 0 <= i < |result.errors| ==> result.errors[i] == letters[i].reason
  }

  /** ... and, when acceptance depends on the row alone, exactly the acceptable rows in
      arrival order in the table, and exactly the rest dead-lettered: those that do not
      map, then those that were refused. */
  ghost predicate SettledByRow(records: seq<IncomingRecord>, verdicts: seq<Mapping>, accepts: Row -> bool,
                               rows: seq<Stored>, letters: seq<DeadLetter>)
    requires |verdicts| == |records|
  {
    && SameRows(rows, Acceptable(FittingRows(records, verdicts), accepts))
    && LetterOrigins(letters) ==
         DeadCoords(Unfit(records, verdicts)) + Origins(Refused(FittingRows(records, verdicts), accepts))
  }

  lemma LettersOf(dead: seq<Dead>, pipelineId: string, table: string)
    ensures LetterOrigins(Letters(dead, pipelineId, table)) == DeadCoords(dead)
    ensures LetterReasons(Letters(dead, pipelineId, table)) == Reasons(dead)
  {
  }

  /** The letters hold the dead, possibly some of them several times. */
  ghost predicate Lettered(dead: seq<Dead>, letters: seq<DeadLetter>, pipelineId: string, table: string, ok: bool) {
    && (forall l :: l in letters ==> l in Letters(dead, pipelineId, table))
    && (ok ==> forall l :: l in Letters(dead, pipelineId, table) ==> l in letters)
  }

  lemma LetteredCoords(dead: seq<Dead>, letters: seq<DeadLetter>, pipelineId: string, table: string, ok: bool)
    requires Lettered(dead, letters, pipelineId, table, ok)
    ensures forall c :: c in LetterOrigins(letters) ==> c in DeadCoords(dead)
    ensures ok ==> forall c :: c in DeadCoords(dead) ==> c in LetterOrigins(letters)
  {
    var all := Letters(dead, pipelineId, table);
    LettersOf(dead, pipelineId, table);
    forall c | c in LetterOrigins(letters)
      ensures c in DeadCoords(dead)
    {
      var i :| 0 <= i < |letters| && letters[i].origin == c;
      assert letters[i] in all;
      var j :| 0 <= j < |all| && all[j] == letters[i];
      assert LetterOrigins(all)[j] == c;
    }
    if ok {
      forall c | c in DeadCoords(dead)
        ensures c in LetterOrigins(letters)
      {
        var j :| 0 <= j < |dead| && dead[j].record.coord == c;
        assert all[j] in letters;
        var i :| 0 <= i < |letters| && letters[i] == all[j];
        assert LetterOrigins(letters)[i] == c;
      }
    }
  }

  /** Every record is fitting or unfit, and nothing else is. */
  lemma SidesCover(records: seq<IncomingRecord>, verdicts: seq<Mapping>)
    requires |verdicts| == |records|
    ensures forall c :: c in Coords(records) <==>
      c in Coords(Fitting(records, verdicts)) || c in DeadCoords(Unfit(records, verdicts))
  {
    VerdictsSplit(records, verdicts);
    forall c
      ensures c in Coords(records) <==>
        c in Coords(Fitting(records, verdicts)) || c in DeadCoords(Unfit(records, verdicts))
    {
      assert c in Coords(records) <==> c in multiset(Coords(records));
    }
  }

  /** The whole account of one write, put together from its parts. */
  lemma WriteCounts(records: seq<IncomingRecord>, verdicts: seq<Mapping>, rows: seq<Stored>, isolated: seq<Dead>,
                    letters: seq<DeadLetter>, pipelineId: string, table: string, ok: bool)
    requires |verdicts| == |records|
    requires Accounted(Fitting(records, verdicts), rows, isolated)
    requires Lettered(Unfit(records, verdicts) + isolated, letters, pipelineId, table, ok)
    ensures OnlyTheirs(records, rows, letters)
    ensures ok ==> Complete(records, rows, letters)
  {
    var unfit := Unfit(records, verdicts);
    DeadSplit(unfit, isolated);
    LetteredCoords(unfit + isolated, letters, pipelineId, table, ok);
    SidesCover(records, verdicts);
    if ok {
      forall r | r in records
        ensures r.coord in Origins(rows) || r.coord in LetterOrigins(letters)
      {
        var i :| 0 <= i < |records| && records[i] == r;
        assert Coords(records)[i] == r.coord;
        if r.coord in Coords(Fitting(records, verdicts)) {
          var j :| 0 <= j < |Fitting(records, verdicts)| && Fitting(records, verdicts)[j].coord == r.coord;
          assert Fitting(records, verdicts)[j] in Fitting(records, verdicts);
        }
      }
    }
  }

  /** When failed inserts are not applied, the account is exact. */
  lemma WriteCountsExactly(records: seq<IncomingRecord>, verdicts: seq<Mapping>, rows: seq<Stored>, isolated: seq<Dead>,
                           pipelineId: string, table: string)
    requires |verdicts| == |records|
    requires ExactlyOnce(Fitting(records, verdicts), rows, isolated)
    ensures
      var letters := Letters(Unfit(records, verdicts) + isolated, pipelineId, table);
      && Conserved(records, rows, letters)
      && LetterOrigins(letters) == DeadCoords(Unfit(records, verdicts)) + DeadCoords(isolated)
      && LetterReasons(letters) == Reasons(Unfit(records, verdicts) + isolated)
  {
    var unfit := Unfit(records, verdicts);
    DeadSplit(unfit, isolated);
    LettersOf(unfit + isolated, pipelineId, table);
    VerdictsSplit(records, verdicts);
  }

  /** Rows first, letters second. */
  lemma RowsThenLetters(s: Store, t: Store, u: Store, table: string, rows: seq<Stored>, letters: seq<DeadLetter>)
    requires Grew(s, t, table, rows, []) && Grew(t, u, table, [], letters)
    ensures Grew(s, u, table, rows, letters)
  {
  }

  lemma NothingThen(s: Store, t: Store, u: Store, table: string, rows: seq<Stored>, letters: seq<DeadLetter>)
    requires Grew(s, t, table, [], []) && Grew(t, u, table, rows, letters)
    ensures Grew(s, u, table, rows, letters)
  {
  }

  /** Everything Settle promises, from what its two inserts did. */
  lemma SettleAccount(records: seq<IncomingRecord>, verdicts: seq<Mapping>, written: nat, isolated: seq<Dead>,
                      rows: seq<Stored>, letters: seq<DeadLetter>, pipelineId: string, table: string,
                      ok: bool, exact: bool, byRow: bool, accepts: Row -> bool)
    requires |verdicts| == |records|
    requires written + |isolated| == |Fitting(records, verdicts)|
    requires Accounted(Fitting(records, verdicts), rows, isolated)
    requires Lettered(Unfit(records, verdicts) + isolated, letters, pipelineId, table, ok)
    requires exact ==> ExactlyOnce(Fitting(records, verdicts), rows, isolated) && written == |rows|
    requires exact && ok ==> letters == Letters(Unfit(records, verdicts) + isolated, pipelineId, table)
    requires byRow ==> exact && SplitByRow(FittingRows(records, verdicts), accepts, rows, isolated)
    ensures OnlyTheirs(records, rows, letters)
    ensures
      var dead := Unfit(records, verdicts) + isolated;
      var result := WriteResult(written, |dead|, Take(Reasons(dead), ERRORS_KEPT));
      ok ==>
        && Settled(records, verdicts, rows, letters, result)
        && (exact ==> SettledExactly(records, rows, letters, result))
        && (byRow ==> SettledByRow(records, verdicts, accepts, rows, letters))
  {
    FittingCoords(records, verdicts);
    WriteCounts(records, verdicts, rows, isolated, letters, pipelineId, table, ok);
    if exact {
      WriteCountsExactly(records, verdicts, rows, isolated, pipelineId, table);
    }
  }

  lemma NothingToWrite(keep: seq<IncomingRecord>, rows: seq<Stored>, accepts: Row -> bool)
    requires keep == [] && rows == []
    ensures Accounted(keep, [], []) && ExactlyOnce(keep, [], []) && SplitByRow(rows, accepts, [], [])
  {
  }

  lemma NothingInserted(s: Store, table: string, keep: seq<IncomingRecord>, rows: seq<Stored>, config: PipelineConfig,
                        parse: string -> Option<Float>, now: real, accepts: Row -> bool)
    requires AllMappedBy(keep, rows, config, parse, now) && rows == []
    ensures keep == [] && Grew(s, s, table, [], [])
    ensures Accounted(keep, [], []) && ExactlyOnce(keep, [], []) && SplitByRow(rows, accepts, [], [])
    ensures RowsFrom(keep, [], config, parse, now) && FailedFrom(keep, [])
  {
    NothingToWrite(keep, rows, accepts);
  }

  /** The batch insert went through: after n applications, one if a raise means not
      applied. */
  lemma BatchInserted(keep: seq<IncomingRecord>, rows: seq<Stored>, n: nat, config: PipelineConfig,
                      parse: string -> Option<Float>, now: real, accepts: Row -> bool, exact: bool, byRow: bool)
    requires AllMappedBy(keep, rows, config, parse, now) && n >= 1
    requires (exact ==> n == 1) && (byRow ==> exact && AllAcceptable(accepts, rows))
    ensures |keep| == |rows|
    ensures Accounted(keep, Repeat(rows, n), [])
    ensures RowsFrom(keep, Repeat(rows, n), config, parse, now) && FailedFrom(keep, [])
    ensures exact ==> ExactlyOnce(keep, Repeat(rows, n), []) && |Repeat(rows, n)| == |rows|
    ensures byRow ==> SplitByRow(rows, accepts, Repeat(rows, n), [])
  {
    hide MappedBy;
    RepeatOnce(rows);
    SameOrigins(keep, rows, config, parse, now);
    BatchAccounted(keep, rows, n);
    RepeatFrom(keep, rows, n, config, parse, now);
    if byRow {
      AllAreAcceptable(rows, accepts);
      RowsAreOriginal(rows);
    }
  }

  lemma RepeatFrom(keep: seq<IncomingRecord>, rows: seq<Stored>, n: nat, config: PipelineConfig,
                   parse: string -> Option<Float>, now: real)
    requires AllMappedBy(keep, rows, config, parse, now)
    ensures RowsFrom(keep, Repeat(rows, n), config, parse, now)
  {
    hide MappedBy, StemsFrom;
    MappedRowsFrom(keep, rows, config, parse, now);
    RepeatKeeps(rows, n);
  }

  /** The batch insert failed, perhaps after n applications, and the records were inserted
      one by one. */
  lemma BatchIsolated(keep: seq<IncomingRecord>, rows: seq<Stored>, n: nat, more: seq<Stored>, isolated: seq<Dead>,
                      config: PipelineConfig, parse: string -> Option<Float>, now: real, later: real)
    requires AllMappedBy(keep, rows, config, parse, now) && now <= later
    requires Accounted(keep, more, isolated) && RowsFrom(keep, more, config, parse, later)
    ensures Accounted(keep, Repeat(rows, n) + more, isolated)
    ensures RowsFrom(keep, Repeat(rows, n) + more, config, parse, later)
    ensures n == 0 ==> Repeat(rows, n) + more == more
  {
    hide MappedBy, StemsFrom;
    SameOrigins(keep, rows, config, parse, now);
    StillAccounted(keep, rows, n, more, isolated);
    RepeatFrom(keep, rows, n, config, parse, now);
    RowsFromLater(keep, Repeat(rows, n), config, parse, now, later);
  }

  /** What became of a batch: the outcome, what was added to the pipeline's table and to the
      dead letters, and how each record was judged, and when. */
  datatype Writing = Writing(outcome: WriteOutcome, rows: seq<Stored>, letters: seq<DeadLetter>,
                             verdicts: seq<Mapping>, times: seq<(real, real)>)

  /** What `write` promises. */
  ghost predicate Wrote(config: PipelineConfig, records: seq<IncomingRecord>, s: Store, t: Store, w: Writing,
                        parse: string -> Option<Float>, now: real, mode: Mode, accepts: Row -> bool)
  {
    // Whatever happens, only this pipeline's table and the dead-letter table grow, with
    // this batch's records: every row holds what its record was mapped to, every letter its
    // record's payload and the reason.
    && Grew(s, t, TableOf(config), w.rows, w.letters)
    && OnlyTheirs(records, w.rows, w.letters)
    && Judged(records, w.verdicts, w.times, config, parse, now)
    && RowsFrom(records, w.rows, config, parse, now)
    && LettersFrom(records, w.verdicts, w.letters, config.pipelineId, TableOf(config))
    // What escapes, exactly.
    && (w.outcome == Raised(InvalidName) <==> Identifies(config).None?)
    && (w.outcome == Raised(MappingOverflow) <==> exists i :: 0 <= i < |w.verdicts| && w.verdicts[i].Overflowed?)
    && (w.outcome.Raised? && w.outcome.escape != ServerError ==> w.rows == [] && w.letters == [])
    && (mode.ByRow? ==> w.outcome != Raised(ServerError))
    // A write that returns.
    && (w.outcome.Returned? ==>
          && Settled(records, w.verdicts, w.rows, w.letters, w.outcome.result)
          && (!mode.Ambiguous? ==> SettledExactly(records, w.rows, w.letters, w.outcome.result))
          && (mode.ByRow? ==> SettledByRow(records, w.verdicts, accepts, w.rows, w.letters)))
  }

  /** A write that raised before anything was inserted. */
  lemma WroteNothing(config: PipelineConfig, records: seq<IncomingRecord>, s: Store, t: Store, escape: Escape,
                     verdicts: seq<Mapping>, times: seq<(real, real)>,
                     parse: string -> Option<Float>, now: real, mode: Mode, accepts: Row -> bool)
    requires Grew(s, t, TableOf(config), [], [])
    requires Judged(records, verdicts, times, config, parse, now)
    requires escape == InvalidName <==> Identifies(config).None?
    requires escape == MappingOverflow <==> exists i :: 0 <= i < |verdicts| && verdicts[i].Overflowed?
    requires mode.ByRow? ==> escape != ServerError
    ensures Wrote(config, records, s, t, Writing(Raised(escape), [], [], verdicts, times), parse, now, mode, accepts)
  {
  }

  class ClickHouseSink {
    const server: Server
    const manager: Manager
    const clock: Clock
    const parse: string -> Option<Float>
    var knownTables: set<string>

    constructor (manager: Manager, clock: Clock, parse: string -> Option<Float>)
      ensures this.manager == manager && this.server == manager.server && this.clock == clock && this.parse == parse
      ensures knownTables == {}
    {
      this.manager, this.server, this.clock, this.parse := manager, manager.server, clock, parse;
      knownTables := {};
    }

    ghost predicate Valid()
    {
      server == manager.server
    }

    /** Creates the table unless this process already did. */
    method EnsureTable(table: string) returns (ok: bool)
      requires Valid()
      modifies this, manager, server
      ensures Grew(old(server.store), server.store, table, [], [])
      ensures table in old(knownTables) ==> ok && server.store == old(server.store)
      ensures ok && table !in old(knownTables) ==> table in server.store.tables
      ensures server.mode.ByRow? ==> ok
      ensures knownTables == if ok then old(knownTables) + {table} else old(knownTables)
    {
      if table in knownTables {
        return true;
      }
      var outcome, outcomes, sleeps, applied := manager.Execute(CreateTable(table));
      AppliedCreate(old(server.store), table, applied);
      ok := outcome.Done?;
      if ok {
        knownTables := knownTables + {table};
      }
    }

    method MapOne(record: IncomingRecord, config: PipelineConfig)
        returns (mapping: Mapping, now: real, ingestedAt: real)
      modifies clock
      ensures old(clock.now) <= now <= ingestedAt == clock.now
      ensures mapping == ToRow(record.value, config, parse, now, ingestedAt)
    {
      now := clock.Now();
      ingestedAt := clock.Now();
      mapping := ToRow(record.value, config, parse, now, ingestedAt);
    }

    /** One record's own insert, on the isolation path. */
    method InsertOne(table: string, config: PipelineConfig, record: IncomingRecord, ghost row0: Stored)
        returns (inserted: bool, reason: Reason, ghost added: seq<Stored>)
      requires Valid()
      requires MappedBy(record, row0.row, config, parse, clock.now)
      modifies manager, server, clock
      ensures clock.now >= old(clock.now)
      ensures Grew(old(server.store), server.store, table, added, [])
      ensures forall a :: a in added ==> a.origin == record.coord && MappedBy(record, a.row, config, parse, clock.now)
      ensures reason == InsertFailed
      ensures inserted ==> added != []
      ensures !server.mode.Ambiguous? ==> |added| == if inserted then 1 else 0
      ensures server.mode.ByRow? ==>
        && inserted == Accepted(server.accepts, row0.row)
        && (inserted ==> SameButIngestion(added[0].row, row0.row))
    {
      hide MappedBy, ToRow;
      ghost var earlier := clock.now;
      var mapping, now, ingestedAt := MapOne(record, config);
      // Accepted once, accepted again: this cannot raise RecordError.
      MappedAgain(record, row0.row, config, parse, earlier, now, ingestedAt);
      SameAcceptance(row0.row, mapping.row, server.accepts);
      ghost var before := server.store;
      var rows := [Stored(mapping.row, record.coord)];
      var outcome, outcomes, sleeps, applied := manager.Execute(Insert(table, rows));
      AppliedInsert(before, table, rows, applied);
      RepeatKeeps(rows, applied);
      RepeatOnce(rows);
      added := Repeat(rows, applied);
      inserted, reason := outcome.Done?, InsertFailed;
      if applied > 0 {
        assert rows[0] in added;
      }
    }

    /** The isolation loop's body. */
    method InsertNext(table: string, config: PipelineConfig, records: seq<IncomingRecord>, ghost rows0: seq<Stored>,
                      i: nat, ghost store0: Store, ghost added: seq<Stored>, failed: seq<Dead>,
                      ghost exact: bool, ghost byRow: bool)
        returns (inserted: bool, failed': seq<Dead>, ghost added': seq<Stored>)
      requires Valid()
      requires i < |records| == |rows0|
      requires Sourced(records, rows0, added, failed, config, parse, clock.now)
      requires exact ==> !server.mode.Ambiguous?
      requires byRow ==> server.mode.ByRow?
      requires Isolated(store0, server.store, table, records, rows0, i, added, failed, exact, byRow, server.accepts)
      modifies manager, server, clock
      ensures clock.now >= old(clock.now)
      ensures Sourced(records, rows0, added', failed', config, parse, clock.now)
      ensures |failed'| == |failed| + if inserted then 0 else 1
      ensures exact ==> |added'| == |added| + if inserted then 1 else 0
      ensures Isolated(store0, server.store, table, records, rows0, i + 1, added', failed', exact, byRow,
                       server.accepts)
    {
      ghost var (before, earlier) := (server.store, clock.now);
      var reason; ghost var more;
      inserted, reason, more := InsertOne(table, config, records[i], rows0[i]);
      var dead := if inserted then [] else [Dead(records[i], reason)];
      SourcedNext(records, rows0, added, failed, config, parse, earlier, clock.now, records[i], more, dead);
      IsolatedNext(store0, before, server.store, table, records, rows0, i, added, failed, more, dead,
                   exact, byRow, server.accepts);
      failed' := failed + dead;
      added' := added + more;
    }

    /** Each record on its own, so that one bad row cannot discard its neighbours. */
    method InsertIndividually(table: string, config: PipelineConfig, records: seq<IncomingRecord>,
                              ghost rows0: seq<Stored>)
        returns (written: nat, failed: seq<Dead>, ghost added: seq<Stored>)
      requires Valid()
      requires AllMappedBy(records, rows0, config, parse, clock.now)
      modifies manager, server, clock
      ensures clock.now >= old(clock.now)
      ensures Grew(old(server.store), server.store, table, added, [])
      ensures written + |failed| == |records|
      ensures Accounted(records, added, failed)
      ensures RowsFrom(records, added, config, parse, clock.now) && FailedFrom(records, failed)
      ensures !server.mode.Ambiguous? ==> ExactlyOnce(records, added, failed) && written == |added|
      ensures server.mode.ByRow? ==> SplitByRow(rows0, server.accepts, added, failed)
    {
      hide MappedBy;
      written, failed, added := 0, [], [];
      ghost var store0 := server.store;
      ghost var exact := !server.mode.Ambiguous?;
      ghost var byRow := server.mode.ByRow?;
      for i := 0 to |records|
        invariant clock.now >= old(clock.now)
        invariant written + |failed| == i
        invariant exact ==> written == |added|
        invariant Sourced(records, rows0, added, failed, config, parse, clock.now)
        invariant Isolated(store0, server.store, table, records, rows0, i, added, failed, exact, byRow, server.accepts)
      {
        var inserted;
        inserted, failed, added := InsertNext(table, config, records, rows0, i, store0, added, failed, exact, byRow);
        written := if inserted then written + 1 else written;
      }
      IsolatedAll(store0, server.store, table, records, rows0, added, failed, exact, byRow, server.accepts);
    }

    /** The mapping loop.  It stops where a mapping overflows: nothing catches that. */
    method MapAll(config: PipelineConfig, records: seq<IncomingRecord>)
        returns (overflow: bool, rows: seq<Stored>, keep: seq<IncomingRecord>, dead: seq<Dead>,
                 ghost verdicts: seq<Mapping>, ghost times: seq<(real, real)>)
      modifies clock
      ensures clock.now >= old(clock.now)
      ensures Judged(records, verdicts, times, config, parse, clock.now)
      ensures overflow <==> exists i :: 0 <= i < |verdicts| && verdicts[i].Overflowed?
      ensures !overflow ==>
        && |verdicts| == |records|
        && rows == FittingRows(records, verdicts)
        && keep == Fitting(records, verdicts)
        && dead == Unfit(records, verdicts)
        && AllMappedBy(keep, rows, config, parse, clock.now)
    {
      overflow, rows, keep, dead, verdicts, times := false, [], [], [], [], [];
      for i := 0 to |records|
        invariant clock.now >= old(clock.now)
        invariant Sorted(records, i, verdicts, times, config, parse, clock.now, rows, keep, dead)
      {
        ghost var earlier := clock.now;
        var mapping, now, ingestedAt := MapOne(records[i], config);
        SortedNext(records, i, verdicts, times, config, parse, earlier, now, ingestedAt, rows, keep, dead);
        verdicts, times := verdicts + [mapping], times + [(now, ingestedAt)];
        match mapping
        case Mapped(row) =>
          rows, keep := rows + [Stored(row, records[i].coord)], keep + [records[i]];
        case Rejected =>
          dead := dead + [Dead(records[i], Unmappable)];
        case Overflowed =>
          overflow := true;
          return;
      }
      assert records[..|records|] == records;
      FittingIsMapped(records, verdicts, times, config, parse, clock.now);
    }

    /** The batch insert and, if it fails, the isolation path. */
    method WriteRows(table: string, config: PipelineConfig, rows: seq<Stored>, keep: seq<IncomingRecord>)
        returns (written: nat, isolated: seq<Dead>, ghost added: seq<Stored>)
      requires Valid()
      requires AllMappedBy(keep, rows, config, parse, clock.now)
      modifies manager, server, clock
      ensures clock.now >= old(clock.now)
      ensures Grew(old(server.store), server.store, table, added, [])
      ensures written + |isolated| == |keep|
      ensures Accounted(keep, added, isolated)
      ensures RowsFrom(keep, added, config, parse, clock.now) && FailedFrom(keep, isolated)
      ensures !server.mode.Ambiguous? ==> ExactlyOnce(keep, added, isolated) && written == |added|
      ensures server.mode.ByRow? ==> SplitByRow(rows, server.accepts, added, isolated)
    {
      hide MappedBy, AllMappedBy, RowsFrom, FailedFrom, Accounted, ExactlyOnce, SplitByRow, Grew, Repeat, AllAcceptable;
      if rows == [] {
        NothingInserted(server.store, table, keep, rows, config, parse, clock.now, server.accepts);
        return 0, [], [];
      }
      ghost var store0 := server.store;
      var outcome, outcomes, sleeps, applied := manager.Execute(Insert(table, rows));
      AppliedInsert(store0, table, rows, applied);
      if outcome.Done? {
        BatchInserted(keep, rows, applied, config, parse, clock.now, server.accepts,
                      !server.mode.Ambiguous?, server.mode.ByRow?);
        return |rows|, [], Repeat(rows, applied);
      }
      ghost var (store1, earlier) := (server.store, clock.now);
      ghost var more;
      written, isolated, more := InsertIndividually(table, config, keep, rows);
      GrewTwice(store0, store1, server.store, table, Repeat(rows, applied), more, [], []);
      added := Repeat(rows, applied) + more;
      BatchIsolated(keep, rows, applied, more, isolated, config, parse, earlier, clock.now);
    }

    method DeadLetterAll(table: string, dead: seq<Dead>, config: PipelineConfig)
        returns (ok: bool, ghost letters: seq<DeadLetter>)
      requires Valid()
      modifies manager, server
      ensures Grew(old(server.store), server.store, table, [], letters)
      ensures Lettered(dead, letters, config.pipelineId, table, ok)
      ensures server.mode.ByRow? ==> ok
      ensures !server.mode.Ambiguous? ==> letters == if ok then Letters(dead, config.pipelineId, table) else []
    {
      if dead == [] {
        return true, [];
      }
      var rows := Letters(dead, config.pipelineId, table);
      ghost var store0 := server.store;
      var outcome, outcomes, sleeps, applied := manager.Execute(InsertDeadLetters(rows));
      AppliedLetters(store0, table, rows, applied);
      RepeatOnce(rows);
      RepeatKeeps(rows, applied);
      ok, letters := outcome.Done?, Repeat(rows, applied);
    }

    /** The second half of write: what the mapping loop left is inserted or dead-lettered. */
    method Settle(table: string, config: PipelineConfig, records: seq<IncomingRecord>, ghost verdicts: seq<Mapping>,
                  fitting: seq<Stored>, keep: seq<IncomingRecord>, unfit: seq<Dead>)
        returns (ok: bool, result: WriteResult, ghost rows: seq<Stored>, ghost letters: seq<DeadLetter>)
      requires Valid()
      requires |verdicts| == |records|
      requires fitting == FittingRows(records, verdicts)
      requires keep == Fitting(records, verdicts)
      requires unfit == Unfit(records, verdicts)
      requires AllMappedBy(keep, fitting, config, parse, clock.now)
      modifies manager, server, clock
      ensures clock.now >= old(clock.now)
      ensures Grew(old(server.store), server.store, table, rows, letters)
      ensures OnlyTheirs(records, rows, letters)
      ensures RowsFrom(records, rows, config, parse, clock.now)
      ensures LettersFrom(records, verdicts, letters, config.pipelineId, table)
      ensures server.mode.ByRow? ==> ok
      ensures ok ==> Settled(records, verdicts, rows, letters, result)
      ensures ok && !server.mode.Ambiguous? ==> SettledExactly(records, rows, letters, result)
      ensures ok && server.mode.ByRow? ==>
        SettledByRow(records, verdicts, server.accepts, rows, letters)
    {
      ghost var store0 := server.store;
      var written, isolated;
      written, isolated, rows := WriteRows(table, config, fitting, keep);
      ghost var store1 := server.store;
      var dead := unfit + isolated;
      ok, letters := DeadLetterAll(table, dead, config);
      RowsThenLetters(store0, store1, server.store, table, rows, letters);
      SettleAccount(records, verdicts, written, isolated, rows, letters, config.pipelineId, table, ok,
                    !server.mode.Ambiguous?, server.mode.ByRow?, server.accepts);
      AllRowsFrom(records, verdicts, rows, config, parse, clock.now);
      AllLettersFrom(records, verdicts, isolated, letters, config.pipelineId, table, ok);
      result := WriteResult(written, |dead|, Take(Reasons(dead), ERRORS_KEPT));
    }

    /** Inserts a batch; `w` says what became of it. */
    method Write(config: PipelineConfig, records: seq<IncomingRecord>) returns (outcome: WriteOutcome, ghost w: Writing)
      requires Valid()
      modifies this, manager, server, clock
      ensures w.outcome == outcome
      ensures Wrote(config, records, old(server.store), server.store, w, parse, clock.now, server.mode, server.accepts)
    {
      hide MappedBy, ToRow, Judged, RowsFrom, LettersFrom, OnlyTheirs, Settled, SettledExactly, SettledByRow;
      match Identifies(config)
      case None =>
        WroteNothing(config, records, server.store, server.store, InvalidName, [], [], parse, clock.now, server.mode,
                     server.accepts);
        return Raised(InvalidName), Writing(Raised(InvalidName), [], [], [], []);
      case Some(table) =>
        ghost var store0 := server.store;
        var ok := EnsureTable(table);
        if !ok {
          WroteNothing(config, records, store0, server.store, ServerError, [], [], parse, clock.now, server.mode,
                       server.accepts);
          return Raised(ServerError), Writing(Raised(ServerError), [], [], [], []);
        }
        ghost var store1 := server.store;
        var overflow, fitting, keep, unfit; ghost var verdicts, times;
        overflow, fitting, keep, unfit, verdicts, times := MapAll(config, records);
        if overflow {
          GrewTwice(store0, store1, server.store, table, [], [], [], []);
          WroteNothing(config, records, store0, server.store, MappingOverflow, verdicts, times,
                       parse, clock.now, server.mode, server.accepts);
          return Raised(MappingOverflow), Writing(Raised(MappingOverflow), [], [], verdicts, times);
        }
        ghost var (store2, earlier) := (server.store, clock.now);
        var result; ghost var rows, letters;
        ok, result, rows, letters := Settle(table, config, records, verdicts, fitting, keep, unfit);
        NothingThen(store0, store2, server.store, table, rows, letters);
        JudgedLater(records, verdicts, times, config, parse, earlier, clock.now);
        outcome := if ok then Returned(result) else Raised(ServerError);
        w := Writing(outcome, rows, letters, verdicts, times);
    }
  }
}
