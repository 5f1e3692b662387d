/**
 * What every chunk worker shares: the records it scans, the ways a chunk can end,
 * the range scan with its running 1-based counter, and a reference description of
 * the rows a chunk writes (the accepted records of its window, in source order).
 */
module Chunk {
  import opened Base
  import opened JavaLib
  import opened Sink

  /** A CSV record after the header line: its fields by column number. */
  type Record = seq<string>

  /** The exceptions that end a chunk. */
  datatype ChunkError =
    | IoError           // the input file cannot be opened or read
    | SqlError          // a statement on the sink throws
    | IndexOutOfBounds  // `CSVRecord.get(k)` on a record with too few fields
    | NumberFormat      // `Integer.parseInt`
    | DateTimeParse     // `LocalDate.parse`
    | IllegalArgument   // `AccountType.valueOf` on an unknown name
    | DecryptionError   // the text encryptor cannot decrypt

  /** The workers catch SQLException and IOException; everything else escapes `execute`. */
  predicate Caught(e: ChunkError)
  {
    e == IoError || e == SqlError
  }

  /** How a chunk ended: after its last in-range record, or by an exception. */
  datatype Outcome = Finished | Aborted(error: ChunkError)

  datatype ChunkResult = ChunkResult(db: Db, outcome: Outcome)

  /** `record.get(k)`. */
  function Field(r: Record, k: nat): (f: Result<string, ChunkError>)
    ensures f.Success? <==> k < |r|
    ensures f.Success? ==> f.value == r[k]
  {
    if k < |r| then Success(r[k]) else Failure(IndexOutOfBounds)
  }

  /** `Integer.parseInt(record.get(k))`. */
  function IntField(r: Record, k: nat): (f: Result<int, ChunkError>)
    ensures f.Success? <==> k < |r| && ParseInt(r[k]).Some?
    ensures f.Success? ==> f.value == ParseInt(r[k]).value
  {
    var s :- Field(r, k);
    match ParseInt(s)
    case None => Failure(NumberFormat)
    case Some(v) => Success(v)
  }

  /** `LocalDate.parse(record.get(k))`. */
  function DateField(r: Record, k: nat): (f: Result<Date, ChunkError>)
    ensures f.Success? <==> k < |r| && ParseDate(r[k]).Some?
    ensures f.Success? ==> f.value == ParseDate(r[k]).value
  {
    var s :- Field(r, k);
    match ParseDate(s)
    case None => Failure(DateTimeParse)
    case Some(d) => Success(d)
  }

  /** What handling one in-range record does: go on with a (possibly updated) state, or end the chunk. */
  datatype Step = Next(db: Db) | Stop(error: ChunkError)

  /**
   * The scan loop from record index i (record number i + 1): records numbered below
   * `start` are skipped, the first one numbered above `end` ends the chunk, and every
   * record in between is handed to `step`.
   */
  function ScanFrom(recs: seq<Record>, i: nat, start: int, end: int, db: Db, step: (Record, Db) -> Step): ChunkResult
    requires i <= |recs|
    decreases |recs| - i
  {
    if i == |recs| then ChunkResult(db, Finished)
    else if i + 1 < start then ScanFrom(recs, i + 1, start, end, db, step)
    else if i + 1 > end then ChunkResult(db, Finished)
    else match step(recs[i], db)
      case Next(db') => ScanFrom(recs, i + 1, start, end, db', step)
      case Stop(e) => ChunkResult(db, Aborted(e))
  }

  /** A whole chunk: opening the file may fail with an IOException before any record is read. */
  function RunChunk(file: Option<seq<Record>>, start: int, end: int, db: Db, step: (Record, Db) -> Step): ChunkResult
  {
    match file
    case None => ChunkResult(db, Aborted(IoError))
    case Some(recs) => ScanFrom(recs, 0, start, end, db, step)
  }

  // ---------------------------------------------------------------------------
  // The window of a chunk and the rows it should write

  /** The index of the first record a chunk starting at record number `start` handles. */
  function Lo(start: int): nat
  {
    if start <= 1 then 0 else start - 1
  }

  /** The in-range records at index i or later, in source order. */
  function Pending(recs: seq<Record>, i: nat, start: int, end: int): seq<Record>
  {
    var a := Max(i, Lo(start));
    var b := Min(|recs|, end);
    if a < b then recs[a..b] else []
  }

  /** The records numbered `start` to `end` that the file has. */
  function Window(recs: seq<Record>, start: int, end: int): seq<Record>
  {
    Pending(recs, 0, start, end)
  }

  /** The window holds, in order, exactly the records numbered from max(start, 1) to min(end, |recs|). */
  lemma WindowAt(recs: seq<Record>, start: int, end: int)
    ensures var w := Window(recs, start, end);
      |w| == Max(0, Min(|recs|, end) - Lo(start)) &&
      forall j :: 0 <= j < |w| ==> start <= Lo(start) + j + 1 <= end && Lo(start) + j < |recs| && w[j] == recs[Lo(start) + j]
  {
  }

  /** A chunk handles at most `end - start + 1` records. */
  lemma WindowBound(recs: seq<Record>, start: int, end: int)
    requires 1 <= start
    ensures |Window(recs, start, end)| <= Max(0, end - start + 1)
  {
  }

  /** The verdict on one record when the sink does not fail: its row, a skip, or an exception. */
  datatype Verdict<T> = Accept(row: T) | Reject | Crash(error: ChunkError)

  /** The rows of the accepted records, in order, up to the first record that throws. */
  function Accepted<T>(ws: seq<Record>, classify: Record -> Verdict<T>): (rows: seq<T>)
    ensures |rows| <= |ws|
  {
    if ws == [] then []
    else match classify(ws[0])
      case Accept(row) => [row] + Accepted(ws[1..], classify)
      case Reject => Accepted(ws[1..], classify)
      case Crash(_) => []
  }

  /** The exception of the first record that throws, if any. */
  function FirstCrash<T>(ws: seq<Record>, classify: Record -> Verdict<T>): Option<ChunkError>
  {
    if ws == [] then None
    else match classify(ws[0])
      case Crash(e) => Some(e)
      case _ => FirstCrash(ws[1..], classify)
  }

  /** Committing a sequence of rows one after the other. */
  function AddAll<T>(db: Db, rows: seq<T>, add: (Db, T) -> Db): Db
    decreases |rows|
  {
    if rows == [] then db else AddAll(add(db, rows[0]), rows[1..], add)
  }

  /** The step a worker takes on a record with verdict v when the sink does not fail. */
  function Clean<T>(v: Verdict<T>, db: Db, add: (Db, T) -> Db): Step
  {
    match v
    case Accept(row) => Next(add(db, row))
    case Reject => Next(db)
    case Crash(e) => Stop(e)
  }

  /** A worker's step agrees with the verdict, except that a statement on the sink may throw. */
  predicate Refines<T>(s: Step, v: Verdict<T>, db: Db, add: (Db, T) -> Db)
  {
    s == Clean(v, db, add) || s == Stop(SqlError)
  }

  lemma {:induction false} AddAllAppend<T>(db: Db, rows: seq<T>, row: T, add: (Db, T) -> Db)
    ensures AddAll(db, rows + [row], add) == add(AddAll(db, rows, add), row)
    decreases |rows|
  {
    if rows != [] {
      assert (rows + [row])[1..] == rows[1..] + [row];
      AddAllAppend(add(db, rows[0]), rows[1..], row, add);
    }
  }

  lemma PendingStep(recs: seq<Record>, i: nat, start: int, end: int)
    requires i < |recs| && start <= i + 1 <= end
    ensures Pending(recs, i, start, end) == [recs[i]] + Pending(recs, i + 1, start, end)
  {
  }

  /** How `Accepted` and `FirstCrash` unfold on a window with a first record. */
  lemma AcceptedCons<T>(x: Record, rest: seq<Record>, classify: Record -> Verdict<T>)
    ensures classify(x).Accept? ==> Accepted([x] + rest, classify) == [classify(x).row] + Accepted(rest, classify)
    ensures classify(x).Reject? ==> Accepted([x] + rest, classify) == Accepted(rest, classify)
    ensures classify(x).Crash? ==> Accepted([x] + rest, classify) == []
    ensures FirstCrash([x] + rest, classify) ==
      if classify(x).Crash? then Some(classify(x).error) else FirstCrash(rest, classify)
  {
    assert ([x] + rest)[0] == x && ([x] + rest)[1..] == rest;
  }

  /**
   * Soundness of a chunk: it writes a prefix of the accepted rows of its window, in
   * order, and when it finishes normally it wrote all of them and no record threw.
   * `inv` is what the sink keeps across commits and what `step` agrees with `classify` under.
   */
  lemma {:induction false} ScanWritesAccepted<T>(recs: seq<Record>, i: nat, start: int, end: int, db: Db,
                                                 step: (Record, Db) -> Step, classify: Record -> Verdict<T>,
                                                 add: (Db, T) -> Db, inv: Db -> bool)
    returns (w: seq<T>)
    requires i <= |recs| && inv(db)
    requires forall d, t :: inv(d) ==> inv(add(d, t))
    requires forall r, d :: inv(d) ==> Refines(step(r, d), classify(r), d, add)
    ensures w <= Accepted(Pending(recs, i, start, end), classify)
    ensures ScanFrom(recs, i, start, end, db, step).db == AddAll(db, w, add)
    ensures ScanFrom(recs, i, start, end, db, step).outcome == Finished ==>
      w == Accepted(Pending(recs, i, start, end), classify) && FirstCrash(Pending(recs, i, start, end), classify) == None
    decreases |recs| - i, 1
  {
    if i == |recs| || (i + 1 > end && i + 1 >= start) {
      assert Pending(recs, i, start, end) == [];
      w := [];
    } else if i + 1 < start {
      assert Pending(recs, i + 1, start, end) == Pending(recs, i, start, end);
      w := ScanWritesAccepted(recs, i + 1, start, end, db, step, classify, add, inv);
    } else {
      w := ScanWritesAcceptedStep(recs, i, start, end, db, step, classify, add, inv);
    }
  }

  /** The in-range case of ScanWritesAccepted. */
  lemma {:induction false} ScanWritesAcceptedStep<T>(recs: seq<Record>, i: nat, start: int, end: int, db: Db,
                                                     step: (Record, Db) -> Step, classify: Record -> Verdict<T>,
                                                     add: (Db, T) -> Db, inv: Db -> bool)
    returns (w: seq<T>)
    requires i < |recs| && start <= i + 1 <= end && inv(db)
    requires forall d, t :: inv(d) ==> inv(add(d, t))
    requires forall r, d :: inv(d) ==> Refines(step(r, d), classify(r), d, add)
    ensures w <= Accepted(Pending(recs, i, start, end), classify)
    ensures ScanFrom(recs, i, start, end, db, step).db == AddAll(db, w, add)
    ensures ScanFrom(recs, i, start, end, db, step).outcome == Finished ==>
      w == Accepted(Pending(recs, i, start, end), classify) && FirstCrash(Pending(recs, i, start, end), classify) == None
    decreases |recs| - i, 0
  {
    PendingStep(recs, i, start, end);
    var s := step(recs[i], db);
    assert Refines(s, classify(recs[i]), db, add);
    if s.Stop? {
      assert ScanFrom(recs, i, start, end, db, step) == ChunkResult(db, Aborted(s.error));
      w := [];
    } else {
      assert ScanFrom(recs, i, start, end, db, step) == ScanFrom(recs, i + 1, start, end, s.db, step);
      var w' := ScanWritesAccepted(recs, i + 1, start, end, s.db, step, classify, add, inv);
      w := AcceptedPrepend(recs[i], Pending(recs, i + 1, start, end), w', classify);
    }
  }

  /** Extending a prefix of the accepted rows of `rest` by the verdict on the record before it. */
  lemma AcceptedPrepend<T>(x: Record, rest: seq<Record>, w': seq<T>, classify: Record -> Verdict<T>)
    returns (w: seq<T>)
    requires !classify(x).Crash? && w' <= Accepted(rest, classify)
    ensures w == if classify(x).Accept? then [classify(x).row] + w' else w'
    ensures w <= Accepted([x] + rest, classify)
    ensures w' == Accepted(rest, classify) && FirstCrash(rest, classify) == None ==>
      w == Accepted([x] + rest, classify) && FirstCrash([x] + rest, classify) == None
  {
    AcceptedCons(x, rest, classify);
    if classify(x).Accept? {
      w := [classify(x).row] + w';
    } else {
      w := w';
    }
  }

  /** Every accepted row is the row of some record whose verdict carries a property P. */
  lemma {:induction false} AcceptedSatisfies<T>(ws: seq<Record>, classify: Record -> Verdict<T>, P: T -> bool)
    requires forall r :: classify(r).Accept? ==> P(classify(r).row)
    ensures forall row :: row in Accepted(ws, classify) ==> P(row)
    decreases |ws|
  {
    if ws != [] {
      AcceptedSatisfies(ws[1..], classify, P);
    }
  }

  /** When the sink never fails, a chunk writes exactly the accepted rows and ends at the first record that throws. */
  lemma {:induction false} ScanWithoutFaults<T>(recs: seq<Record>, i: nat, start: int, end: int, db: Db,
                                                step: (Record, Db) -> Step, classify: Record -> Verdict<T>,
                                                add: (Db, T) -> Db, inv: Db -> bool)
    requires i <= |recs| && inv(db)
    requires forall d, t :: inv(d) ==> inv(add(d, t))
    requires forall r, d :: inv(d) ==> step(r, d) == Clean(classify(r), d, add)
    ensures var pend := Pending(recs, i, start, end);
      ScanFrom(recs, i, start, end, db, step) ==
        ChunkResult(AddAll(db, Accepted(pend, classify), add),
                    match FirstCrash(pend, classify) case None => Finished case Some(e) => Aborted(e))
    decreases |recs| - i
  {
    var pend := Pending(recs, i, start, end);
    if i == |recs| || (i + 1 > end && i + 1 >= start) {
      assert pend == [];
    } else if i + 1 < start {
      assert Pending(recs, i + 1, start, end) == pend;
      ScanWithoutFaults(recs, i + 1, start, end, db, step, classify, add, inv);
    } else {
      PendingStep(recs, i, start, end);
      var rest := Pending(recs, i + 1, start, end);
      assert pend[0] == recs[i] && pend[1..] == rest;
      match classify(recs[i])
      case Accept(row) =>
        ScanWithoutFaults(recs, i + 1, start, end, add(db, row), step, classify, add, inv);
        assert Accepted(pend, classify) == [row] + Accepted(rest, classify);
        assert ([row] + Accepted(rest, classify))[1..] == Accepted(rest, classify);
      case Reject =>
        ScanWithoutFaults(recs, i + 1, start, end, db, step, classify, add, inv);
      case Crash(e) =>
    }
  }

  // ---------------------------------------------------------------------------
  // Chunks are only a partitioning device

  lemma {:induction false} SkipPrefix(recs: seq<Record>, j: nat, start: int, end: int, db: Db, step: (Record, Db) -> Step)
    requires j <= |recs| && j + 1 <= start
    ensures ScanFrom(recs, 0, start, end, db, step) == ScanFrom(recs, j, start, end, db, step)
    decreases j
  {
    if j > 0 {
      SkipPrefix(recs, j - 1, start, end, db, step);
    }
  }

  lemma {:induction false} StartIrrelevant(recs: seq<Record>, j: nat, a: int, a': int, end: int, db: Db, step: (Record, Db) -> Step)
    requires j <= |recs| && a <= j + 1 && a' <= j + 1
    ensures ScanFrom(recs, j, a, end, db, step) == ScanFrom(recs, j, a', end, db, step)
    decreases |recs| - j
  {
    if j < |recs| && j + 1 <= end {
      match step(recs[j], db)
      case Next(d') => StartIrrelevant(recs, j + 1, a, a', end, d', step);
      case Stop(_) =>
    }
  }

  /**
   * Running the chunk [a, b] and then, if it finished normally, the chunk [b + 1, c]
   * on the state it left, is the same as running the single chunk [a, c].
   */
  lemma {:induction false} ChunksCompose(recs: seq<Record>, i: nat, a: int, b: int, c: int, db: Db, step: (Record, Db) -> Step)
    requires i <= |recs| && i <= b && a <= b + 1 && b < c
    requires ScanFrom(recs, i, a, b, db, step).outcome == Finished
    ensures ScanFrom(recs, i, a, c, db, step) ==
            ScanFrom(recs, 0, b + 1, c, ScanFrom(recs, i, a, b, db, step).db, step)
    decreases |recs| - i
  {
    if i == |recs| {
      SkipPrefix(recs, i, b + 1, c, db, step);
    } else if i + 1 < a {
      ChunksCompose(recs, i + 1, a, b, c, db, step);
    } else if i + 1 > b {
      SkipPrefix(recs, i, b + 1, c, db, step);
      StartIrrelevant(recs, i, a, b + 1, c, db, step);
    } else {
      match step(recs[i], db)
      case Next(d') => ChunksCompose(recs, i + 1, a, b, c, d', step);
      case Stop(_) =>
    }
  }
}
