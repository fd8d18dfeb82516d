/** The chunked bulk upsert of the Postgres writer, against upserting the records one at a time. */
module BulkUpsert {
  import opened Wrappers
  import opened Json
  import opened SkillMarkdown

  type Table = map<(string, string), Dict>

  /** `str(value)`, given by the caller. */
  type Str = Json -> string

  /** The first id field whose text is not blank, stripped. */
  function ExtractRowId(str: Str, data: Dict, fields: seq<string>): (r: Option<string>)
    ensures r.Some? ==> r.value != ""
  {
    if fields == [] then None
    else
      var value := if fields[0] in data then data[fields[0]] else JNull;
      var text := Strip(str(value));
      if !value.JNull? && text != "" then Some(text) else ExtractRowId(str, data, fields[1..])
  }

  /** What a field offers as an id; blank if it offers none. */
  function IdText(str: Str, data: Dict, field: string): string {
    if field in data && !data[field].JNull? then Strip(str(data[field])) else ""
  }

  /** The id is the first text that is not blank, in the order of the fields; there is none when all are blank. */
  lemma {:induction false} RowIdIsFirst(str: Str, data: Dict, fields: seq<string>, i: nat)
    requires i <= |fields| && forall k | 0 <= k < i :: IdText(str, data, fields[k]) == ""
    requires i < |fields| ==> IdText(str, data, fields[i]) != ""
    ensures ExtractRowId(str, data, fields) == (if i == |fields| then None else Some(IdText(str, data, fields[i])))
    decreases |fields|
  {
    if i > 0 {
      assert forall k | 0 <= k < i - 1 :: fields[1..][k] == fields[k + 1];
      assert IdText(str, data, fields[0]) == "";
      RowIdIsFirst(str, data, fields[1..], i - 1);
    }
  }

  function Payload(record: Dict): Dict {
    record - {"_id"}
  }

  /** One record upserted by itself; a record without an id is left out. */
  function Upsert(str: Str, t: Table, index: string, fields: seq<string>, record: Dict): Table {
    var id := ExtractRowId(str, record, fields);
    if id.None? then t else t[(index, id.value) := Payload(record)]
  }

  ghost function UpsertAll(str: Str, t: Table, index: string, fields: seq<string>, records: seq<Dict>): Table
    decreases |records|
  {
    if records == [] then t
    else UpsertAll(str, Upsert(str, t, index, fields, records[0]), index, fields, records[1..])
  }

  /** The rows a batch sends: those of its records that have an id, in order. */
  datatype Row = Row(index: string, id: string, payload: Dict)

  ghost function Rows(str: Str, index: string, fields: seq<string>, records: seq<Dict>): seq<Row> {
    if records == [] then []
    else
      var id := ExtractRowId(str, records[0], fields);
      (if id.None? then [] else [Row(index, id.value, Payload(records[0]))]) + Rows(str, index, fields, records[1..])
  }

  function Write(t: Table, rows: seq<Row>): Table
    decreases |rows|
  {
    if rows == [] then t else Write(t[(rows[0].index, rows[0].id) := rows[0].payload], rows[1..])
  }

  datatype Counts = Counts(success: nat, fail: nat)

  // ---------------------------------------------------------------- chunks

  /** `_chunked`: consecutive slices of `size`, the last one possibly shorter. */
  ghost function Chunks(records: seq<Dict>, size: nat): seq<seq<Dict>>
    requires size > 0
    decreases |records|
  {
    if records == [] then []
    else if |records| <= size then [records]
    else [records[..size]] + Chunks(records[size..], size)
  }

  ghost function Flatten(chunks: seq<seq<Dict>>): seq<Dict> {
    if chunks == [] then [] else chunks[0] + Flatten(chunks[1..])
  }

  /** The chunks put together are the records, each chunk but the last is full, and none is empty. */
  lemma {:induction false} ChunksConcatenate(records: seq<Dict>, size: nat)
    requires size > 0
    ensures var chunks := Chunks(records, size);
            && Flatten(chunks) == records
            && (forall i | 0 <= i < |chunks| :: 0 < |chunks[i]| <= size)
            && (forall i | 0 <= i < |chunks| - 1 :: |chunks[i]| == size)
    decreases |records|
  {
    if records != [] && |records| <= size {
      assert [records][1..] == [] && records + [] == records;
    } else if records != [] {
      ChunksConcatenate(records[size..], size);
      var chunks := Chunks(records, size);
      assert chunks[1..] == Chunks(records[size..], size);
      assert records == records[..size] + records[size..];
    }
  }

  /** The records of the batches whose transaction commits; a batch without rows opens none. */
  ghost function Committed(chunks: seq<seq<Dict>>, commits: nat -> bool, from: nat): seq<Dict> {
    if chunks == [] then []
    else (if commits(from) then chunks[0] else []) + Committed(chunks[1..], commits, from + 1)
  }

  /** A batch's records are committed exactly when its transaction is, whatever the others do. */
  lemma {:induction false} CommittedPieces(before: seq<seq<Dict>>, chunk: seq<Dict>, after: seq<seq<Dict>>, commits: nat -> bool, from: nat)
    ensures Committed(before + [chunk] + after, commits, from)
         == Committed(before, commits, from) + (if commits(from + |before|) then chunk else [])
            + Committed(after, commits, from + |before| + 1)
    decreases |before|
  {
    if before == [] {
      assert ([] + [chunk] + after)[1..] == after;
    } else {
      assert (before + [chunk] + after)[1..] == before[1..] + [chunk] + after;
      CommittedPieces(before[1..], chunk, after, commits, from + 1);
    }
  }

  // ---------------------------------------------------------------- folds over pieces

  lemma {:induction false} UpsertPieces(str: Str, t: Table, index: string, fields: seq<string>, a: seq<Dict>, b: seq<Dict>)
    ensures UpsertAll(str, t, index, fields, a + b) == UpsertAll(str, UpsertAll(str, t, index, fields, a), index, fields, b)
    ensures Rows(str, index, fields, a + b) == Rows(str, index, fields, a) + Rows(str, index, fields, b)
    decreases |a|
  {
    if a == [] {
      assert a + b == b;
    } else {
      assert (a + b)[1..] == a[1..] + b;
      UpsertPieces(str, Upsert(str, t, index, fields, a[0]), index, fields, a[1..], b);
    }
  }

  /** Sending the rows of a batch is upserting its records one at a time. */
  lemma {:induction false} WriteIsUpsertAll(str: Str, t: Table, index: string, fields: seq<string>, records: seq<Dict>)
    ensures Write(t, Rows(str, index, fields, records)) == UpsertAll(str, t, index, fields, records)
    decreases |records|
  {
    if records != [] {
      var rows, rest := Rows(str, index, fields, records), Rows(str, index, fields, records[1..]);
      WriteIsUpsertAll(str, Upsert(str, t, index, fields, records[0]), index, fields, records[1..]);
      if ExtractRowId(str, records[0], fields).None? {
        assert rows == rest;
      } else {
        assert rows[1..] == rest;
      }
    }
  }

  lemma ChunkAt(records: seq<Dict>, start: nat, size: nat)
    requires size > 0 && start < |records|
    ensures var end := if start + size < |records| then start + size else |records|;
            Chunks(records[start..], size) == [records[start..end]] + Chunks(records[end..], size)
  {
    var rest := records[start..];
    if |rest| <= size {
      assert records[start..|records|] == rest && records[|records|..] == [];
    } else {
      assert rest[..size] == records[start..start + size] && rest[size..] == records[start + size..];
    }
  }

  lemma CommittedStep(str: Str, index: string, fields: seq<string>, chunk: seq<Dict>, later: seq<seq<Dict>>,
                      commits: nat -> bool, from: nat, t: Table)
    ensures var now := Committed([chunk] + later, commits, from);
            var rest := Committed(later, commits, from + 1);
            var t' := if commits(from) then Write(t, Rows(str, index, fields, chunk)) else t;
            && UpsertAll(str, t, index, fields, now) == UpsertAll(str, t', index, fields, rest)
            && |Rows(str, index, fields, now)|
               == (if commits(from) then |Rows(str, index, fields, chunk)| else 0) + |Rows(str, index, fields, rest)|
  {
    assert ([chunk] + later)[1..] == later;
    var rest := Committed(later, commits, from + 1);
    if commits(from) {
      UpsertPieces(str, t, index, fields, chunk, rest);
      WriteIsUpsertAll(str, t, index, fields, chunk);
    } else {
      assert [] + rest == rest;
    }
  }

  lemma NothingLeft(str: Str, records: seq<Dict>, fields: seq<string>, index: string, size: nat, commits: nat -> bool, from: nat, t: Table)
    requires size > 0
    ensures var rest := Committed(Chunks(records[|records|..], size), commits, from);
            UpsertAll(str, t, index, fields, rest) == t && Rows(str, index, fields, rest) == []
  {
  }

  lemma RowsStep(str: Str, index: string, fields: seq<string>, chunk: seq<Dict>, n: nat)
    requires n < |chunk|
    ensures var id := ExtractRowId(str, chunk[n], fields);
            Rows(str, index, fields, chunk[..n + 1])
            == Rows(str, index, fields, chunk[..n]) + (if id.None? then [] else [Row(index, id.value, Payload(chunk[n]))])
  {
    assert chunk[..n + 1] == chunk[..n] + [chunk[n]];
    UpsertPieces(str, map[], index, fields, chunk[..n], [chunk[n]]);
    var last := if ExtractRowId(str, chunk[n], fields).None? then [] else Rows(str, index, fields, [chunk[n]]);
    assert last + Rows(str, index, fields, []) == last;
  }

  lemma NoRowsNoWrite(t: Table, rows: seq<Row>)
    ensures rows == [] ==> Write(t, rows) == t
  {
  }

  // ---------------------------------------------------------------- what the table holds

  lemma {:induction false} AllCommitted(chunks: seq<seq<Dict>>, commits: nat -> bool, from: nat)
    requires forall n :: commits(n)
    ensures Committed(chunks, commits, from) == Flatten(chunks)
    decreases |chunks|
  {
    if chunks != [] { AllCommitted(chunks[1..], commits, from + 1); }
  }

  /** When no batch fails, the records that reach the table are all of them, whatever the chunk size. */
  lemma ChunkSizeIsInvisible(records: seq<Dict>, size: nat, commits: nat -> bool)
    requires size > 0
    requires forall n :: commits(n)
    ensures Committed(Chunks(records, size), commits, 0) == records
  {
    ChunksConcatenate(records, size);
    AllCommitted(Chunks(records, size), commits, 0);
  }

  lemma {:induction false} OtherRowsKept(str: Str, t: Table, index: string, fields: seq<string>, records: seq<Dict>, key: (string, string))
    requires key.0 != index || forall m | 0 <= m < |records| :: ExtractRowId(str, records[m], fields) != Some(key.1)
    ensures var t' := UpsertAll(str, t, index, fields, records);
            (key in t' <==> key in t) && (key in t ==> t'[key] == t[key])
    decreases |records|
  {
    if records != [] {
      assert forall m | 0 <= m < |records[1..]| :: records[1..][m] == records[m + 1];
      assert key.0 == index ==> ExtractRowId(str, records[0], fields) != Some(key.1);
      OtherRowsKept(str, Upsert(str, t, index, fields, records[0]), index, fields, records[1..], key);
    }
  }

  /** After the upserts a row holds the last record that has its id, without `_id`. */
  lemma {:induction false} LastRecordWins(str: Str, t: Table, index: string, fields: seq<string>, records: seq<Dict>,
                                          id: string, n: nat)
    requires n < |records| && ExtractRowId(str, records[n], fields) == Some(id)
    requires forall m | n < m < |records| :: ExtractRowId(str, records[m], fields) != Some(id)
    ensures var t' := UpsertAll(str, t, index, fields, records);
            (index, id) in t' && t'[(index, id)] == records[n] - {"_id"}
    decreases |records|
  {
    var t1 := Upsert(str, t, index, fields, records[0]);
    assert forall m | 0 <= m < |records[1..]| :: records[1..][m] == records[m + 1];
    if n == 0 {
      OtherRowsKept(str, t1, index, fields, records[1..], (index, id));
    } else {
      LastRecordWins(str, t1, index, fields, records[1..], id, n - 1);
    }
  }

  // ---------------------------------------------------------------- the writer

  class PostgresWriter {
    var table: Table
    const chunkSize: nat

    constructor (chunkSize: nat)
      requires chunkSize > 0
      ensures this.chunkSize == chunkSize && table == map[]
    {
      this.chunkSize := chunkSize;
      table := map[];
    }

    /** One transaction: all rows, or none when it fails. */
    method ExecuteMany(rows: seq<Row>, commits: bool)
      modifies this
      ensures table == if commits then Write(old(table), rows) else old(table)
    {
      var before := table;
      for n := 0 to |rows|
        invariant Write(before, rows) == Write(table, rows[n..])
      {
        assert rows[n..][1..] == rows[n + 1..];
        table := table[(rows[n].index, rows[n].id) := rows[n].payload];
      }
      if !commits { table := before; }
    }

    /** The parameters of one batch, and how many of its records have no id. */
    method BatchRows(str: Str, index: string, chunk: seq<Dict>, fields: seq<string>) returns (rows: seq<Row>, missing: nat)
      ensures rows == Rows(str, index, fields, chunk) && |rows| + missing == |chunk|
    {
      rows, missing := [], 0;
      assert Rows(str, index, fields, []) == [];
      hide Rows, ExtractRowId, Payload;
      for n := 0 to |chunk|
        invariant rows == Rows(str, index, fields, chunk[..n]) && |rows| + missing == n
      {
        RowsStep(str, index, fields, chunk, n);
        var id := ExtractRowId(str, chunk[n], fields);
        if id.None? {
          missing := missing + 1;
          continue;
        }
        rows := rows + [Row(index, id.value, Payload(chunk[n]))];
      }
      assert chunk[..|chunk|] == chunk;
    }

    /**
     `commits(n)` is whether the database takes the n-th batch. The table ends as if the records of
     the batches it took had been upserted one at a time, and every record is counted once.
     */
    method BulkUpsertJsonRecords(str: Str, index: string, records: seq<Dict>, fields: seq<string>, commits: nat -> bool)
      returns (r: Result<Counts, string>)
      requires chunkSize > 0
      modifies this
      ensures index == "" ==> r == Failure("DATABASE_INVALID_ARGUMENT") && table == old(table)
      ensures index != "" ==>
                && r.Success? && r.value.success + r.value.fail == |records|
                && r.value.success == |Rows(str, index, fields, Committed(Chunks(records, chunkSize), commits, 0))|
                && table == UpsertAll(str, old(table), index, fields,
                                      Committed(Chunks(records, chunkSize), commits, 0))
    {
      hide *;
      if index == "" {
        return Failure("DATABASE_INVALID_ARGUMENT");
      }
      var success: nat, fail: nat := 0, 0;
      var start := 0;
      var batch := 0;
      ghost var all := Committed(Chunks(records, chunkSize), commits, 0);
      assert records[0..] == records;
      while start < |records|
        invariant 0 <= start <= |records| && success + fail == start
        invariant UpsertAll(str, old(table), index, fields, all)
               == UpsertAll(str, table, index, fields, Committed(Chunks(records[start..], chunkSize), commits, batch))
        invariant |Rows(str, index, fields, all)|
               == success + |Rows(str, index, fields, Committed(Chunks(records[start..], chunkSize), commits, batch))|
        decreases |records| - start
      {
        var end := if start + chunkSize < |records| then start + chunkSize else |records|;
        var chunk := records[start..end];
        ghost var later := Chunks(records[end..], chunkSize);
        ChunkAt(records, start, chunkSize);
        assert Chunks(records[start..], chunkSize) == [chunk] + later;
        var rows, missing := BatchRows(str, index, chunk, fields);
        fail := fail + missing;
        CommittedStep(str, index, fields, chunk, later, commits, batch, table);
        NoRowsNoWrite(table, rows);
        if rows != [] {
          ExecuteMany(rows, commits(batch));
          if commits(batch) { success := success + |rows|; } else { fail := fail + |rows|; }
        }
        start := end;
        batch := batch + 1;
      }
      NothingLeft(str, records, fields, index, chunkSize, commits, batch, table);
      return Success(Counts(success, fail));
    }
  }
}
