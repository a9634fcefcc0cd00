/**
 * The chunked transaction upsert of scripts/import_mlit_transactions.py.
 *
 * The target table is a map from the unique key (source_id, source_record_key) to the
 * remaining columns.  Each SQL statement is one atomic step on that map.
 */
module MlitImport {
  import opened Common

  datatype Key = Key(sourceId: string, recordKey: string)

  /** The 24 columns that are not part of the unique key. */
  datatype Columns = Columns(
    prefecture: string, city: string, ward: Option<string>,
    assetKind: string, assetType: string,
    priceJpy: int, areaSqm: real, unitPrice: real,
    tradeQuarter: string, tradeYear: int,
    nearestStation: Option<string>, distanceMinutes: Option<int>, layout: Option<string>,
    raw: map<string, string>, importedAt: int,
    dataClass: string, sourceUrl: string, retrievedAt: int, sourcePeriod: string,
    transformationVersion: string, rightsStatus: string, rightsConfirmed: string,
    limitations: string, missingValuePolicy: string)

  datatype Row = Row(key: Key, columns: Columns)

  type Table = map<Key, Columns>

  /** Effect of inserting or updating rows: the new table and the statement's counters. */
  datatype Outcome = Outcome(table: Table, inserted: nat, updated: nat)

  // ---------------------------------------------------------------------------------------
  // One row
  // ---------------------------------------------------------------------------------------

  /** The SET list of the conflict clause. */
  function Overwrite(before: Columns, excluded: Columns): Columns {
    before.(prefecture := excluded.prefecture,
          city := excluded.city,
          ward := excluded.ward,
          assetType := excluded.assetType,
          layout := excluded.layout,
          raw := excluded.raw,
          dataClass := excluded.dataClass,
          sourceUrl := excluded.sourceUrl,
          retrievedAt := excluded.retrievedAt,
          sourcePeriod := excluded.sourcePeriod,
          transformationVersion := excluded.transformationVersion,
          rightsStatus := excluded.rightsStatus,
          rightsConfirmed := excluded.rightsConfirmed,
          limitations := excluded.limitations,
          missingValuePolicy := excluded.missingValuePolicy)
  }

  /** The WHERE list of the conflict clause: some compared column `is distinct from` the new one. */
  predicate IsDistinct(before: Columns, excluded: Columns) {
    || before.prefecture != excluded.prefecture
    || before.city != excluded.city
    || before.ward != excluded.ward
    || before.assetType != excluded.assetType
    || before.layout != excluded.layout
    || before.raw != excluded.raw
    || before.dataClass != excluded.dataClass
    || before.sourceUrl != excluded.sourceUrl
    || before.retrievedAt != excluded.retrievedAt
    || before.sourcePeriod != excluded.sourcePeriod
    || before.transformationVersion != excluded.transformationVersion
    || before.rightsStatus != excluded.rightsStatus
    || before.rightsConfirmed != excluded.rightsConfirmed
    || before.limitations != excluded.limitations
    || before.missingValuePolicy != excluded.missingValuePolicy
  }

  /** The WHERE list skips exactly the updates that the SET list would not notice, and an
      update leaves nothing for the same row to change again. */
  lemma SetAndWhereNameTheSameColumns(a: Columns, b: Columns, c: Columns)
    ensures !IsDistinct(a, b) <==> Overwrite(a, b) == a
    ensures !IsDistinct(Overwrite(a, b), b)
    ensures !IsDistinct(a, b) && !IsDistinct(b, c) ==> !IsDistinct(a, c)
    ensures IsDistinct(a, b) <==> IsDistinct(b, a)
    ensures Overwrite(a, b) == b.(assetKind := a.assetKind, priceJpy := a.priceJpy, areaSqm := a.areaSqm,
                                  unitPrice := a.unitPrice, tradeQuarter := a.tradeQuarter, tradeYear := a.tradeYear,
                                  nearestStation := a.nearestStation, distanceMinutes := a.distanceMinutes,
                                  importedAt := a.importedAt)
  {
  }

  /** `insert ... on conflict ... do update ... where` for a single row. */
  function UpsertOne(t: Table, r: Row): Outcome {
    if r.key !in t then Outcome(t[r.key := r.columns], 1, 0)
    else if IsDistinct(t[r.key], r.columns) then Outcome(t[r.key := Overwrite(t[r.key], r.columns)], 0, 1)
    else Outcome(t, 0, 0)
  }

  /** The reference: the rows inserted or updated one at a time, in order. */
  function RowByRow(t: Table, rows: seq<Row>): Outcome
    decreases |rows|
  {
    if rows == [] then Outcome(t, 0, 0)
    else
      var first := UpsertOne(t, rows[0]);
      var rest := RowByRow(first.table, rows[1..]);
      Outcome(rest.table, first.inserted + rest.inserted, first.updated + rest.updated)
  }

  /** Rows with equal keys agree on every compared column. */
  ghost predicate KeysDetermineCompared(rows: seq<Row>) {
    forall i, j :: 0 <= i < |rows| && 0 <= j < |rows| && rows[i].key == rows[j].key ==>
      !IsDistinct(rows[i].columns, rows[j].columns)
  }

  // ---------------------------------------------------------------------------------------
  // One chunk
  // ---------------------------------------------------------------------------------------

  function Keys(rows: seq<Row>): (ks: set<Key>)
    ensures forall k :: k in ks <==> exists i :: 0 <= i < |rows| && rows[i].key == k
  {
    set i | 0 <= i < |rows| :: rows[i].key
  }

  lemma KeysCons(r: Row, rest: seq<Row>)
    ensures Keys([r] + rest) == {r.key} + Keys(rest)
  {
    var all := [r] + rest;
    assert all[0] == r;
    assert forall i :: 0 < i < |all| ==> all[i] == rest[i - 1];
    assert forall i :: 0 <= i < |rest| ==> rest[i] == all[i + 1];
  }

  ghost predicate DistinctKeys(rows: seq<Row>) {
    forall i, j :: 0 <= i < j < |rows| ==> rows[i].key != rows[j].key
  }

  /** The rows whose key is neither in `seen` nor carried by an earlier row. */
  function FirstPerKey(rows: seq<Row>, seen: set<Key>): (r: seq<Row>)
    ensures |r| <= |rows|
    ensures Keys(r) == Keys(rows) - seen
    ensures DistinctKeys(r)
    ensures forall x :: x in r ==> x in rows
  {
    if rows == [] then []
    else
      assert rows == [rows[0]] + rows[1..];
      KeysCons(rows[0], rows[1..]);
      if rows[0].key in seen then FirstPerKey(rows[1..], seen)
      else
        var tail := FirstPerKey(rows[1..], seen + {rows[0].key});
        KeysCons(rows[0], tail);
        DistinctCons(rows[0], tail);
        [rows[0]] + tail
  }

  lemma DistinctCons(r: Row, tail: seq<Row>)
    requires DistinctKeys(tail) && r.key !in Keys(tail)
    ensures DistinctKeys([r] + tail)
  {
    assert forall j :: 0 <= j < |tail| ==> tail[j].key in Keys(tail);
  }

  lemma FirstPerKeySnoc(rows: seq<Row>, seen: set<Key>, r: Row)
    ensures FirstPerKey(rows + [r], seen)
         == if r.key in seen || r.key in Keys(rows) then FirstPerKey(rows, seen)
            else FirstPerKey(rows, seen) + [r]
  {
    if rows == [] {
      assert rows + [r] == [r];
    } else {
      assert (rows + [r])[1..] == rows[1..] + [r];
      assert rows == [rows[0]] + rows[1..];
      assert Keys(rows) == {rows[0].key} + Keys(rows[1..]);
      FirstPerKeySnoc(rows[1..], if rows[0].key in seen then seen else seen + {rows[0].key}, r);
    }
  }

  // ---------------------------------------------------------------------------------------
  // Deduplication by record key alone
  // ---------------------------------------------------------------------------------------

  predicate OneSource(rows: seq<Row>) {
    forall i, j :: 0 <= i < |rows| && 0 <= j < |rows| ==> rows[i].key.sourceId == rows[j].key.sourceId
  }

  lemma PartOfOneSource(rows: seq<Row>, start: nat, stop: nat)
    requires start <= stop <= |rows|
    ensures OneSource(rows) ==> OneSource(rows[start..stop])
  {
  }

  function RecordKeys(rows: seq<Row>): (ks: set<string>)
    ensures forall k :: k in ks <==> exists i :: 0 <= i < |rows| && rows[i].key.recordKey == k
  {
    set i | 0 <= i < |rows| :: rows[i].key.recordKey
  }

  lemma RecordKeysSnoc(rows: seq<Row>, r: Row)
    ensures RecordKeys(rows + [r]) == RecordKeys(rows) + {r.key.recordKey}
  {
    var all := rows + [r];
    assert all[|rows|] == r;
    assert forall i :: 0 <= i < |rows| ==> all[i] == rows[i];
  }

  /** The rows whose record key is neither in `seen` nor carried by an earlier row. */
  function FirstPerRecord(rows: seq<Row>, seen: set<string>): (r: seq<Row>)
    ensures |r| <= |rows|
    ensures forall x :: x in r ==> x in rows && x.key.recordKey !in seen
  {
    if rows == [] then []
    else if rows[0].key.recordKey in seen then FirstPerRecord(rows[1..], seen)
    else [rows[0]] + FirstPerRecord(rows[1..], seen + {rows[0].key.recordKey})
  }

  lemma {:induction false} FirstPerRecordSnoc(rows: seq<Row>, seen: set<string>, r: Row)
    ensures FirstPerRecord(rows + [r], seen)
         == if r.key.recordKey in seen || r.key.recordKey in RecordKeys(rows) then FirstPerRecord(rows, seen)
            else FirstPerRecord(rows, seen) + [r]
  {
    if rows == [] {
      assert rows + [r] == [r];
    } else {
      var k := rows[0].key.recordKey;
      assert (rows + [r])[1..] == rows[1..] + [r];
      assert forall i :: 0 < i < |rows| ==> rows[i] == rows[1..][i - 1];
      assert RecordKeys(rows) == {k} + RecordKeys(rows[1..]);
      FirstPerRecordSnoc(rows[1..], if k in seen then seen else seen + {k}, r);
    }
  }

  lemma {:induction false} FirstPerRecordIsDistinct(rows: seq<Row>, seen: set<string>)
    ensures DistinctKeys(FirstPerRecord(rows, seen))
  {
    if rows == [] {
    } else {
      var k := rows[0].key.recordKey;
      FirstPerRecordIsDistinct(rows[1..], if k in seen then seen else seen + {k});
      if k !in seen {
        var tail := FirstPerRecord(rows[1..], seen + {k});
        assert forall j :: 0 <= j < |tail| ==> tail[j] in tail;
      }
    }
  }

  /** In the rows of one source both ways of telling rows apart agree. */
  lemma {:induction false} FirstPerRecordIsFirstPerKey(rows: seq<Row>, seen: set<string>, keys: set<Key>)
    requires OneSource(rows)
    requires forall i :: 0 <= i < |rows| ==> (rows[i].key in keys <==> rows[i].key.recordKey in seen)
    ensures FirstPerRecord(rows, seen) == FirstPerKey(rows, keys)
  {
    if rows == [] {
    } else {
      var key := rows[0].key;
      if key in keys {
        FirstPerRecordIsFirstPerKey(rows[1..], seen, keys);
      } else {
        FirstPerRecordIsFirstPerKey(rows[1..], seen + {key.recordKey}, keys + {key});
      }
    }
  }

  // ---------------------------------------------------------------------------------------
  // The upsert statement
  // ---------------------------------------------------------------------------------------

  datatype SqlError = RowAffectedTwice

  function CountNew(t: Table, staged: seq<Row>): (n: nat)
    ensures n <= |staged|
  {
    if staged == [] then 0
    else (if staged[0].key !in t then 1 else 0) + CountNew(t, staged[1..])
  }

  function CountChanged(t: Table, staged: seq<Row>): (n: nat)
    ensures n + CountNew(t, staged) <= |staged|
  {
    if staged == [] then 0
    else
      (if staged[0].key in t && IsDistinct(t[staged[0].key], staged[0].columns) then 1 else 0)
      + CountChanged(t, staged[1..])
  }

  /** The last staged row that carries `k` */
  function StagedRow(staged: seq<Row>, k: Key): (r: Row)
    requires k in Keys(staged)
    ensures r in staged && r.key == k
  {
    assert staged == [staged[0]] + staged[1..];
    KeysCons(staged[0], staged[1..]);
    if k in Keys(staged[1..]) then StagedRow(staged[1..], k) else staged[0]
  }

  function Merge(t: Table, r: Row): Columns {
    if r.key !in t then r.columns
    else if IsDistinct(t[r.key], r.columns) then Overwrite(t[r.key], r.columns)
    else t[r.key]
  }

  /** The statement inserts or updates for this row. */
  predicate Touches(t: Table, r: Row) {
    r.key !in t || IsDistinct(t[r.key], r.columns)
  }

  /** No row follows one of the same key that was inserted or updated; a row skipped by the WHERE list
      does no harm. */
  ghost predicate TouchesOnce(t: Table, staged: seq<Row>) {
    forall i, j :: 0 <= i < j < |staged| && staged[i].key == staged[j].key ==> !Touches(t, staged[i])
  }

  /** The upsert statement as PostgreSQL runs it: every staged row is judged against the table as it was
      before the statement, and a row met again after it was inserted or updated is an error. */
  ghost function Statement(t: Table, staged: seq<Row>): Result<Outcome, SqlError> {
    if !TouchesOnce(t, staged) then Err(RowAffectedTwice)
    else
      Ok(Outcome(
           map k | k in t.Keys + Keys(staged) ::
             if k in Keys(staged) then Merge(t, StagedRow(staged, k)) else t[k],
           CountNew(t, staged),
           CountChanged(t, staged)))
  }

  // ---------------------------------------------------------------------------------------
  // All chunks
  // ---------------------------------------------------------------------------------------

  function Min(a: nat, b: nat): nat { if a < b then a else b }

  /** How many of `n` rows the first `k` chunks of size `c` hold: the smaller of `k * c` and `n`. */
  function RowsCovered(n: nat, c: nat, k: nat): (m: nat)
    requires c >= 1
    ensures m <= n
    ensures k >= n ==> m == n
    decreases k
  {
    if k == 0 || n == 0 then 0 else Min(c, n) + RowsCovered(n - Min(c, n), c, k - 1)
  }

  lemma {:induction false} RowsCoveredIsMin(n: nat, c: nat, k: nat)
    requires c >= 1
    ensures RowsCovered(n, c, k) == Min(k * c, n)
    decreases k
  {
    if k > 0 && n > 0 {
      RowsCoveredIsMin(n - Min(c, n), c, k - 1);
      assert k * c == c + (k - 1) * c;
      assert (k - 1) * c >= 0;
    }
  }

  /** The table and counters after the first `k` chunk steps of a run with chunk size `c`. */
  function AfterChunks(t: Table, rows: seq<Row>, c: nat, k: nat): Outcome
    requires c >= 1
    decreases k
  {
    if k == 0 || rows == [] then Outcome(t, 0, 0)
    else
      var n := Min(c, |rows|);
      var first := RowByRow(t, FirstPerKey(rows[..n], {}));
      var rest := AfterChunks(first.table, rows[n..], c, k - 1);
      Outcome(rest.table, first.inserted + rest.inserted, first.updated + rest.updated)
  }

  /** A complete run: at most |rows| chunk steps are ever needed. */
  function Chunked(t: Table, rows: seq<Row>, c: nat): Outcome
    requires c >= 1
  {
    AfterChunks(t, rows, c, |rows|)
  }

  // ---------------------------------------------------------------------------------------
  // The statement refines the row-by-row reference
  // ---------------------------------------------------------------------------------------

  lemma CountsIgnoreOtherKeys(t: Table, k: Key, v: Columns, staged: seq<Row>)
    requires k !in Keys(staged)
    ensures CountNew(t[k := v], staged) == CountNew(t, staged)
    ensures CountChanged(t[k := v], staged) == CountChanged(t, staged)
  {
    if staged != [] {
      assert staged[0].key in Keys(staged);
      assert forall i :: 0 <= i < |staged[1..]| ==> staged[1..][i] == staged[i + 1];
      CountsIgnoreOtherKeys(t, k, v, staged[1..]);
    }
  }

  lemma DistinctTail(r: Row, rest: seq<Row>)
    requires DistinctKeys([r] + rest)
    ensures DistinctKeys(rest) && r.key !in Keys(rest)
  {
    var all := [r] + rest;
    assert all[0] == r;
    assert forall i :: 0 <= i < |rest| ==> rest[i] == all[i + 1];
  }

  lemma StagedRowCons(r: Row, rest: seq<Row>, k: Key)
    ensures k in Keys([r] + rest) <==> k == r.key || k in Keys(rest)
    ensures k in Keys(rest) ==> StagedRow([r] + rest, k) == StagedRow(rest, k)
    ensures k == r.key && k !in Keys(rest) ==> StagedRow([r] + rest, k) == r
  {
    KeysCons(r, rest);
    assert ([r] + rest)[1..] == rest;
  }

  /** After the first row the rest still touches each row once, and a touched key does not come again. */
  lemma TouchesOnceTail(t: Table, r: Row, rest: seq<Row>)
    requires TouchesOnce(t, [r] + rest)
    ensures Touches(t, r) ==> r.key !in Keys(rest)
    ensures TouchesOnce(UpsertOne(t, r).table, rest)
  {
    hide IsDistinct, Overwrite;
    var all := [r] + rest;
    assert all[0] == r;
    assert forall i :: 0 <= i < |rest| ==> rest[i] == all[i + 1];
    assert Touches(t, r) ==> r.key !in Keys(rest);
    assert !Touches(t, r) ==> UpsertOne(t, r).table == t;
    assert forall i :: 0 <= i < |rest| ==> rest[i].key in Keys(rest);
  }

  lemma {:induction false} StatementCounts(t: Table, staged: seq<Row>)
    requires TouchesOnce(t, staged)
    ensures RowByRow(t, staged).inserted == CountNew(t, staged)
    ensures RowByRow(t, staged).updated == CountChanged(t, staged)
    decreases |staged|
  {
    hide IsDistinct, Overwrite, TouchesOnce, Keys;
    if staged == [] {
    } else {
      var r, rest := staged[0], staged[1..];
      assert staged == [r] + rest;
      TouchesOnceTail(t, r, rest);
      var t' := UpsertOne(t, r).table;
      StatementCounts(t', rest);
      if t' != t {
        CountsIgnoreOtherKeys(t, r.key, t'[r.key], rest);
        assert t' == t[r.key := t'[r.key]];
      }
    }
  }

  lemma {:induction false} StatementTable(t: Table, staged: seq<Row>, k: Key)
    requires TouchesOnce(t, staged)
    ensures var end := RowByRow(t, staged).table;
            && (k in end <==> k in t || k in Keys(staged))
            && (k in end ==> end[k] == if k in Keys(staged) then Merge(t, StagedRow(staged, k)) else t[k])
    decreases |staged|
  {
    hide IsDistinct, Overwrite, TouchesOnce;
    if staged == [] {
    } else {
      var r, rest := staged[0], staged[1..];
      assert staged == [r] + rest;
      TouchesOnceTail(t, r, rest);
      StagedRowCons(r, rest, k);
      StatementTable(UpsertOne(t, r).table, rest, k);
      hide StagedRow, Keys;
    }
  }

  /** A statement that touches no row twice has the effect of the rows taken one at a time. */
  lemma StatementIsRowByRow(t: Table, staged: seq<Row>)
    requires TouchesOnce(t, staged)
    ensures Statement(t, staged) == Ok(RowByRow(t, staged))
  {
    hide IsDistinct, Overwrite, TouchesOnce, RowByRow, Merge;
    StatementCounts(t, staged);
    var s, end := Statement(t, staged).value.table, RowByRow(t, staged).table;
    forall k ensures k in s <==> k in end
      ensures k in s ==> s[k] == end[k]
    {
      StatementTable(t, staged, k);
    }
    assert s == end;
  }

  // ---------------------------------------------------------------------------------------
  // Facts about the reference
  // ---------------------------------------------------------------------------------------

  lemma {:induction false} RowByRowConcat(t: Table, a: seq<Row>, b: seq<Row>)
    ensures RowByRow(t, a + b)
         == (var x := RowByRow(t, a);
             var y := RowByRow(x.table, b);
             Outcome(y.table, x.inserted + y.inserted, x.updated + y.updated))
    decreases |a|
  {
    if a == [] {
      assert a + b == b;
    } else {
      assert (a + b)[1..] == a[1..] + b;
      RowByRowConcat(UpsertOne(t, a[0]).table, a[1..], b);
    }
  }

  /** Every key of `rows` is stored with exactly the compared columns `rows` carries. */
  ghost predicate Settled(t: Table, rows: seq<Row>) {
    forall i :: 0 <= i < |rows| ==>
      rows[i].key in t && !IsDistinct(t[rows[i].key], rows[i].columns)
  }

  lemma {:induction false} SettledRowsChangeNothing(t: Table, rows: seq<Row>)
    requires Settled(t, rows)
    ensures RowByRow(t, rows) == Outcome(t, 0, 0)
  {
    if rows == [] {
    } else {
      assert rows[0].key in t;
      assert forall i :: 0 <= i < |rows[1..]| ==> rows[1..][i] == rows[i + 1];
      SettledRowsChangeNothing(t, rows[1..]);
    }
  }

  /** Dropping rows whose key is already settled changes neither table nor counters. */
  lemma {:induction false} SkippingSeenKeys(t: Table, rows: seq<Row>, seen: set<Key>)
    requires KeysDetermineCompared(rows)
    requires forall i :: 0 <= i < |rows| && rows[i].key in seen ==>
               rows[i].key in t && !IsDistinct(t[rows[i].key], rows[i].columns)
    ensures RowByRow(t, FirstPerKey(rows, seen)) == RowByRow(t, rows)
    decreases |rows|
  {
    if rows == [] {
    } else {
      var r, rest := rows[0], rows[1..];
      assert forall i :: 0 <= i < |rest| ==> rest[i] == rows[i + 1];
      if r.key in seen {
        assert !IsDistinct(t[r.key], r.columns);
        SkippingSeenKeys(t, rest, seen);
      } else {
        var t' := UpsertOne(t, r).table;
        forall i | 0 <= i < |rest| && rest[i].key in seen + {r.key}
          ensures rest[i].key in t' && !IsDistinct(t'[rest[i].key], rest[i].columns)
        {
          if rest[i].key == r.key {
            assert !IsDistinct(rows[0].columns, rows[i + 1].columns);
          }
        }
        SkippingSeenKeys(t', rest, seen + {r.key});
        var f := FirstPerKey(rest, seen + {r.key});
        assert ([r] + f)[1..] == f;
      }
    }
  }

  lemma {:induction false} RowsBecomeSettled(t: Table, rows: seq<Row>, more: seq<Row>)
    requires KeysDetermineCompared(rows + more)
    requires Settled(t, more)
    ensures Settled(RowByRow(t, rows).table, rows + more)
    decreases |rows|
  {
    var all := rows + more;
    if rows != [] {
      var r, rest := rows[0], rows[1..];
      var t' := UpsertOne(t, r).table;
      var more' := more + [r];
      forall i | 0 <= i < |more'|
        ensures more'[i].key in t' && !IsDistinct(t'[more'[i].key], more'[i].columns)
      {
        if i < |more| {
          assert all[|rows| + i] == more[i] && all[0] == r;
        }
      }
      forall i, j | 0 <= i < |rest + more'| && 0 <= j < |rest + more'| && (rest + more')[i].key == (rest + more')[j].key
        ensures !IsDistinct((rest + more')[i].columns, (rest + more')[j].columns)
      {
        var a := if i < |all| - 1 then i + 1 else 0;
        var b := if j < |all| - 1 then j + 1 else 0;
        assert all[a] == (rest + more')[i] && all[b] == (rest + more')[j];
      }
      RowsBecomeSettled(t', rest, more');
      var end := RowByRow(t, rows).table;
      forall i | 0 <= i < |all|
        ensures all[i].key in end && !IsDistinct(end[all[i].key], all[i].columns)
      {
        var a := if i == 0 then |all| - 1 else i - 1;
        assert (rest + more')[a] == all[i];
      }
    } else {
      assert all == more;
    }
  }

  // ---------------------------------------------------------------------------------------
  // Chunking does not matter
  // ---------------------------------------------------------------------------------------

  /** Stopping after `k` chunk steps is the row-by-row run of the rows those chunks cover. */
  lemma {:induction false} ChunksAreAPrefix(t: Table, rows: seq<Row>, c: nat, k: nat)
    requires c >= 1 && KeysDetermineCompared(rows)
    ensures AfterChunks(t, rows, c, k) == RowByRow(t, rows[..RowsCovered(|rows|, c, k)])
    decreases k
  {
    hide KeysDetermineCompared, DistinctKeys, FirstPerKey, UpsertOne, Keys;
    if k == 0 || rows == [] {
    } else {
      hide RowByRow;
      var n := Min(c, |rows|);
      var chunk, rest := rows[..n], rows[n..];
      PartsDetermine(rows, n);
      SkippingSeenKeys(t, chunk, {});
      var first := RowByRow(t, chunk);
      ChunksAreAPrefix(first.table, rest, c, k - 1);
      var m := RowsCovered(|rest|, c, k - 1);
      RowByRowConcat(t, chunk, rest[..m]);
      assert chunk + rest[..m] == rows[..RowsCovered(|rows|, c, k)];
    }
  }

  lemma PartsDetermine(rows: seq<Row>, n: nat)
    requires n <= |rows| && KeysDetermineCompared(rows)
    ensures KeysDetermineCompared(rows[..n]) && KeysDetermineCompared(rows[n..])
  {
    assert forall i :: 0 <= i < |rows[n..]| ==> rows[n..][i] == rows[n + i];
  }

  lemma ChunkedIsRowByRow(t: Table, rows: seq<Row>, c: nat)
    requires c >= 1 && KeysDetermineCompared(rows)
    ensures Chunked(t, rows, c) == RowByRow(t, rows)
  {
    ChunksAreAPrefix(t, rows, c, |rows|);
    assert rows[..|rows|] == rows;
  }

  /** A run that reports no update never met two different rows with one key. */
  lemma {:induction false} NoUpdateMeansAgreement(t: Table, rows: seq<Row>)
    requires RowByRow(t, rows).updated == 0
    ensures KeysDetermineCompared(rows)
    ensures forall i :: 0 <= i < |rows| && rows[i].key in t ==> !IsDistinct(t[rows[i].key], rows[i].columns)
    decreases |rows|
  {
    if rows == [] {
    } else {
      var r, rest := rows[0], rows[1..];
      var t' := UpsertOne(t, r).table;
      NoUpdateMeansAgreement(t', rest);
      assert forall i :: 0 < i < |rows| ==> rows[i] == rest[i - 1];
      forall i, j | 0 <= i < |rows| && 0 <= j < |rows| && rows[i].key == rows[j].key
        ensures !IsDistinct(rows[i].columns, rows[j].columns)
      {
        if i > 0 && j > 0 {
          assert rest[i - 1].key == rest[j - 1].key;
        }
      }
    }
  }

  lemma {:induction false} FreshKeysAreInserted(t: Table, rows: seq<Row>)
    requires DistinctKeys(rows) && Keys(rows) !! t.Keys
    ensures RowByRow(t, rows).updated == 0 && RowByRow(t, rows).inserted == |rows|
    decreases |rows|
  {
    if rows == [] {
    } else {
      assert rows[0].key in Keys(rows);
      var rest := rows[1..];
      assert forall i :: 0 <= i < |rest| ==> rest[i] == rows[i + 1];
      forall k | k in Keys(rest) ensures k in Keys(rows) && k != rows[0].key {
        var i :| 0 <= i < |rest| && rest[i].key == k;
        assert rows[i + 1].key == k;
      }
      FreshKeysAreInserted(UpsertOne(t, rows[0]).table, rest);
    }
  }

  ghost predicate ChunkingInvisible(rows: seq<Row>) {
    forall t: Table, c: nat :: c >= 1 ==> Chunked(t, rows, c) == RowByRow(t, rows)
  }

  /** The chunked import has the table and the totals of the row-by-row import, for every
      starting table and chunk size, exactly when equal keys carry equal compared columns. */
  lemma ChunkingInvisibleIff(rows: seq<Row>)
    ensures ChunkingInvisible(rows) <==> KeysDetermineCompared(rows)
  {
    if KeysDetermineCompared(rows) {
      forall t: Table, c: nat | c >= 1 ensures Chunked(t, rows, c) == RowByRow(t, rows) {
        ChunkedIsRowByRow(t, rows, c);
      }
    }
    if ChunkingInvisible(rows) && rows != [] {
      var c := |rows|;
      var empty: Table := map[];
      assert Chunked(empty, rows, c) == RowByRow(empty, rows);
      assert rows[..c] == rows && rows[c..] == [];
      FreshKeysAreInserted(empty, FirstPerKey(rows, {}));
      var first := RowByRow(empty, FirstPerKey(rows, {}));
      assert AfterChunks(first.table, [], c, c - 1) == Outcome(first.table, 0, 0);
      assert Chunked(empty, rows, c).updated == 0;
      NoUpdateMeansAgreement(empty, rows);
    }
  }

  // ---------------------------------------------------------------------------------------
  // Running again
  // ---------------------------------------------------------------------------------------

  /** Importing rows that a finished import already stored reports nothing and changes nothing,
      whatever the two chunk sizes. */
  lemma RerunIsANoOp(t: Table, rows: seq<Row>, c1: nat, c2: nat)
    requires c1 >= 1 && c2 >= 1 && KeysDetermineCompared(rows)
    ensures var done := Chunked(t, rows, c1).table;
            Chunked(done, rows, c2) == Outcome(done, 0, 0)
  {
    ChunkedIsRowByRow(t, rows, c1);
    var done := Chunked(t, rows, c1).table;
    ChunkedIsRowByRow(done, rows, c2);
    assert rows + [] == rows;
    RowsBecomeSettled(t, rows, []);
    SettledRowsChangeNothing(done, rows);
  }

  /** Two prefixes imported one after the other leave the table of the longer one. */
  lemma PrefixAbsorbed(t: Table, rows: seq<Row>, n: nat, m: nat)
    requires KeysDetermineCompared(rows) && n <= |rows| && m <= |rows|
    ensures var x := RowByRow(t, rows[..n]);
            var y := RowByRow(x.table, rows[..m]);
            var z := RowByRow(t, rows[..if n < m then m else n]);
            y.table == z.table && x.inserted + y.inserted == z.inserted && x.updated + y.updated == z.updated
  {
    var x := RowByRow(t, rows[..n]);
    var p := rows[..Min(n, m)];
    assert rows[..n] + [] == rows[..n];
    RowsBecomeSettled(t, rows[..n], []);
    assert Settled(x.table, p) by {
      assert forall i :: 0 <= i < |p| ==> p[i] == rows[..n][i];
    }
    SettledRowsChangeNothing(x.table, p);
    if n < m {
      assert rows[..m] == p + rows[n..m];
      RowByRowConcat(x.table, p, rows[n..m]);
      RowByRowConcat(t, p, rows[n..m]);
    }
  }

  /** One attempt that died after `chunks` chunk steps of size `size`. */
  datatype Attempt = Attempt(size: nat, chunks: nat)

  predicate ValidAttempts(attempts: seq<Attempt>) {
    forall i :: 0 <= i < |attempts| ==> attempts[i].size >= 1
  }

  /** The table and the counters summed over interrupted attempts, each restarted from the first row. */
  function AfterAttempts(t: Table, rows: seq<Row>, attempts: seq<Attempt>): Outcome
    requires ValidAttempts(attempts)
    decreases |attempts|
  {
    if attempts == [] then Outcome(t, 0, 0)
    else
      var last := attempts[|attempts| - 1];
      var before := AfterAttempts(t, rows, attempts[..|attempts| - 1]);
      var now := AfterChunks(before.table, rows, last.size, last.chunks);
      Outcome(now.table, before.inserted + now.inserted, before.updated + now.updated)
  }

  /** How many leading rows the longest of the attempts covered. */
  function Covered(rows: seq<Row>, attempts: seq<Attempt>): (n: nat)
    requires ValidAttempts(attempts)
    ensures n <= |rows|
    decreases |attempts|
  {
    if attempts == [] then 0
    else
      var last := attempts[|attempts| - 1];
      var n := Covered(rows, attempts[..|attempts| - 1]);
      var m := RowsCovered(|rows|, last.size, last.chunks);
      if n < m then m else n
  }

  lemma {:induction false} AttemptsAreAPrefix(t: Table, rows: seq<Row>, attempts: seq<Attempt>)
    requires KeysDetermineCompared(rows) && ValidAttempts(attempts)
    ensures AfterAttempts(t, rows, attempts) == RowByRow(t, rows[..Covered(rows, attempts)])
    decreases |attempts|
  {
    if attempts == [] {
    } else {
      var last := attempts[|attempts| - 1];
      var init := attempts[..|attempts| - 1];
      AttemptsAreAPrefix(t, rows, init);
      var before := AfterAttempts(t, rows, init);
      ChunksAreAPrefix(before.table, rows, last.size, last.chunks);
      PrefixAbsorbed(t, rows, Covered(rows, init), RowsCovered(|rows|, last.size, last.chunks));
    }
  }

  /** However often the import dies between chunk steps, one complete run from the start leaves
      the table of an uninterrupted run, and the inserts and updates reported by all attempts
      add up to those of the uninterrupted run. */
  lemma CrashesAreRepaired(t: Table, rows: seq<Row>, attempts: seq<Attempt>, c: nat, c': nat)
    requires c >= 1 && c' >= 1 && KeysDetermineCompared(rows) && ValidAttempts(attempts)
    ensures var crashed := AfterAttempts(t, rows, attempts);
            var rerun := Chunked(crashed.table, rows, c);
            var whole := Chunked(t, rows, c');
            && rerun.table == whole.table
            && crashed.inserted + rerun.inserted == whole.inserted
            && crashed.updated + rerun.updated == whole.updated
  {
    AttemptsAreAPrefix(t, rows, attempts);
    var crashed := AfterAttempts(t, rows, attempts);
    ChunkedIsRowByRow(crashed.table, rows, c);
    ChunkedIsRowByRow(t, rows, c');
    PrefixAbsorbed(t, rows, Covered(rows, attempts), |rows|);
    assert rows[..|rows|] == rows;
  }

  // ---------------------------------------------------------------------------------------
  // Running again at another time: retrieved_at is compared, imported_at is not
  // ---------------------------------------------------------------------------------------

  /** The same records normalised by a later run of the importer. */
  function Restamp(rows: seq<Row>, at: int): (r: seq<Row>)
    ensures |r| == |rows|
    ensures forall i :: 0 <= i < |rows| ==>
      r[i] == rows[i].(columns := rows[i].columns.(importedAt := at, retrievedAt := at))
  {
    seq(|rows|, i requires 0 <= i < |rows| =>
      rows[i].(columns := rows[i].columns.(importedAt := at, retrievedAt := at)))
  }

  predicate SameInsertOnly(a: Columns, b: Columns) {
    && a.assetKind == b.assetKind && a.priceJpy == b.priceJpy && a.areaSqm == b.areaSqm
    && a.unitPrice == b.unitPrice && a.tradeQuarter == b.tradeQuarter && a.tradeYear == b.tradeYear
    && a.nearestStation == b.nearestStation && a.distanceMinutes == b.distanceMinutes
    && a.importedAt == b.importedAt
  }

  /** No import ever removes a key or rewrites one of the nine columns outside the SET list. */
  lemma {:induction false} StoredRowsKeepInsertOnlyColumns(t: Table, rows: seq<Row>)
    ensures var end := RowByRow(t, rows).table;
            forall k :: k in t ==> k in end && SameInsertOnly(end[k], t[k])
    decreases |rows|
  {
    if rows == [] {
    } else {
      StoredRowsKeepInsertOnlyColumns(UpsertOne(t, rows[0]).table, rows[1..]);
    }
  }

  lemma {:induction false} StaleRowsAreUpdatedOnce(t: Table, rows: seq<Row>)
    requires DistinctKeys(rows)
    requires forall i :: 0 <= i < |rows| ==> rows[i].key in t && IsDistinct(t[rows[i].key], rows[i].columns)
    ensures RowByRow(t, rows).inserted == 0 && RowByRow(t, rows).updated == |rows|
    ensures RowByRow(t, rows).table.Keys == t.Keys
    decreases |rows|
  {
    hide IsDistinct, Overwrite, DistinctKeys;
    if rows != [] {
      var r, rest := rows[0], rows[1..];
      assert rows == [r] + rest;
      DistinctTail(r, rest);
      var t' := UpsertOne(t, r).table;
      forall i | 0 <= i < |rest|
        ensures rest[i].key in t' && IsDistinct(t'[rest[i].key], rest[i].columns)
      {
        assert rest[i] == rows[i + 1] && rest[i].key in Keys(rest);
      }
      StaleRowsAreUpdatedOnce(t', rest);
    }
  }

  lemma {:induction false} DistinctKeysCount(rows: seq<Row>)
    requires DistinctKeys(rows)
    ensures |Keys(rows)| == |rows|
  {
    if rows == [] {
    } else {
      var r, rest := rows[0], rows[1..];
      assert rows == [r] + rest;
      assert Keys(rows) == {r.key} + Keys(rest);
      DistinctKeysCount(rest);
    }
  }

  lemma RestampedKeys(rows: seq<Row>, at: int)
    ensures Keys(Restamp(rows, at)) == Keys(rows)
  {
    var restamped := Restamp(rows, at);
    assert forall i :: 0 <= i < |rows| ==> restamped[i].key == rows[i].key;
  }

  lemma RestampedDetermine(rows: seq<Row>, at: int, later: int)
    requires KeysDetermineCompared(Restamp(rows, at))
    ensures KeysDetermineCompared(Restamp(rows, later))
  {
    var before, restamped := Restamp(rows, at), Restamp(rows, later);
    forall i, j | 0 <= i < |restamped| && 0 <= j < |restamped| && restamped[i].key == restamped[j].key
      ensures !IsDistinct(restamped[i].columns, restamped[j].columns)
    {
      assert before[i].key == before[j].key && !IsDistinct(before[i].columns, before[j].columns);
    }
  }

  lemma RestampedRowsAreStale(t: Table, rows: seq<Row>, at: int, later: int)
    requires at != later && Settled(t, Restamp(rows, at))
    ensures var firsts := FirstPerKey(Restamp(rows, later), {});
            forall i :: 0 <= i < |firsts| ==>
              firsts[i].key in t && IsDistinct(t[firsts[i].key], firsts[i].columns)
  {
    var before, restamped := Restamp(rows, at), Restamp(rows, later);
    var firsts := FirstPerKey(restamped, {});
    forall i | 0 <= i < |firsts|
      ensures firsts[i].key in t && IsDistinct(t[firsts[i].key], firsts[i].columns)
    {
      assert firsts[i] in restamped;
      var j :| 0 <= j < |restamped| && restamped[j] == firsts[i];
      assert before[j].key in t && !IsDistinct(t[before[j].key], before[j].columns);
    }
  }

  /** What a row-by-row run over restamped records does to a table that holds the old stamps. */
  lemma LaterRowsRewrite(done: Table, rows: seq<Row>, at: int, later: int)
    requires at != later && Settled(done, Restamp(rows, at))
    requires KeysDetermineCompared(Restamp(rows, later))
    ensures Rewritten(done, RowByRow(done, Restamp(rows, later)), rows, later)
  {
    hide KeysDetermineCompared, DistinctKeys, FirstPerKey, UpsertOne, Settled, RowByRow, Keys;
    var restamped := Restamp(rows, later);
    SkippingSeenKeys(done, restamped, {});
    RestampedRowsAreStale(done, rows, at, later);
    var firsts := FirstPerKey(restamped, {});
    StaleRowsAreUpdatedOnce(done, firsts);
    StoredRowsKeepInsertOnlyColumns(done, restamped);
    DistinctKeysCount(firsts);
    RestampedKeys(rows, later);
    assert restamped + [] == restamped;
    EmptyIsSettled(done);
    RowsBecomeSettled(done, restamped, []);
  }

  lemma EmptyIsSettled(t: Table)
    ensures Settled(t, [])
  {
  }

  /** `o` updated every key of `rows` once, inserted nothing, and kept the insert-only columns. */
  ghost predicate Rewritten(done: Table, o: Outcome, rows: seq<Row>, later: int) {
    && o.inserted == 0
    && o.updated == |Keys(rows)|
    && o.table.Keys == done.Keys
    && (forall k :: k in done ==> SameInsertOnly(o.table[k], done[k]))
    && Settled(o.table, Restamp(rows, later))
  }

  /** Importing the same records again at another time is not the no-op of `RerunIsANoOp`: it
      rewrites every stored key once, because retrieved_at is compared, and keeps the first
      imported_at, because that column is only written on insert. */
  lemma LaterImportRewritesEveryKey(t: Table, rows: seq<Row>, at: int, later: int, c1: nat, c2: nat)
    requires c1 >= 1 && c2 >= 1 && at != later
    requires KeysDetermineCompared(Restamp(rows, at))
    ensures var done := Chunked(t, Restamp(rows, at), c1).table;
            Rewritten(done, Chunked(done, Restamp(rows, later), c2), rows, later)
  {
    hide KeysDetermineCompared, DistinctKeys, Settled, RowByRow, Chunked, Rewritten, Restamp;
    var before, restamped := Restamp(rows, at), Restamp(rows, later);
    ChunkedIsRowByRow(t, before, c1);
    var done := Chunked(t, before, c1).table;
    assert before + [] == before;
    EmptyIsSettled(t);
    RowsBecomeSettled(t, before, []);
    RestampedDetermine(rows, at, later);
    ChunkedIsRowByRow(done, restamped, c2);
    LaterRowsRewrite(done, rows, at, later);
  }

  // ---------------------------------------------------------------------------------------
  // The importer itself
  // ---------------------------------------------------------------------------------------

  datatype Totals = Totals(inserted: int, updated: int, skipped: int)

  datatype ImportError = ChunkSizeNotPositive | Database(error: SqlError)

  class Importer {
    var table: Table
    var staging: seq<Row>

    constructor (table: Table)
      ensures this.table == table && staging == []
    {
      this.table, staging := table, [];
    }

    /** Keeps the first row of every record key and counts the discarded rows. */
    static method DeduplicateChunk(rows: seq<Row>) returns (unique: seq<Row>, duplicates: int)
      ensures unique == FirstPerRecord(rows, {})
      ensures duplicates == |rows| - |unique|
      ensures DistinctKeys(unique)
      ensures OneSource(rows) ==> unique == FirstPerKey(rows, {}) && Keys(unique) == Keys(rows)
    {
      unique := [];
      var seen: set<string> := {};
      for i := 0 to |rows|
        invariant unique == FirstPerRecord(rows[..i], {})
        invariant seen == RecordKeys(rows[..i])
      {
        assert rows[..i + 1] == rows[..i] + [rows[i]];
        FirstPerRecordSnoc(rows[..i], {}, rows[i]);
        RecordKeysSnoc(rows[..i], rows[i]);
        if rows[i].key.recordKey !in seen {
          seen := seen + {rows[i].key.recordKey};
          unique := unique + [rows[i]];
        }
      }
      assert rows[..|rows|] == rows;
      duplicates := |rows| - |unique|;
      FirstPerRecordIsDistinct(rows, {});
      if OneSource(rows) {
        FirstPerRecordIsFirstPerKey(rows, {}, {});
      }
    }

    /** `truncate` and `copy` in one transaction. */
    method StageChunk(rows: seq<Row>)
      modifies this`staging
      ensures staging == rows
    {
      staging := rows;
    }

    /** The upsert statement over the staged rows; it runs row after row and fails on a key that it has
        already inserted or updated. */
    method RunUpsert() returns (r: Result<(nat, nat), SqlError>)
      modifies this`table
      ensures match Statement(old(table), staging)
              case Ok(o) => r == Ok((o.inserted, o.updated)) && table == o.table
              case Err(e) => r == Err(e) && table == old(table)
    {
      hide IsDistinct, Overwrite, Touches, TouchesOnce, RowByRow, Statement;
      var t := table;
      var inserted: nat, updated: nat := 0, 0;
      var written: set<Key> := {};
      assert TouchesOnce(table, []) && TouchedKeys(table, []) == {} by { NothingTouched(table); }
      assert RowByRow(table, []) == Outcome(table, 0, 0) by { NothingTouched(table); }
      for i := 0 to |staging|
        invariant written == TouchedKeys(table, staging[..i]) && TouchesOnce(table, staging[..i])
        invariant Outcome(t, inserted, updated) == RowByRow(table, staging[..i])
        invariant forall k :: k !in written ==> (k in t <==> k in table) && (k in t ==> t[k] == table[k])
        invariant table == old(table)
      {
        assert staging[..i + 1] == staging[..i] + [staging[i]];
        OneMoreTouched(table, staging[..i], staging[i]);
        OneMoreRow(table, staging[..i], staging[i]);
        if staging[i].key in written {
          TouchedTwice(table, staging, i);
          return Err(RowAffectedTwice);
        }
        TouchesByKey(table, t, staging[i]);
        var one := UpsertOne(t, staging[i]);
        if one.inserted + one.updated > 0 {
          written := written + {staging[i].key};
        }
        t, inserted, updated := one.table, inserted + one.inserted, updated + one.updated;
      }
      assert staging[..|staging|] == staging;
      StatementIsRowByRow(table, staging);
      table := t;
      return Ok((inserted, updated));
    }

    /** `upsert_rows`: no statement fails, the three totals account for every row, and for the rows of one
        source, which is all that the importer reads, table and counters are those of the chunked
        reference. */
    method UpsertRows(rows: seq<Row>, chunkSize: int) returns (r: Result<Totals, ImportError>)
      modifies this
      ensures chunkSize <= 0 ==> r == Err(ChunkSizeNotPositive) && table == old(table)
      ensures chunkSize > 0 ==>
                && r.Ok? && r.value.inserted >= 0 && r.value.updated >= 0 && r.value.skipped >= 0
                && r.value.inserted + r.value.updated + r.value.skipped == |rows|
      ensures chunkSize > 0 && OneSource(rows) ==>
                var o := Chunked(old(table), rows, chunkSize);
                && table == o.table
                && r == Ok(Totals(o.inserted, o.updated, |rows| - o.inserted - o.updated))
    {
      hide DistinctKeys, FirstPerKey, FirstPerRecord, Statement, RowByRow, TouchesOnce, OneSource, AfterChunks,
        Chunked, Keys;
      if chunkSize <= 0 {
        return Err(ChunkSizeNotPositive);
      }
      BeforeTheFirstChunk(table, rows, chunkSize);
      if rows == [] {
        return Ok(Totals(0, 0, 0));
      }
      var inserted: nat, updated: nat := 0, 0;
      var start := 0;
      ghost var steps := |rows|;
      while start < |rows|
        invariant 0 <= start <= |rows| && |rows| - start <= steps
        invariant inserted + updated <= start
        invariant OneSource(rows) ==>
                    Chunked(old(table), rows, chunkSize)
                    == Plus(inserted, updated, AfterChunks(table, rows[start..], chunkSize, steps))
        decreases |rows| - start
      {
        var stop := if start + chunkSize < |rows| then start + chunkSize else |rows|;
        var chunk := rows[start..stop];
        AfterOneMoreChunk(table, rows, chunkSize, start, stop, steps);
        var unique, duplicates := DeduplicateChunk(chunk);
        PartOfOneSource(rows, start, stop);
        StageChunk(unique);
        DistinctTouchesOnce(table, unique);
        StatementIsRowByRow(table, unique);
        CountsBounded(table, unique);
        var counts := RunUpsert();
        if counts.Err? {
          assert false;
        }
        inserted, updated := inserted + counts.value.0, updated + counts.value.1;
        start := stop;
        steps := steps - 1;
      }
      AfterTheLastChunk(table, chunkSize, steps);
      assert rows[start..] == [];
      return Ok(Totals(inserted, updated, |rows| - inserted - updated));
    }
  }

  lemma BeforeTheFirstChunk(t: Table, rows: seq<Row>, c: nat)
    requires c >= 1
    ensures Chunked(t, rows, c) == Plus(0, 0, AfterChunks(t, rows[0..], c, |rows|))
    ensures rows == [] ==> Chunked(t, rows, c) == Outcome(t, 0, 0)
  {
    assert rows[0..] == rows;
  }

  lemma AfterTheLastChunk(t: Table, c: nat, steps: nat)
    requires c >= 1
    ensures AfterChunks(t, [], c, steps) == Outcome(t, 0, 0)
  {
  }

  /** The keys the statement has inserted or updated. */
  ghost function TouchedKeys(t: Table, staged: seq<Row>): (ks: set<Key>)
    ensures forall k :: k in ks <==> exists i :: 0 <= i < |staged| && staged[i].key == k && Touches(t, staged[i])
  {
    set i | 0 <= i < |staged| && Touches(t, staged[i]) :: staged[i].key
  }

  lemma NothingTouched(t: Table)
    ensures TouchesOnce(t, []) && TouchedKeys(t, []) == {} && RowByRow(t, []) == Outcome(t, 0, 0)
  {
  }

  lemma OneMoreTouched(t: Table, staged: seq<Row>, r: Row)
    requires TouchesOnce(t, staged)
    ensures r.key !in TouchedKeys(t, staged) ==> TouchesOnce(t, staged + [r])
    ensures TouchedKeys(t, staged + [r]) == TouchedKeys(t, staged) + (if Touches(t, r) then {r.key} else {})
  {
    hide IsDistinct, Overwrite, Touches;
    var all := staged + [r];
    assert all[|staged|] == r;
    assert forall i :: 0 <= i < |staged| ==> all[i] == staged[i];
  }

  lemma TouchesByKey(t: Table, u: Table, r: Row)
    requires (r.key in u <==> r.key in t) && (r.key in u ==> u[r.key] == t[r.key])
    ensures Touches(t, r) <==> UpsertOne(u, r).inserted + UpsertOne(u, r).updated > 0
  {
    hide IsDistinct, Overwrite;
  }

  lemma OneMoreRow(t: Table, staged: seq<Row>, r: Row)
    ensures var x := RowByRow(t, staged);
            var y := UpsertOne(x.table, r);
            RowByRow(t, staged + [r]) == Outcome(y.table, x.inserted + y.inserted, x.updated + y.updated)
  {
    RowByRowConcat(t, staged, [r]);
    var u := RowByRow(t, staged).table;
    assert RowByRow(u, [r]) == UpsertOne(u, r);
  }

  lemma TouchedTwice(t: Table, staged: seq<Row>, i: nat)
    requires i < |staged| && staged[i].key in TouchedKeys(t, staged[..i])
    ensures Statement(t, staged) == Err(RowAffectedTwice)
  {
    var j :| 0 <= j < i && staged[..i][j].key == staged[i].key && Touches(t, staged[..i][j]);
    assert staged[j] == staged[..i][j];
  }

  lemma DistinctTouchesOnce(t: Table, rows: seq<Row>)
    requires DistinctKeys(rows)
    ensures TouchesOnce(t, rows)
  {
  }

  function Plus(inserted: nat, updated: nat, o: Outcome): Outcome {
    Outcome(o.table, inserted + o.inserted, updated + o.updated)
  }

  lemma AfterOneMoreChunk(t: Table, rows: seq<Row>, c: nat, start: nat, stop: nat, steps: nat)
    requires c >= 1 && start < |rows| && steps >= 1
    requires stop == if start + c < |rows| then start + c else |rows|
    ensures var first := RowByRow(t, FirstPerKey(rows[start..stop], {}));
            && AfterChunks(t, rows[start..], c, steps)
               == Plus(first.inserted, first.updated, AfterChunks(first.table, rows[stop..], c, steps - 1))
            && first.inserted + first.updated <= stop - start
  {
    var n := Min(c, |rows| - start);
    assert rows[start..stop] == rows[start..][..n];
    assert rows[stop..] == rows[start..][n..];
    CountsBounded(t, FirstPerKey(rows[start..stop], {}));
  }

  lemma {:induction false} CountsBounded(t: Table, rows: seq<Row>)
    ensures RowByRow(t, rows).inserted + RowByRow(t, rows).updated <= |rows|
    decreases |rows|
  {
    if rows == [] {
    } else {
      CountsBounded(UpsertOne(t, rows[0]).table, rows[1..]);
    }
  }
}
