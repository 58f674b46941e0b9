/** Ingesting a dataset file, perhaps in several attempts: a file is skipped only once its status is
    SUCCESS, and every other attempt starts again at its first row. */
module DatasetIngestion {
  import opened Options
  import opened Registry
  import opened LedgerTables
  import opened LedgerWriters
  import opened LedgerJobs
  import opened CrawlHistory

  /** A row as it is stored, with its phone columns. */
  datatype FileRow = FileRow(content: string, values: seq<string>, context: string)

  datatype DataFile = DataFile(checksum: string, rows: seq<FileRow>, hasPhoneColumn: bool)

  datatype DatasetStatus = DatasetPending | DatasetSuccess | DatasetFailed

  /** Where an attempt dies, if it does: before it processes a row (or, past the last, before it
      records its success), or between the two commits of one. */
  datatype Death = Survives | DiesBefore(row: nat) | DiesWithin(row: nat)

  datatype Stash = Stash(ledger: Ledger, datasets: map<string, DatasetStatus>)

  function RowsDone(f: DataFile, d: Death): (n: nat)
    ensures n <= |f.rows|
  {
    if d.Survives? || d.row > |f.rows| then |f.rows| else d.row
  }

  predicate HalfDone(f: DataFile, d: Death) {
    d.DiesWithin? && d.row < |f.rows|
  }

  /** How many rows an attempt leaves a document of. */
  function RowsStored(f: DataFile, d: Death): nat {
    RowsDone(f, d) + if HalfDone(f, d) then 1 else 0
  }

  function IngestRow(l: Ledger, source: SourceId, r: FileRow, dies: bool): Ledger {
    ProcessRow(l, source, r.content, r.values, r.context, dies)
  }

  function IngestRows(l: Ledger, source: SourceId, rows: seq<FileRow>): Ledger {
    if rows == [] then l else IngestRow(IngestRows(l, source, rows[..|rows| - 1]), source, rows[|rows| - 1], false)
  }

  function IngestOnce(l: Ledger, source: SourceId, f: DataFile, d: Death): Ledger {
    var m := IngestRows(l, source, f.rows[..RowsDone(f, d)]);
    if HalfDone(f, d) then IngestRow(m, source, f.rows[d.row], true) else m
  }

  function Attempt(s: Stash, source: SourceId, f: DataFile, d: Death): Stash {
    var known := Lookup(s.datasets, f.checksum);
    if known == Some(DatasetSuccess) then s
    else if !f.hasPhoneColumn then s.(datasets := s.datasets[f.checksum := DatasetFailed])
    else
      Stash(IngestOnce(s.ledger, source, f, d),
            s.datasets[f.checksum := if d.Survives? then DatasetSuccess
                                     else if known.Some? then known.value else DatasetPending])
  }

  function Attempts(s: Stash, source: SourceId, f: DataFile, ds: seq<Death>): Stash {
    if ds == [] then s else Attempt(Attempts(s, source, f, ds[..|ds| - 1]), source, f, ds[|ds| - 1])
  }

  // ----- The program -----

  class DatasetService {
    const db: EvidenceDb
    var datasets: map<string, DatasetStatus>

    constructor (db: EvidenceDb)
      ensures this.db == db && datasets == map[]
    {
      this.db, datasets := db, map[];
    }

    function View(): Stash
      reads this, db
    {
      Stash(db.View(), datasets)
    }

    /** Returns the rows processed and the phones found in them; None when the file is refused or the
        attempt dies. */
    method IngestDataset(source: SourceId, f: DataFile, d: Death) returns (result: Option<(nat, nat)>)
      modifies this, db`docs, db`obs, db`phones
      ensures View() == Attempt(old(View()), source, f, d)
      ensures result == if Lookup(old(datasets), f.checksum) == Some(DatasetSuccess) then Some((0, 0))
                        else if f.hasPhoneColumn && d.Survives? then Some((|f.rows|, PhonesIn(f.rows)))
                        else None
      ensures Lookup(old(datasets), f.checksum) == Some(DatasetSuccess) ==> View() == old(View())
      ensures Lookup(old(datasets), f.checksum) != Some(DatasetSuccess) && !f.hasPhoneColumn ==>
                db.View() == old(db.View()) && datasets == old(datasets)[f.checksum := DatasetFailed]
      ensures Lookup(old(datasets), f.checksum) != Some(DatasetSuccess) && f.hasPhoneColumn ==>
                && (d.Survives? <==> result.Some?)
                && (d.Survives? ==>
                      && datasets == old(datasets)[f.checksum := DatasetSuccess]
                      && result.value.0 == |f.rows| == |db.docs| - |old(db.docs)|
                      && result.value.1 == |db.obs| - |old(db.obs)|)
                && (!d.Survives? ==>
                      && datasets.Keys == old(datasets).Keys + {f.checksum}
                      && (f.checksum !in old(datasets) ==> datasets[f.checksum] == DatasetPending)
                      && forall c :: c in old(datasets) ==> datasets[c] == old(datasets)[c])
    {
      hide IngestRow, PhonesIn;
      ghost var before, start := datasets, db.View();
      if f.checksum !in datasets { datasets := datasets[f.checksum := DatasetPending]; }
      ghost var registered := datasets;
      if datasets[f.checksum] == DatasetSuccess { return Some((0, 0)); }
      if !f.hasPhoneColumn {
        datasets := datasets[f.checksum := DatasetFailed];
        assert datasets == before[f.checksum := DatasetFailed];
        return None;
      }
      var phonesFound := 0;
      assert f.rows[..0] == [];
      NoRows(start, source);
      for k := 0 to RowsDone(f, d)
        invariant datasets == registered
        invariant db.View() == IngestRows(start, source, f.rows[..k]) && phonesFound == PhonesIn(f.rows[..k])
        invariant k == |db.docs| - |start.docs| && phonesFound == |db.obs| - |start.obs|
      {
        var r := f.rows[k];
        OneMoreRow(start, source, f.rows, k);
        var count, _ := db.ProcessDatasetRow(source, r.content, r.values, r.context);
        ProcessedRow(IngestRows(start, source, f.rows[..k]), source, r);
        phonesFound := phonesFound + count;
      }
      if HalfDone(f, d) {
        StoredOnly(db.View(), source, f.rows[d.row]);
        var _ := db.InsertRawDocument(Document(source, None, f.rows[d.row].content));
      }
      assert db.View() == IngestOnce(start, source, f, d);
      if !d.Survives? {
        assert datasets == before[f.checksum := registered[f.checksum]];
        return None;
      }
      datasets := datasets[f.checksum := DatasetSuccess];
      assert datasets == before[f.checksum := DatasetSuccess];
      assert f.rows[..|f.rows|] == f.rows;
      result := Some((|f.rows|, phonesFound));
    }
  }

  function PhonesIn(rows: seq<FileRow>): nat {
    if rows == [] then 0
    else PhonesIn(rows[..|rows| - 1]) + |RowCandidates(rows[|rows| - 1].values, rows[|rows| - 1].context)|
  }

  lemma NoRows(l: Ledger, source: SourceId)
    ensures IngestRows(l, source, []) == l && PhonesIn([]) == 0
  {
  }

  lemma OneMoreRow(l: Ledger, source: SourceId, rows: seq<FileRow>, k: nat)
    requires k < |rows|
    ensures IngestRows(l, source, rows[..k + 1]) == IngestRow(IngestRows(l, source, rows[..k]), source, rows[k], false)
    ensures PhonesIn(rows[..k + 1]) == PhonesIn(rows[..k]) + |RowCandidates(rows[k].values, rows[k].context)|
  {
    hide IngestRow;
    assert rows[..k + 1][..k] == rows[..k];
  }

  lemma ProcessedRow(l: Ledger, source: SourceId, r: FileRow)
    ensures IngestRow(l, source, r, false) == ProcessRow(l, source, r.content, r.values, r.context, false)
  {
  }

  lemma StoredOnly(l: Ledger, source: SourceId, r: FileRow)
    ensures IngestRow(l, source, r, true) == InsertDocument(l, Document(source, None, r.content))
  {
  }

  // ----- Counters -----

  lemma {:induction false} IngestRowsConserve(l: Ledger, source: SourceId, rows: seq<FileRow>)
    requires Conserved(l)
    ensures Conserved(IngestRows(l, source, rows))
  {
    hide Conserved, ObserveAll;
    if rows == [] {
    } else {
      IngestRowsConserve(l, source, rows[..|rows| - 1]);
      IngestRowConserves(IngestRows(l, source, rows[..|rows| - 1]), source, rows[|rows| - 1], false);
    }
  }

  lemma IngestRowConserves(l: Ledger, source: SourceId, r: FileRow, dies: bool)
    requires Conserved(l)
    ensures Conserved(IngestRow(l, source, r, dies))
  {
    hide Conserved, ObserveAll;
    InsertConserves(l, Document(source, None, r.content));
    var m := InsertDocument(l, Document(source, None, r.content));
    ObserveAllConserves(m, |l.docs|, RowCandidates(r.values, r.context));
  }

  /** However attempts die, phone counters agree with the observations, repeated ones included. */
  lemma {:induction false} AttemptsConserve(s: Stash, source: SourceId, f: DataFile, ds: seq<Death>)
    requires Conserved(s.ledger)
    ensures Conserved(Attempts(s, source, f, ds).ledger)
  {
    hide Conserved, IngestRows, IngestRow;
    if ds == [] {
    } else {
      var before, d := Attempts(s, source, f, ds[..|ds| - 1]), ds[|ds| - 1];
      AttemptsConserve(s, source, f, ds[..|ds| - 1]);
      var m := IngestRows(before.ledger, source, f.rows[..RowsDone(f, d)]);
      IngestRowsConserve(before.ledger, source, f.rows[..RowsDone(f, d)]);
      if HalfDone(f, d) { IngestRowConserves(m, source, f.rows[d.row], true); }
    }
  }

  // ----- Documents -----

  /** The documents of the rows, each once. */
  function RowDocuments(source: SourceId, rows: seq<FileRow>): (docs: seq<Document>)
    ensures |docs| == |rows| && forall k :: 0 <= k < |rows| ==> docs[k] == Document(source, None, rows[k].content)
  {
    seq(|rows|, k requires 0 <= k < |rows| => Document(source, None, rows[k].content))
  }

  lemma IngestRowStores(l: Ledger, source: SourceId, r: FileRow, dies: bool)
    ensures IngestRow(l, source, r, dies).docs == l.docs + [Document(source, None, r.content)]
  {
    hide ObserveAll;
    ObserveAllIs(InsertDocument(l, Document(source, None, r.content)), |l.docs|, RowCandidates(r.values, r.context));
  }

  lemma {:induction false} IngestRowsStore(l: Ledger, source: SourceId, rows: seq<FileRow>)
    ensures IngestRows(l, source, rows).docs == l.docs + RowDocuments(source, rows)
  {
    hide IngestRow;
    if rows == [] {
    } else {
      var m := |rows| - 1;
      IngestRowsStore(l, source, rows[..m]);
      IngestRowStores(IngestRows(l, source, rows[..m]), source, rows[m], false);
      assert RowDocuments(source, rows) == RowDocuments(source, rows[..m]) + [Document(source, None, rows[m].content)];
    }
  }

  /** An attempt stores the documents of the rows it reached, from the first on. */
  lemma IngestOnceStores(l: Ledger, source: SourceId, f: DataFile, d: Death)
    ensures IngestOnce(l, source, f, d).docs == l.docs + RowDocuments(source, f.rows[..RowsStored(f, d)])
  {
    hide IngestRow, IngestRows;
    var n := RowsDone(f, d);
    IngestRowsStore(l, source, f.rows[..n]);
    if HalfDone(f, d) {
      IngestRowStores(IngestRows(l, source, f.rows[..n]), source, f.rows[n], true);
      assert RowDocuments(source, f.rows[..n + 1])
          == RowDocuments(source, f.rows[..n]) + [Document(source, None, f.rows[n].content)];
    }
  }

  function StoredBy(f: DataFile, ds: seq<Death>): nat {
    if ds == [] then 0 else StoredBy(f, ds[..|ds| - 1]) + RowsStored(f, ds[|ds| - 1])
  }

  predicate AllDie(ds: seq<Death>) {
    forall k :: 0 <= k < |ds| ==> !ds[k].Survives?
  }

  predicate Unfinished(s: Stash, f: DataFile) {
    f.hasPhoneColumn && Lookup(s.datasets, f.checksum) != Some(DatasetSuccess)
  }

  lemma {:induction false} DyingAttemptsStore(s: Stash, source: SourceId, f: DataFile, ds: seq<Death>)
    requires Unfinished(s, f) && AllDie(ds)
    ensures Unfinished(Attempts(s, source, f, ds), f)
    ensures s.ledger.docs <= Attempts(s, source, f, ds).ledger.docs
    ensures |Attempts(s, source, f, ds).ledger.docs| == |s.ledger.docs| + StoredBy(f, ds)
  {
    hide IngestOnce, RowsStored;
    if ds == [] {
    } else {
      var m := |ds| - 1;
      DyingAttemptsStore(s, source, f, ds[..m]);
      IngestOnceStores(Attempts(s, source, f, ds[..m]).ledger, source, f, ds[m]);
      StoredWithin(f, ds[m]);
    }
  }

  lemma StoredWithin(f: DataFile, d: Death)
    ensures RowsStored(f, d) <= |f.rows|
  {
  }

  lemma {:induction false} FinishedStays(s: Stash, source: SourceId, f: DataFile, ds: seq<Death>)
    requires Lookup(s.datasets, f.checksum) == Some(DatasetSuccess)
    ensures Attempts(s, source, f, ds) == s
  {
    if ds == [] {
    } else {
      FinishedStays(s, source, f, ds[..|ds| - 1]);
    }
  }

  lemma {:induction false} AttemptsConcat(s: Stash, source: SourceId, f: DataFile, a: seq<Death>, b: seq<Death>)
    ensures Attempts(s, source, f, a + b) == Attempts(Attempts(s, source, f, a), source, f, b)
  {
    hide Attempt;
    if b == [] {
      assert a + b == a;
    } else {
      AttemptsConcat(s, source, f, a, b[..|b| - 1]);
      assert (a + b)[..|a + b| - 1] == a + b[..|b| - 1];
    }
  }

  lemma {:induction false} NothingStoredExactlyWhen(f: DataFile, ds: seq<Death>)
    ensures StoredBy(f, ds) == 0 <==> forall k :: 0 <= k < |ds| ==> RowsStored(f, ds[k]) == 0
  {
    hide RowsStored;
    if ds == [] {
    } else {
      var m := |ds| - 1;
      NothingStoredExactlyWhen(f, ds[..m]);
      assert forall k :: 0 <= k < m ==> ds[..m][k] == ds[k];
    }
  }

  /** A file that some attempt ingests to its end, after `dying` ones and before `later` ones, has each
      row stored once if and only if no attempt before died after it had stored a row. What comes
      later stores nothing: only against that is the checksum a protection. */
  lemma StoredOnceExactlyWhen(s: Stash, source: SourceId, f: DataFile, dying: seq<Death>, later: seq<Death>)
    requires Unfinished(s, f) && AllDie(dying)
    ensures var after := Attempts(s, source, f, dying + [Survives] + later);
            && Lookup(after.datasets, f.checksum) == Some(DatasetSuccess)
            && |after.ledger.docs| == |s.ledger.docs| + StoredBy(f, dying) + |f.rows|
            && (after.ledger.docs == s.ledger.docs + RowDocuments(source, f.rows)
                <==> forall k :: 0 <= k < |dying| ==> RowsStored(f, dying[k]) == 0)
  {
    hide Attempts, IngestOnce, RowsStored;
    var died := Attempts(s, source, f, dying);
    var done := Attempt(died, source, f, Survives);
    DyingAttemptsStore(s, source, f, dying);
    OneAttempt(died, source, f, Survives);
    AttemptsConcat(s, source, f, dying, [Survives]);
    AttemptsConcat(s, source, f, dying + [Survives], later);
    FinishedStays(done, source, f, later);
    IngestOnceStores(died.ledger, source, f, Survives);
    SurvivorStoresAll(f);
    NothingStoredExactlyWhen(f, dying);
    if StoredBy(f, dying) == 0 { assert died.ledger.docs == s.ledger.docs; }
  }

  lemma OneAttempt(s: Stash, source: SourceId, f: DataFile, d: Death)
    ensures Attempts(s, source, f, [d]) == Attempt(s, source, f, d)
  {
    hide Attempt;
    assert Attempts(s, source, f, [d][..0]) == s;
  }

  lemma SurvivorStoresAll(f: DataFile)
    ensures f.rows[..RowsStored(f, Survives)] == f.rows
  {
  }
}
