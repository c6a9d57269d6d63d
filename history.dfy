/**
 * The price-history cache `kaspi_price_data.json` (parser.py:46-56 and
 * 172-200): a JSON object from normalized model names to the last estimate,
 * written back every fiftieth entry or when the file does not exist yet, and
 * trimmed to the 500 most recently checked entries when it is written.
 */
module History {
  import opened Wrappers
  import opened Text

  /** One cached estimate. A missing `last_checked` reads as "". */
  datatype CacheEntry = CacheEntry(model: string, lastPrice: real, lastChecked: string, sellers: seq<string>)

  /** A JSON object as Python's dict holds it: keys in insertion order, and their entries. */
  datatype Table = Table(order: seq<string>, entries: map<string, CacheEntry>)

  predicate Distinct(ks: seq<string>) {
    forall i, j :: 0 <= i < j < |ks| ==> ks[i] != ks[j]
  }

  predicate WellFormed(t: Table) {
    Distinct(t.order) && (forall k :: k in t.order ==> k in t.entries) && (forall k :: k in t.entries ==> k in t.order)
  }

  const Empty: Table := Table([], map[])

  /** `len(historical_data)`. */
  function Size(t: Table): nat {
    |t.order|
  }

  /** The size counts the keys. */
  lemma SizeCountsKeys(t: Table)
    requires WellFormed(t)
    ensures |t.entries.Keys| == Size(t)
  {
    DistinctCard(t.order);
    assert t.entries.Keys == set k | k in t.order;
  }

  lemma {:induction false} DistinctCard(ks: seq<string>)
    requires Distinct(ks)
    ensures |set k | k in ks| == |ks|
  {
    if ks != [] {
      var rest := ks[1..];
      assert Distinct(rest);
      DistinctCard(rest);
      assert (set k | k in ks) == {ks[0]} + (set k | k in rest);
      assert ks[0] !in rest;
    }
  }

  /** `historical_data[key] = e`: an existing key keeps its position, a new one goes last. */
  function Put(t: Table, key: string, e: CacheEntry): (r: Table)
    requires WellFormed(t)
    ensures WellFormed(r)
    ensures key in r.entries && r.entries[key] == e
    ensures forall k :: k != key ==> (k in r.entries <==> k in t.entries)
    ensures forall k :: k != key && k in t.entries ==> r.entries[k] == t.entries[k]
    ensures Size(r) == if key in t.entries then Size(t) else Size(t) + 1
  {
    if key in t.entries then Table(t.order, t.entries[key := e])
    else Table(t.order + [key], t.entries[key := e])
  }

  const FlushEvery: nat := 50
  const Capacity: nat := 500

  /** The cache is written when its size is a multiple of fifty or the file does not exist. */
  predicate FlushDue(size: nat, fileExists: bool) {
    size % FlushEvery == 0 || !fileExists
  }

  // ----------------------------------------------------------- eviction

  function Recency(t: Table, k: string): string {
    if k in t.entries then t.entries[k].lastChecked else ""
  }

  /** Keys in order of decreasing `last_checked`. */
  predicate NewestFirst(t: Table, ks: seq<string>) {
    forall i, j :: 0 <= i < j < |ks| ==> StrLe(Recency(t, ks[j]), Recency(t, ks[i]))
  }

  /** Insert a key after every key at least as recent. */
  function InsertByRecency(t: Table, k: string, ks: seq<string>): (r: seq<string>)
    ensures |r| == |ks| + 1
    ensures forall x :: x in r <==> x == k || x in ks
  {
    if ks == [] then [k]
    else if StrLe(Recency(t, k), Recency(t, ks[0])) then [ks[0]] + InsertByRecency(t, k, ks[1..])
    else [k] + ks
  }

  /** `sorted(keys, key=last_checked, reverse=True)`, as an insertion sort. */
  function SortByRecency(t: Table, ks: seq<string>): (r: seq<string>)
    ensures |r| == |ks|
    ensures forall x :: x in r <==> x in ks
  {
    if ks == [] then []
    else InsertByRecency(t, ks[|ks| - 1], SortByRecency(t, ks[..|ks| - 1]))
  }

  lemma {:induction false} InsertKeepsOrder(t: Table, k: string, ks: seq<string>)
    requires NewestFirst(t, ks)
    ensures NewestFirst(t, InsertByRecency(t, k, ks))
  {
    if ks != [] {
      if StrLe(Recency(t, k), Recency(t, ks[0])) {
        var rest := ks[1..];
        assert NewestFirst(t, rest);
        InsertKeepsOrder(t, k, rest);
        var r := InsertByRecency(t, k, rest);
        forall x | x in r ensures StrLe(Recency(t, x), Recency(t, ks[0])) {
          if x != k {
            var j :| 0 <= j < |rest| && rest[j] == x;
            assert ks[j + 1] == x;
          }
        }
        var full := [ks[0]] + r;
        forall i, j | 0 <= i < j < |full| ensures StrLe(Recency(t, full[j]), Recency(t, full[i])) {
          if i == 0 {
            assert full[j] in r;
          } else {
            assert full[i] == r[i - 1] && full[j] == r[j - 1];
          }
        }
      } else {
        StrLeTotal(Recency(t, k), Recency(t, ks[0]));
        var full := [k] + ks;
        forall i, j | 0 <= i < j < |full| ensures StrLe(Recency(t, full[j]), Recency(t, full[i])) {
          if i == 0 {
            if j > 1 {
              StrLeTransitive(Recency(t, full[j]), Recency(t, ks[0]), Recency(t, k));
            }
          } else {
            assert full[i] == ks[i - 1] && full[j] == ks[j - 1];
          }
        }
      }
    }
  }

  lemma {:induction false} InsertKeepsDistinct(t: Table, k: string, ks: seq<string>)
    requires Distinct(ks) && k !in ks
    ensures Distinct(InsertByRecency(t, k, ks))
  {
    if ks != [] && StrLe(Recency(t, k), Recency(t, ks[0])) {
      var rest := ks[1..];
      assert Distinct(rest) && k !in rest && ks[0] !in rest;
      InsertKeepsDistinct(t, k, rest);
    }
  }

  /** The sort orders the keys newest first and keeps distinct keys distinct. */
  lemma {:induction false} SortByRecencyCorrect(t: Table, ks: seq<string>)
    requires Distinct(ks)
    ensures NewestFirst(t, SortByRecency(t, ks))
    ensures Distinct(SortByRecency(t, ks))
  {
    if ks != [] {
      var init := ks[..|ks| - 1];
      assert Distinct(init);
      assert ks[|ks| - 1] !in init;
      SortByRecencyCorrect(t, init);
      InsertKeepsOrder(t, ks[|ks| - 1], SortByRecency(t, init));
      InsertKeepsDistinct(t, ks[|ks| - 1], SortByRecency(t, init));
    }
  }

  /** Above capacity, keep the 500 most recently checked entries, newest first. */
  function Evict(t: Table): Table
    requires WellFormed(t)
  {
    if Size(t) > Capacity then
      var keep := SortByRecency(t, t.order)[..Capacity];
      Table(keep, map k | k in keep :: t.entries[k])
    else t
  }

  /**
   * Eviction keeps at most 500 entries, drops none when the table fits,
   * keeps every kept entry as it was, and drops only entries checked no
   * later than every kept one.
   */
  lemma EvictCorrect(t: Table)
    requires WellFormed(t)
    ensures WellFormed(Evict(t))
    ensures Size(Evict(t)) == (if Size(t) > Capacity then Capacity else Size(t))
    ensures Size(t) <= Capacity ==> Evict(t) == t
    ensures forall k :: k in Evict(t).entries ==> k in t.entries && Evict(t).entries[k] == t.entries[k]
    ensures forall k, d :: k in Evict(t).entries && d in t.entries && d !in Evict(t).entries ==>
      StrLe(t.entries[d].lastChecked, t.entries[k].lastChecked)
  {
    if Size(t) > Capacity {
      SortByRecencyCorrect(t, t.order);
      assert Evict(t).order == SortByRecency(t, t.order)[..Capacity];
      EvictDropsOldest(t);
    }
  }

  /** Above capacity, an entry is dropped only if it was checked no later than every kept one. */
  lemma EvictDropsOldest(t: Table)
    requires WellFormed(t) && Size(t) > Capacity
    ensures forall k, d :: k in Evict(t).entries && d in t.entries && d !in Evict(t).entries ==>
      StrLe(t.entries[d].lastChecked, t.entries[k].lastChecked)
  {
    var s := SortByRecency(t, t.order);
    SortByRecencyCorrect(t, t.order);
    var keep := s[..Capacity];
    var r := Evict(t);
    forall k, d | k in r.entries && d in t.entries && d !in r.entries
      ensures StrLe(t.entries[d].lastChecked, t.entries[k].lastChecked)
    {
      var i :| 0 <= i < Capacity && keep[i] == k;
      assert d in s;
      var j :| 0 <= j < |s| && s[j] == d;
      assert Capacity <= j;
      assert s[i] == k;
    }
  }

  // -------------------------------------------------------- the file

  /**
   * What `kaspi_price_data.json` holds: nothing, text that is not JSON
   * (read as an empty cache), something Python cannot use as a dict (a JSON
   * array or scalar, or bytes that are not UTF-8: the error escapes the
   * estimator), or an object.
   */
  datatype CacheFile = Missing | Undecodable | Unusable | Stored(table: Table)

  predicate ValidFile(f: CacheFile) {
    f.Stored? ==> WellFormed(f.table)
  }

  /** What the estimator reads: None when the estimate falls back. */
  function Loaded(f: CacheFile): (r: Option<Table>)
    requires ValidFile(f)
    ensures r.Some? ==> WellFormed(r.value)
    ensures r.None? <==> f.Unusable?
    ensures f.Missing? || f.Undecodable? ==> r == Some(Empty)
    ensures f.Stored? ==> r == Some(f.table)
  {
    match f
    case Missing => Some(Empty)
    case Undecodable => Some(Empty)
    case Unusable => None
    case Stored(t) => Some(t)
  }

  /** The cache after recording one estimate, and the table written to the file, if one is. */
  datatype Step = Step(memory: Table, written: Option<Table>)

  /** Put the entry; when a write is due, evict and write. */
  function RecordStep(t: Table, fileExists: bool, key: string, e: CacheEntry): (r: Step)
    requires WellFormed(t)
    ensures WellFormed(r.memory)
    ensures r.written.Some? <==> FlushDue(Size(Put(t, key, e)), fileExists)
    ensures r.written.Some? ==> r.written == Some(r.memory) && Size(r.memory) <= Capacity
    ensures Size(Put(t, key, e)) <= Capacity ==> r.memory == Put(t, key, e)
    ensures r.written.Some? ==> r.memory == Evict(Put(t, key, e))
    ensures r.written.None? ==> r.memory == Put(t, key, e)
  {
    var u := Put(t, key, e);
    EvictCorrect(u);
    if FlushDue(Size(u), fileExists) then Step(Evict(u), Some(Evict(u))) else Step(u, None)
  }

  /** The file after a write, or the file as it was. */
  function AfterWrite(f: CacheFile, written: Option<Table>): CacheFile {
    match written
    case Some(w) => Stored(w)
    case None => f
  }

  // ------------------------------------------------ the code as written

  /**
   * One estimate as the source performs it: the cache is reloaded from the
   * file, the entry is recorded, and whatever is not written is lost when
   * the call returns.
   */
  function AsWrittenCall(f: CacheFile, key: string, e: CacheEntry): (r: CacheFile)
    requires ValidFile(f)
    ensures ValidFile(r)
  {
    match Loaded(f)
    case None => f
    case Some(t) =>
      var step := RecordStep(t, !f.Missing?, key, e);
      AfterWrite(f, step.written)
  }

  /** A run of estimates, as the file sees them. */
  function AsWrittenRun(f: CacheFile, calls: seq<(string, CacheEntry)>): (r: CacheFile)
    requires ValidFile(f)
    ensures ValidFile(r)
    decreases |calls|
  {
    if calls == [] then f
    else AsWrittenRun(AsWrittenCall(f, calls[0].0, calls[0].1), calls[1..])
  }

  /** A stored table whose size is neither a multiple of fifty nor one short of one is never rewritten. */
  lemma AsWrittenCallFreezes(f: CacheFile, key: string, e: CacheEntry)
    requires f.Stored? && WellFormed(f.table)
    requires Size(f.table) % FlushEvery != 0 && Size(f.table) % FlushEvery != FlushEvery - 1
    ensures AsWrittenCall(f, key, e) == f
  {
    var n := Size(f.table);
    var u := Put(f.table, key, e);
    assert Size(u) == n || Size(u) == n + 1;
    assert Size(u) % FlushEvery != 0;
    assert !FlushDue(Size(u), true);
  }

  /** Such a file stays exactly as it is, however many estimates are made. */
  lemma {:induction false} AsWrittenRunFreezes(f: CacheFile, calls: seq<(string, CacheEntry)>)
    requires f.Stored? && WellFormed(f.table)
    requires Size(f.table) % FlushEvery != 0 && Size(f.table) % FlushEvery != FlushEvery - 1
    ensures AsWrittenRun(f, calls) == f
  {
    if calls != [] {
      AsWrittenCallFreezes(f, calls[0].0, calls[0].1);
      AsWrittenRunFreezes(f, calls[1..]);
    }
  }

  /** Starting without a file, only the first estimate ever reaches it. */
  lemma AsWrittenKeepsOnlyFirst(calls: seq<(string, CacheEntry)>)
    requires |calls| >= 1
    ensures AsWrittenRun(Missing, calls) == Stored(Put(Empty, calls[0].0, calls[0].1))
  {
    FirstCallStores(calls[0].0, calls[0].1);
    AsWrittenRunFreezes(Stored(Put(Empty, calls[0].0, calls[0].1)), calls[1..]);
  }

  /** Without a file, the first estimate writes a one-entry table. */
  lemma FirstCallStores(key: string, e: CacheEntry)
    ensures AsWrittenCall(Missing, key, e) == Stored(Put(Empty, key, e))
    ensures Size(Put(Empty, key, e)) == 1
  {
    var u := Put(Empty, key, e);
    assert Size(u) == 1;
    assert RecordStep(Empty, false, key, e).written == Some(u);
  }

  /** A file that is not JSON is read as empty every time and is never rewritten. */
  lemma {:induction false} AsWrittenKeepsUndecodable(calls: seq<(string, CacheEntry)>)
    ensures AsWrittenRun(Undecodable, calls) == Undecodable
  {
    if calls != [] {
      assert AsWrittenCall(Undecodable, calls[0].0, calls[0].1) == Undecodable;
      AsWrittenKeepsUndecodable(calls[1..]);
    }
  }

  // -------------------------------------------- the corrected cache

  /** A run of records on a cache kept in memory: the cache and the file after the run. */
  function CorrectedRun(t: Table, f: CacheFile, calls: seq<(string, CacheEntry)>): (r: (Table, CacheFile))
    requires WellFormed(t) && ValidFile(f)
    ensures WellFormed(r.0) && ValidFile(r.1)
    decreases |calls|
  {
    if calls == [] then (t, f)
    else
      var prev := CorrectedRun(t, f, calls[..|calls| - 1]);
      Apply(prev.0, prev.1, calls[|calls| - 1])
  }

  /** One record on a cache kept in memory: the cache and the file after it. */
  function Apply(t: Table, f: CacheFile, call: (string, CacheEntry)): (r: (Table, CacheFile))
    requires WellFormed(t) && ValidFile(f)
    ensures WellFormed(r.0) && ValidFile(r.1)
  {
    var step := RecordStep(t, !f.Missing?, call.0, call.1);
    (step.memory, AfterWrite(f, step.written))
  }

  /** Every key of a run, with the latest entry recorded for it. */
  function PutAll(t: Table, calls: seq<(string, CacheEntry)>): (r: Table)
    requires WellFormed(t)
    ensures WellFormed(r)
    ensures Size(t) <= Size(r) <= Size(t) + |calls|
    decreases |calls|
  {
    if calls == [] then t
    else
      var last := calls[|calls| - 1];
      Put(PutAll(t, calls[..|calls| - 1]), last.0, last.1)
  }

  /** PutAll holds every key of the run, with the last entry recorded for it. */
  lemma {:induction false} PutAllHoldsEvery(t: Table, calls: seq<(string, CacheEntry)>, i: nat)
    requires WellFormed(t) && i < |calls|
    requires forall j :: i < j < |calls| ==> calls[j].0 != calls[i].0
    ensures calls[i].0 in PutAll(t, calls).entries && PutAll(t, calls).entries[calls[i].0] == calls[i].1
    decreases |calls|
  {
    if i < |calls| - 1 {
      var init := calls[..|calls| - 1];
      assert forall j :: i < j < |init| ==> init[j] == calls[j];
      PutAllHoldsEvery(t, init, i);
    }
  }

  /**
   * While the cache stays within capacity, a run in memory loses nothing:
   * the cache holds every estimate of the run.
   */
  lemma {:induction false} CorrectedRunKeepsAll(t: Table, f: CacheFile, calls: seq<(string, CacheEntry)>)
    requires WellFormed(t) && ValidFile(f)
    requires Size(t) + |calls| <= Capacity
    ensures CorrectedRun(t, f, calls).0 == PutAll(t, calls)
    decreases |calls|
  {
    if calls != [] {
      CorrectedRunKeepsAll(t, f, calls[..|calls| - 1]);
    }
  }

  /** A run from no file writes the file at its first record, and the file then follows every flush. */
  lemma CorrectedRunCreatesFile(t: Table, calls: seq<(string, CacheEntry)>)
    requires WellFormed(t) && calls != []
    ensures !CorrectedRun(t, Missing, calls).1.Missing?
    decreases |calls|
  {
    if |calls| > 1 {
      CorrectedRunCreatesFile(t, calls[..|calls| - 1]);
    }
  }

  /** The in-memory cache of the estimator: loaded from the file once, then kept across estimates. */
  class EstimateCache {
    var memory: Table
    var disk: CacheFile
    const usable: bool

    ghost predicate Valid()
      reads this
    {
      WellFormed(memory) && ValidFile(disk)
    }

    /** Read the file once. */
    constructor Load(f: CacheFile)
      requires ValidFile(f)
      ensures Valid()
      ensures usable == Loaded(f).Some?
      ensures memory == Loaded(f).GetOr(Empty)
      ensures disk == f
    {
      var loaded := Loaded(f);
      usable := loaded.Some?;
      memory := loaded.GetOr(Empty);
      disk := f;
    }

    /** Record an estimate; report whether the file was written. */
    method Record(key: string, e: CacheEntry) returns (flushed: bool)
      requires Valid() && usable
      modifies this
      ensures Valid()
      ensures var step := RecordStep(old(memory), !old(disk).Missing?, key, e);
        memory == step.memory && disk == AfterWrite(old(disk), step.written) && flushed == step.written.Some?
      ensures flushed ==> disk == Stored(memory)
      ensures key in memory.entries || flushed
    {
      var step := RecordStep(memory, !disk.Missing?, key, e);
      memory := step.memory;
      flushed := step.written.Some?;
      if flushed {
        disk := Stored(step.written.value);
      }
    }
  }
}
