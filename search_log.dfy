/**
 * The search log and the two statistics pipelines run over it.
 *
 * A log record has the shape the log writer inserts: a timestamp, the search
 * type, the search parameters and the number of films on the page. The two
 * pipelines group the records by their parameters, sort the groups and keep the
 * first five:
 *   - "recent": the latest timestamp of each group and the search type of a
 *     record carrying it, newest group first;
 *   - "popular": the number of records of each group and the search type of
 *     one of them, most frequent group first.
 * Each pipeline is given twice: as a declarative predicate (what any correct
 * answer satisfies, leaving ties open) and as a function computing one answer,
 * with a lemma that the second satisfies the first.
 */
module SearchLog {

  /** The ISO-8601 text the log writer stores; only its order matters here. */
  type Timestamp = int

  /** A parameter value: the keyword or genre text, or a year. */
  datatype Value = Text(text: string) | Number(number: int)

  /** The `params` document: {keyword} or {genre, year_from, year_to}. */
  type Params = map<string, Value>

  datatype LogRecord = LogRecord(timestamp: Timestamp, searchType: string, params: Params, resultsCount: int)

  /** The log collection, or the error the store raises when it is queried. */
  datatype LogStore = Reachable(records: seq<LogRecord>) | Unreachable(error: string)

  datatype RecentGroup = RecentGroup(params: Params, timestamp: Timestamp, searchType: string)
  datatype PopularGroup = PopularGroup(params: Params, count: nat, searchType: string)

  /** The `$limit` stage of both pipelines. */
  const Limit: nat := 5

  // ----- Generic helpers: distinct keys, lookup, sorting by a key, descending -----

  ghost predicate DistinctBy<T, K>(s: seq<T>, f: T -> K) {
    forall i, j :: 0 <= i < j < |s| ==> f(s[i]) != f(s[j])
  }

  /** Some element of `s` has key `k`. */
  ghost predicate ListedBy<T, K>(s: seq<T>, f: T -> K, k: K) {
    exists i :: 0 <= i < |s| && f(s[i]) == k
  }

  /** The position of the first element of `s` with key `k`, or -1. */
  function Find<T, K(==)>(s: seq<T>, f: T -> K, k: K): (i: int)
    ensures -1 <= i < |s|
    ensures 0 <= i ==> f(s[i]) == k
    ensures i < 0 ==> forall j :: 0 <= j < |s| ==> f(s[j]) != k
  {
    if s == [] then -1
    else if f(s[0]) == k then 0
    else var i := Find(s[1..], f, k); if i < 0 then -1 else i + 1
  }

  ghost predicate SortedDesc<T>(s: seq<T>, key: T -> int) {
    forall i, j :: 0 <= i < j < |s| ==> key(s[i]) >= key(s[j])
  }

  /** Insert `x` in front of the first element whose key does not exceed its own. */
  function Insert<T>(x: T, s: seq<T>, key: T -> int): seq<T> {
    if s == [] || key(x) >= key(s[0]) then [x] + s else [s[0]] + Insert(x, s[1..], key)
  }

  /** Insertion sort by `key`, largest key first (the `$sort` stage with -1). */
  function SortDesc<T>(s: seq<T>, key: T -> int): seq<T> {
    if s == [] then [] else Insert(s[0], SortDesc(s[1..], key), key)
  }

  lemma {:induction false} InsertBounded<T>(x: T, s: seq<T>, key: T -> int, b: int)
    requires key(x) <= b
    requires forall i :: 0 <= i < |s| ==> key(s[i]) <= b
    ensures |Insert(x, s, key)| == |s| + 1
    ensures forall i :: 0 <= i < |Insert(x, s, key)| ==> key(Insert(x, s, key)[i]) <= b
  {
    if s != [] && key(x) < key(s[0]) {
      InsertBounded(x, s[1..], key, b);
    }
  }

  lemma {:induction false} InsertSpec<T>(x: T, s: seq<T>, key: T -> int)
    requires SortedDesc(s, key)
    ensures SortedDesc(Insert(x, s, key), key)
    ensures multiset(Insert(x, s, key)) == multiset(s) + multiset{x}
    ensures |Insert(x, s, key)| == |s| + 1
  {
    InsertMultiset(x, s, key);
    if s == [] || key(x) >= key(s[0]) {
      InsertBounded(x, s, key, key(x));
    } else {
      var tail := s[1..];
      InsertSpec(x, tail, key);
      InsertBounded(x, tail, key, key(s[0]));
      var t := Insert(x, tail, key);
      var r := Insert(x, s, key);
      assert r == [s[0]] + t;
      forall i, j | 0 <= i < j < |r| ensures key(r[i]) >= key(r[j]) {
        assert r[j] == t[j - 1];
        if i > 0 {
          assert r[i] == t[i - 1];
        }
      }
    }
  }

  /** The sorted sequence is a permutation of the input, ordered by key, descending. */
  lemma SortDescSpec<T>(s: seq<T>, key: T -> int)
    ensures SortedDesc(SortDesc(s, key), key)
    ensures multiset(SortDesc(s, key)) == multiset(s)
    ensures |SortDesc(s, key)| == |s|
  {
    SortDescSorted(s, key);
    SortDescPerm(s, key);
  }

  lemma {:induction false} SortDescSorted<T>(s: seq<T>, key: T -> int)
    ensures SortedDesc(SortDesc(s, key), key)
  {
    if s != [] {
      SortDescSorted(s[1..], key);
      InsertSpec(s[0], SortDesc(s[1..], key), key);
    }
  }

  lemma {:induction false} SortDescPerm<T>(s: seq<T>, key: T -> int)
    ensures multiset(SortDesc(s, key)) == multiset(s)
    ensures |SortDesc(s, key)| == |s|
  {
    if s != [] {
      SortDescPerm(s[1..], key);
      InsertMultiset(s[0], SortDesc(s[1..], key), key);
      assert s == [s[0]] + s[1..];
    }
  }

  /** Sorting keeps the keys of distinct-keyed elements distinct. */
  lemma {:induction false} SortDescDistinct<T, K>(s: seq<T>, key: T -> int, f: T -> K)
    requires DistinctBy(s, f)
    ensures DistinctBy(SortDesc(s, key), f)
  {
    if s != [] {
      var tail := s[1..];
      assert DistinctBy(tail, f);
      SortDescDistinct(tail, key, f);
      SortDescSpec(tail, key);
      var sorted := SortDesc(tail, key);
      forall y | y in sorted ensures f(y) != f(s[0]) {
        assert y in multiset(tail);
        var k :| 0 <= k < |tail| && tail[k] == y;
        assert s[k + 1] == y;
      }
      InsertDistinct(s[0], sorted, key, f);
    }
  }

  lemma {:induction false} InsertDistinct<T, K>(x: T, s: seq<T>, key: T -> int, f: T -> K)
    requires DistinctBy(s, f)
    requires forall y :: y in s ==> f(y) != f(x)
    ensures DistinctBy(Insert(x, s, key), f)
  {
    if s == [] || key(x) >= key(s[0]) {
      ConsDistinct(x, s, f);
    } else {
      var tail := s[1..];
      assert DistinctBy(tail, f);
      InsertDistinct(x, tail, key, f);
      var t := Insert(x, tail, key);
      InsertMultiset(x, tail, key);
      forall y | y in t ensures f(y) != f(s[0]) {
        assert y in multiset(t);
        if y != x {
          var k :| 0 <= k < |tail| && tail[k] == y;
          assert s[k + 1] == y;
        }
      }
      ConsDistinct(s[0], t, f);
      assert Insert(x, s, key) == [s[0]] + t;
    }
  }

  /** An element whose key no element of `t` has keeps the keys distinct when put in front. */
  lemma ConsDistinct<T, K>(h: T, t: seq<T>, f: T -> K)
    requires DistinctBy(t, f)
    requires forall y :: y in t ==> f(y) != f(h)
    ensures DistinctBy([h] + t, f)
  {
    var r := [h] + t;
    forall i, j | 0 <= i < j < |r| ensures f(r[i]) != f(r[j]) {
      assert r[j] == t[j - 1];
      if i > 0 {
        assert r[i] == t[i - 1];
      }
    }
  }


  lemma {:induction false} InsertMultiset<T>(x: T, s: seq<T>, key: T -> int)
    ensures multiset(Insert(x, s, key)) == multiset(s) + multiset{x}
  {
    if s != [] && key(x) < key(s[0]) {
      InsertMultiset(x, s[1..], key);
      assert s == [s[0]] + s[1..];
    }
  }

  /** The `$limit: 5` stage. */
  function Take<T>(s: seq<T>): seq<T> {
    if |s| <= Limit then s else s[..Limit]
  }

  // ----- What the records say about one group of parameters -----

  /** The number of records with parameters `p`. */
  function Count(log: seq<LogRecord>, p: Params): nat {
    if log == [] then 0
    else Count(log[..|log| - 1], p) + (if log[|log| - 1].params == p then 1 else 0)
  }

  function RecentKey(g: RecentGroup): Params { g.params }
  function RecentStamp(g: RecentGroup): int { g.timestamp }
  function PopularKey(g: PopularGroup): Params { g.params }
  function PopularCount(g: PopularGroup): int { g.count }

  /**
   * `g` carries the latest timestamp of its group, and the search type of a record
   * of the group stamped with it.
   */
  ghost predicate IsLatest(log: seq<LogRecord>, g: RecentGroup) {
    && (exists k :: 0 <= k < |log| && log[k].params == g.params
                    && log[k].timestamp == g.timestamp && log[k].searchType == g.searchType)
    && (forall k :: 0 <= k < |log| && log[k].params == g.params ==> log[k].timestamp <= g.timestamp)
  }

  /** `g` counts the records of its group and carries the search type of one of them. */
  ghost predicate IsTally(log: seq<LogRecord>, g: PopularGroup) {
    && g.count == Count(log, g.params)
    && (exists k :: 0 <= k < |log| && log[k].params == g.params && log[k].searchType == g.searchType)
  }

  /**
   * A correct answer of the "recent" pipeline: at most five groups, pairwise
   * distinct parameters, each with its group's latest timestamp, newest first,
   * and every group left out is full-answer-excluded: the answer has five groups
   * and none of them is older than the left-out record.
   */
  ghost predicate IsRecentAnswer(log: seq<LogRecord>, r: seq<RecentGroup>) {
    && |r| <= Limit
    && DistinctBy(r, RecentKey)
    && (forall i :: 0 <= i < |r| ==> IsLatest(log, r[i]))
    && SortedDesc(r, RecentStamp)
    && (forall k :: 0 <= k < |log| && !ListedBy(r, RecentKey, log[k].params) ==>
          |r| == Limit && forall i :: 0 <= i < |r| ==> log[k].timestamp <= r[i].timestamp)
  }

  /**
   * A correct answer of the "popular" pipeline: at most five groups, pairwise
   * distinct parameters, each with the exact number of its records, most frequent
   * first, and no group left out is more frequent than a group in the answer,
   * which then has five groups.
   */
  ghost predicate IsPopularAnswer(log: seq<LogRecord>, r: seq<PopularGroup>) {
    && |r| <= Limit
    && DistinctBy(r, PopularKey)
    && (forall i :: 0 <= i < |r| ==> IsTally(log, r[i]))
    && SortedDesc(r, PopularCount)
    && (forall k :: 0 <= k < |log| && !ListedBy(r, PopularKey, log[k].params) ==>
          |r| == Limit && forall i :: 0 <= i < |r| ==> Count(log, log[k].params) <= r[i].count)
  }

  // ----- The `$group` stages -----

  /** Fold one record into the "recent" groups. */
  function AddLatest(gs: seq<RecentGroup>, rec: LogRecord): seq<RecentGroup> {
    var i := Find(gs, RecentKey, rec.params);
    if i < 0 then gs + [RecentGroup(rec.params, rec.timestamp, rec.searchType)]
    else if rec.timestamp > gs[i].timestamp then gs[i := RecentGroup(rec.params, rec.timestamp, rec.searchType)]
    else gs
  }

  /** One group per distinct `params`, with its latest timestamp. */
  function LatestGroups(log: seq<LogRecord>): (r: seq<RecentGroup>)
    ensures |r| <= |log|
    ensures log != [] ==> r != []
  {
    if log == [] then [] else AddLatest(LatestGroups(log[..|log| - 1]), log[|log| - 1])
  }

  /** Fold one record into the "popular" groups. */
  function AddCount(gs: seq<PopularGroup>, rec: LogRecord): seq<PopularGroup> {
    var i := Find(gs, PopularKey, rec.params);
    if i < 0 then gs + [PopularGroup(rec.params, 1, rec.searchType)]
    else gs[i := gs[i].(count := gs[i].count + 1)]
  }

  /** One group per distinct `params`, with its number of records. */
  function CountGroups(log: seq<LogRecord>): (r: seq<PopularGroup>)
    ensures |r| <= |log|
    ensures log != [] ==> r != []
  {
    if log == [] then [] else AddCount(CountGroups(log[..|log| - 1]), log[|log| - 1])
  }

  ghost predicate LatestGroupsOf(log: seq<LogRecord>, gs: seq<RecentGroup>) {
    && DistinctBy(gs, RecentKey)
    && (forall i :: 0 <= i < |gs| ==> IsLatest(log, gs[i]))
    && (forall k :: 0 <= k < |log| ==> ListedBy(gs, RecentKey, log[k].params))
  }

  ghost predicate CountGroupsOf(log: seq<LogRecord>, gs: seq<PopularGroup>) {
    && DistinctBy(gs, PopularKey)
    && (forall i :: 0 <= i < |gs| ==> IsTally(log, gs[i]))
    && (forall k :: 0 <= k < |log| ==> ListedBy(gs, PopularKey, log[k].params))
  }

  lemma AddLatestStep(log: seq<LogRecord>, gs: seq<RecentGroup>, rec: LogRecord)
    requires LatestGroupsOf(log, gs)
    ensures LatestGroupsOf(log + [rec], AddLatest(gs, rec))
  {
    AddLatestDistinct(gs, rec);
    AddLatestLatest(log, gs, rec);
    AddLatestCovers(log, gs, rec);
  }

  lemma AddLatestDistinct(gs: seq<RecentGroup>, rec: LogRecord)
    requires DistinctBy(gs, RecentKey)
    ensures DistinctBy(AddLatest(gs, rec), RecentKey)
  {
    var gs' := AddLatest(gs, rec);
    forall i, j | 0 <= i < j < |gs'| ensures RecentKey(gs'[i]) != RecentKey(gs'[j]) {
      if j == |gs| {
        assert RecentKey(gs[i]) != rec.params;
      }
    }
  }

  lemma AddLatestLatest(log: seq<LogRecord>, gs: seq<RecentGroup>, rec: LogRecord)
    requires LatestGroupsOf(log, gs)
    ensures forall j :: 0 <= j < |AddLatest(gs, rec)| ==> IsLatest(log + [rec], AddLatest(gs, rec)[j])
  {
    var gs' := AddLatest(gs, rec);
    var i := Find(gs, RecentKey, rec.params);
    forall j | 0 <= j < |gs'| ensures IsLatest(log + [rec], gs'[j]) {
      if j < |gs| && gs'[j] == gs[j] {
        assert gs[j].params != rec.params || j == i;
        KeptLatest(log, gs[j], rec);
      } else {
        forall k | 0 <= k < |log| && log[k].params == rec.params ensures log[k].timestamp <= rec.timestamp {
          assert ListedBy(gs, RecentKey, log[k].params);
          assert IsLatest(log, gs[i]);
        }
        NewLatest(log, rec);
      }
    }
  }

  /** A group stays the latest of its records when the new record is of another group or no newer. */
  lemma KeptLatest(log: seq<LogRecord>, g: RecentGroup, rec: LogRecord)
    requires IsLatest(log, g)
    requires g.params != rec.params || rec.timestamp <= g.timestamp
    ensures IsLatest(log + [rec], g)
  {
    var log' := log + [rec];
    var k :| 0 <= k < |log| && log[k].params == g.params
             && log[k].timestamp == g.timestamp && log[k].searchType == g.searchType;
    assert log'[k] == log[k];
    forall k' | 0 <= k' < |log'| && log'[k'].params == g.params ensures log'[k'].timestamp <= g.timestamp {
      if k' < |log| {
        assert log'[k'] == log[k'];
      }
    }
  }

  /** A record no older than every earlier record of its group makes a group that is the latest of them all. */
  lemma NewLatest(log: seq<LogRecord>, rec: LogRecord)
    requires forall k :: 0 <= k < |log| && log[k].params == rec.params ==> log[k].timestamp <= rec.timestamp
    ensures IsLatest(log + [rec], RecentGroup(rec.params, rec.timestamp, rec.searchType))
  {
    var log' := log + [rec];
    assert log'[|log|] == rec;
    forall k | 0 <= k < |log'| && log'[k].params == rec.params ensures log'[k].timestamp <= rec.timestamp {
      if k < |log| {
        assert log'[k] == log[k];
      }
    }
  }

  lemma AddLatestCovers(log: seq<LogRecord>, gs: seq<RecentGroup>, rec: LogRecord)
    requires forall k :: 0 <= k < |log| ==> ListedBy(gs, RecentKey, log[k].params)
    ensures forall k :: 0 <= k < |log| + 1 ==> ListedBy(AddLatest(gs, rec), RecentKey, (log + [rec])[k].params)
  {
    var log' := log + [rec];
    var gs' := AddLatest(gs, rec);
    var i := Find(gs, RecentKey, rec.params);
    forall k | 0 <= k < |log'| ensures ListedBy(gs', RecentKey, log'[k].params) {
      if k < |log| {
        assert log'[k] == log[k];
        assert ListedBy(gs, RecentKey, log[k].params);
        var m :| 0 <= m < |gs| && RecentKey(gs[m]) == log[k].params;
        assert RecentKey(gs'[m]) == log[k].params;
      } else if i < 0 {
        assert RecentKey(gs'[|gs|]) == rec.params;
      } else {
        assert RecentKey(gs'[i]) == rec.params;
      }
    }
  }

  lemma {:induction false} LatestGroupsSpec(log: seq<LogRecord>)
    ensures LatestGroupsOf(log, LatestGroups(log))
  {
    if log != [] {
      var init := log[..|log| - 1];
      LatestGroupsSpec(init);
      assert init + [log[|log| - 1]] == log;
      AddLatestStep(init, LatestGroups(init), log[|log| - 1]);
    }
  }

  lemma CountSnoc(log: seq<LogRecord>, rec: LogRecord, p: Params)
    ensures Count(log + [rec], p) == Count(log, p) + (if rec.params == p then 1 else 0)
  {
    assert (log + [rec])[..|log|] == log;
  }

  lemma {:induction false} CountPositive(log: seq<LogRecord>, k: nat)
    requires k < |log|
    ensures Count(log, log[k].params) >= 1
  {
    if k < |log| - 1 {
      CountPositive(log[..|log| - 1], k);
    }
  }

  lemma AddCountStep(log: seq<LogRecord>, gs: seq<PopularGroup>, rec: LogRecord)
    requires CountGroupsOf(log, gs)
    ensures CountGroupsOf(log + [rec], AddCount(gs, rec))
  {
    AddCountDistinct(gs, rec);
    AddCountTally(log, gs, rec);
    AddCountCovers(log, gs, rec);
  }

  lemma AddCountDistinct(gs: seq<PopularGroup>, rec: LogRecord)
    requires DistinctBy(gs, PopularKey)
    ensures DistinctBy(AddCount(gs, rec), PopularKey)
  {
    var gs' := AddCount(gs, rec);
    forall i, j | 0 <= i < j < |gs'| ensures PopularKey(gs'[i]) != PopularKey(gs'[j]) {
      if j == |gs| {
        assert PopularKey(gs[i]) != rec.params;
      } else {
        assert PopularKey(gs'[i]) == PopularKey(gs[i]) && PopularKey(gs'[j]) == PopularKey(gs[j]);
      }
    }
  }

  lemma AddCountTally(log: seq<LogRecord>, gs: seq<PopularGroup>, rec: LogRecord)
    requires CountGroupsOf(log, gs)
    ensures forall j :: 0 <= j < |AddCount(gs, rec)| ==> IsTally(log + [rec], AddCount(gs, rec)[j])
  {
    var log' := log + [rec];
    var gs' := AddCount(gs, rec);
    var n := |log|;
    var i := Find(gs, PopularKey, rec.params);
    forall j | 0 <= j < |gs'| ensures IsTally(log', gs'[j]) {
      CountSnoc(log, rec, gs'[j].params);
      if j < |gs| {
        var g := gs[j];
        assert IsTally(log, g);
        assert gs'[j].params == g.params && gs'[j].searchType == g.searchType;
        var k :| 0 <= k < n && log[k].params == g.params && log[k].searchType == g.searchType;
        assert log'[k] == log[k];
      } else {
        assert gs'[j] == PopularGroup(rec.params, 1, rec.searchType);
        assert log'[n] == rec;
        forall k | 0 <= k < n ensures log[k].params != rec.params {
          assert ListedBy(gs, PopularKey, log[k].params);
        }
        CountAbsent(log, rec.params);
      }
    }
  }

  lemma AddCountCovers(log: seq<LogRecord>, gs: seq<PopularGroup>, rec: LogRecord)
    requires forall k :: 0 <= k < |log| ==> ListedBy(gs, PopularKey, log[k].params)
    ensures forall k :: 0 <= k < |log| + 1 ==> ListedBy(AddCount(gs, rec), PopularKey, (log + [rec])[k].params)
  {
    var log' := log + [rec];
    var gs' := AddCount(gs, rec);
    var i := Find(gs, PopularKey, rec.params);
    forall k | 0 <= k < |log'| ensures ListedBy(gs', PopularKey, log'[k].params) {
      if k < |log| {
        assert log'[k] == log[k];
        assert ListedBy(gs, PopularKey, log[k].params);
        var m :| 0 <= m < |gs| && PopularKey(gs[m]) == log[k].params;
        assert PopularKey(gs'[m]) == log[k].params;
      } else if i < 0 {
        assert PopularKey(gs'[|gs|]) == rec.params;
      } else {
        assert PopularKey(gs'[i]) == rec.params;
      }
    }
  }

  /** A request never logged has been counted zero times. */
  lemma {:induction false} CountAbsent(log: seq<LogRecord>, p: Params)
    requires forall k :: 0 <= k < |log| ==> log[k].params != p
    ensures Count(log, p) == 0
  {
    if log != [] {
      var init := log[..|log| - 1];
      forall k | 0 <= k < |init| ensures init[k].params != p {
        assert init[k] == log[k];
      }
      CountAbsent(init, p);
    }
  }

  lemma {:induction false} CountGroupsSpec(log: seq<LogRecord>)
    ensures CountGroupsOf(log, CountGroups(log))
  {
    if log != [] {
      var init := log[..|log| - 1];
      CountGroupsSpec(init);
      assert init + [log[|log| - 1]] == log;
      AddCountStep(init, CountGroups(init), log[|log| - 1]);
    }
  }

  // ----- The two pipelines -----

  /** `$sort` newest first, `$group` by params, `$sort` newest first, `$limit` 5. */
  function Recent(log: seq<LogRecord>): (r: seq<RecentGroup>)
    ensures |r| <= Limit
  {
    Take(SortDesc(LatestGroups(log), RecentStamp))
  }

  /** `$group` by params with a count, `$sort` by count descending, `$limit` 5. */
  function Popular(log: seq<LogRecord>): (r: seq<PopularGroup>)
    ensures |r| <= Limit
  {
    Take(SortDesc(CountGroups(log), PopularCount))
  }

  /**
   * `$sort` then `$limit`: at most five elements of `s`, largest key first, and an
   * element left out leaves a full answer none of whose keys is smaller than its own.
   */
  lemma Top<T>(s: seq<T>, key: T -> int)
    ensures |Take(SortDesc(s, key))| <= Limit
    ensures SortedDesc(Take(SortDesc(s, key)), key)
    ensures forall x :: x in Take(SortDesc(s, key)) ==> x in s
    ensures forall x :: x in s && x !in Take(SortDesc(s, key)) ==>
              |Take(SortDesc(s, key))| == Limit &&
              forall i :: 0 <= i < |Take(SortDesc(s, key))| ==> key(x) <= key(Take(SortDesc(s, key))[i])
  {
    SortDescSpec(s, key);
    TakePrefix(SortDesc(s, key));
    TopLeftOut(s, key);
    forall x | x in Take(SortDesc(s, key)) ensures x in s {
      assert x in multiset(SortDesc(s, key));
    }
  }

  /** `$limit` keeps a prefix of at most five. */
  lemma TakePrefix<T>(s: seq<T>)
    ensures |Take(s)| <= Limit && Take(s) == s[..|Take(s)|]
    ensures |Take(s)| < Limit ==> Take(s) == s
  {
  }

  lemma TopLeftOut<T>(s: seq<T>, key: T -> int)
    ensures forall x :: x in s && x !in Take(SortDesc(s, key)) ==>
              |Take(SortDesc(s, key))| == Limit &&
              forall i :: 0 <= i < |Take(SortDesc(s, key))| ==> key(x) <= key(Take(SortDesc(s, key))[i])
  {
    var sorted := SortDesc(s, key);
    SortDescSpec(s, key);
    TakePrefix(sorted);
    var r := Take(sorted);
    forall x | x in s && x !in r
      ensures |r| == Limit && forall i :: 0 <= i < |r| ==> key(x) <= key(r[i])
    {
      assert x in multiset(sorted);
      var m :| 0 <= m < |sorted| && sorted[m] == x;
      assert m >= |r|;
      forall i | 0 <= i < |r| ensures key(x) <= key(r[i]) {
        assert r[i] == sorted[i];
      }
    }
  }

  lemma TopDistinct<T, K>(s: seq<T>, key: T -> int, f: T -> K)
    requires DistinctBy(s, f)
    ensures DistinctBy(Take(SortDesc(s, key)), f)
  {
    SortDescDistinct(s, key, f);
  }

  /** Every group of a "recent" answer is one of the `$group` stage's groups, so it is the latest of its records. */
  lemma RecentGroupsLatest(log: seq<LogRecord>)
    ensures forall i :: 0 <= i < |Recent(log)| ==> IsLatest(log, Recent(log)[i])
  {
    var gs := LatestGroups(log);
    LatestGroupsSpec(log);
    Top(gs, RecentStamp);
    var r := Recent(log);
    forall i | 0 <= i < |r| ensures IsLatest(log, r[i]) {
      assert r[i] in gs;
      var j :| 0 <= j < |gs| && gs[j] == r[i];
    }
  }

  /** A record whose group the "recent" answer leaves out is no newer than any group in it. */
  lemma RecentLeftOut(log: seq<LogRecord>)
    ensures forall k :: 0 <= k < |log| && !ListedBy(Recent(log), RecentKey, log[k].params) ==>
              |Recent(log)| == Limit && forall i :: 0 <= i < |Recent(log)| ==> log[k].timestamp <= Recent(log)[i].timestamp
  {
    var gs := LatestGroups(log);
    var r := Recent(log);
    forall k | 0 <= k < |log| && !ListedBy(r, RecentKey, log[k].params)
      ensures |r| == Limit && forall i :: 0 <= i < |r| ==> log[k].timestamp <= r[i].timestamp
    {
      GroupOfRecord(log, k);
      var j :| 0 <= j < |gs| && gs[j].params == log[k].params && log[k].timestamp <= gs[j].timestamp;
      assert gs[j] !in r;
      TopLeftOut(gs, RecentStamp);
    }
  }

  /** Each record has a `$group` stage group with its parameters, stamped no earlier than the record. */
  lemma GroupOfRecord(log: seq<LogRecord>, k: nat)
    requires k < |log|
    ensures exists j :: 0 <= j < |LatestGroups(log)| && LatestGroups(log)[j].params == log[k].params
                        && log[k].timestamp <= LatestGroups(log)[j].timestamp
  {
    var gs := LatestGroups(log);
    LatestGroupsSpec(log);
    assert ListedBy(gs, RecentKey, log[k].params);
    var j :| 0 <= j < |gs| && RecentKey(gs[j]) == log[k].params;
    assert IsLatest(log, gs[j]);
  }

  /** The "recent" pipeline answers correctly on every log. */
  lemma RecentCorrect(log: seq<LogRecord>)
    ensures IsRecentAnswer(log, Recent(log))
  {
    var gs := LatestGroups(log);
    LatestGroupsSpec(log);
    Top(gs, RecentStamp);
    TopDistinct(gs, RecentStamp, RecentKey);
    RecentGroupsLatest(log);
    RecentLeftOut(log);
  }

  /** Every group of a "popular" answer is one of the `$group` stage's groups, so it counts its records. */
  lemma PopularGroupsTally(log: seq<LogRecord>)
    ensures forall i :: 0 <= i < |Popular(log)| ==> IsTally(log, Popular(log)[i])
  {
    var gs := CountGroups(log);
    CountGroupsSpec(log);
    Top(gs, PopularCount);
    var r := Popular(log);
    forall i | 0 <= i < |r| ensures IsTally(log, r[i]) {
      assert r[i] in gs;
      var j :| 0 <= j < |gs| && gs[j] == r[i];
    }
  }

  /** A group the "popular" answer leaves out is no more frequent than any group in it. */
  lemma PopularLeftOut(log: seq<LogRecord>)
    ensures forall k :: 0 <= k < |log| && !ListedBy(Popular(log), PopularKey, log[k].params) ==>
              |Popular(log)| == Limit && forall i :: 0 <= i < |Popular(log)| ==> Count(log, log[k].params) <= Popular(log)[i].count
  {
    var gs := CountGroups(log);
    CountGroupsSpec(log);
    Top(gs, PopularCount);
    var r := Popular(log);
    forall k | 0 <= k < |log| && !ListedBy(r, PopularKey, log[k].params)
      ensures |r| == Limit && forall i :: 0 <= i < |r| ==> Count(log, log[k].params) <= r[i].count
    {
      assert ListedBy(gs, PopularKey, log[k].params);
      var j :| 0 <= j < |gs| && PopularKey(gs[j]) == log[k].params;
      assert IsTally(log, gs[j]);
      assert gs[j] !in r;
      assert PopularCount(gs[j]) == Count(log, log[k].params);
    }
  }

  /** The "popular" pipeline answers correctly on every log. */
  lemma PopularCorrect(log: seq<LogRecord>)
    ensures IsPopularAnswer(log, Popular(log))
  {
    var gs := CountGroups(log);
    CountGroupsSpec(log);
    Top(gs, PopularCount);
    TopDistinct(gs, PopularCount, PopularKey);
    PopularGroupsTally(log);
    PopularLeftOut(log);
  }

  /** Every group of a "popular" answer counts at least one record. */
  lemma PopularCountsPositive(log: seq<LogRecord>)
    ensures forall i :: 0 <= i < |Popular(log)| ==> Popular(log)[i].count >= 1
  {
    PopularCorrect(log);
    var r := Popular(log);
    forall i | 0 <= i < |r| ensures r[i].count >= 1 {
      var k :| 0 <= k < |log| && log[k].params == r[i].params && log[k].searchType == r[i].searchType;
      CountPositive(log, k);
    }
  }
}
