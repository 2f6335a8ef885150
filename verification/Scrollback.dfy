/** The replica's scrollback cache: rows keyed by absolute history index, at
    most `MAX_CACHE_ROWS` of them, evicted from the end furthest from the row
    being inserted. */
module Scrollback {
  import opened Options
  import opened Sequences
  import opened TerminalTypes

  const MAX_CACHE_ROWS: nat := 5_000
  const I64_MAX: int := 0x7fff_ffff_ffff_ffff

  /** The longest page whose rows all survive their own insertion. */
  const MAX_SAFE_PAGE: nat := MAX_CACHE_ROWS / 2 + 1

  type Cache = map<int, Row>

  // ---- Ordered keys ----

  lemma {:induction false} MinExists(keys: set<int>)
    requires keys != {}
    ensures exists k :: k in keys && forall j :: j in keys ==> k <= j
    decreases |keys|
  {
    var k := SomeMember(keys);
    var others := keys - {k};
    if others == {} {
      assert keys == {k};
    } else {
      MinExists(others);
      var rest :| rest in others && forall j :: j in others ==> rest <= j;
      var best := if rest < k then rest else k;
      forall j | j in keys ensures best <= j {
        if j != k { assert j in others; }
      }
      assert best in keys;
    }
  }

  lemma {:induction false} MaxExists(keys: set<int>)
    requires keys != {}
    ensures exists k :: k in keys && forall j :: j in keys ==> j <= k
    decreases |keys|
  {
    var k := SomeMember(keys);
    var others := keys - {k};
    if others == {} {
      assert keys == {k};
    } else {
      MaxExists(others);
      var rest :| rest in others && forall j :: j in others ==> j <= rest;
      var best := if rest > k then rest else k;
      forall j | j in keys ensures j <= best {
        if j != k { assert j in others; }
      }
      assert best in keys;
    }
  }

  function First(keys: set<int>): (k: int)
    requires keys != {}
    ensures k in keys && forall j :: j in keys ==> k <= j
  {
    MinExists(keys);
    var k :| k in keys && forall j :: j in keys ==> k <= j;
    k
  }

  function Last(keys: set<int>): (k: int)
    requires keys != {}
    ensures k in keys && forall j :: j in keys ==> j <= k
  {
    MaxExists(keys);
    var k :| k in keys && forall j :: j in keys ==> j <= k;
    k
  }

  function AbsDiff(a: int, b: int): (d: nat) {
    if a < b then b - a else a - b
  }

  // ---- Insertion and eviction ----

  /** The key given up when the cache overflows around `at`. */
  function Victim(keys: set<int>, at: int): (k: int)
    requires keys != {}
    ensures k in keys
  {
    if AbsDiff(at, First(keys)) > AbsDiff(at, Last(keys)) then First(keys) else Last(keys)
  }

  function Trim(cache: Cache, at: int): (r: Cache)
    ensures r.Keys <= cache.Keys && |r| <= MAX_CACHE_ROWS
    ensures forall k :: k in r ==> r[k] == cache[k]
    decreases |cache|
  {
    if |cache| <= MAX_CACHE_ROWS then cache
    else
      var v := Victim(cache.Keys, at);
      var smaller := cache - {v};
      assert smaller.Keys == cache.Keys - {v};
      Trim(smaller, at)
  }

  lemma TrimOne(cache: Cache, at: int)
    requires |cache| == MAX_CACHE_ROWS + 1
    ensures Trim(cache, at) == cache - {Victim(cache.Keys, at)}
  {
    var smaller := cache - {Victim(cache.Keys, at)};
    assert smaller.Keys == cache.Keys - {Victim(cache.Keys, at)};
    assert Trim(smaller, at) == smaller;
  }

  function Skip(rows: seq<Row>): (k: nat)
    ensures k <= |rows|
  {
    if |rows| > MAX_CACHE_ROWS then |rows| - MAX_CACHE_ROWS else 0
  }

  /** Rows `k` on of a page starting at `from`, inserted one by one. */
  function InsertRows(cache: Cache, from: int, rows: seq<Row>, k: nat): (r: Cache)
    requires k <= |rows|
    decreases |rows| - k
  {
    if k == |rows| || from + k > I64_MAX then cache
    else InsertRows(Trim(cache[from + k := rows[k]], from + k), from, rows, k + 1)
  }

  function InsertPage(cache: Cache, from: int, rows: seq<Row>): (r: Cache) {
    InsertRows(cache, from, rows, Skip(rows))
  }

  function SeedRows(cache: Cache, base: int, rows: seq<Row>, k: nat): (r: Cache)
    requires k <= |rows|
    decreases |rows| - k
  {
    if k == |rows| then cache else SeedRows(cache[base + k := rows[k]], base, rows, k + 1)
  }

  /** A snapshot's trailing history, ending just above the viewport. */
  function SeedTail(tail: seq<Row>, scrollbackLen: nat): (r: Cache) {
    SeedRows(map[], scrollbackLen - |tail|, tail, Skip(tail))
  }

  // ---- The cap ----

  lemma {:induction false} InsertRowsBounded(cache: Cache, from: int, rows: seq<Row>, k: nat)
    requires k <= |rows| && |cache| <= MAX_CACHE_ROWS
    ensures |InsertRows(cache, from, rows, k)| <= MAX_CACHE_ROWS
    decreases |rows| - k
  {
    if k < |rows| && from + k <= I64_MAX {
      InsertRowsBounded(Trim(cache[from + k := rows[k]], from + k), from, rows, k + 1);
    }
  }

  lemma {:induction false} SeedRowsSize(cache: Cache, base: int, rows: seq<Row>, k: nat)
    requires k <= |rows|
    ensures |SeedRows(cache, base, rows, k)| <= |cache| + |rows| - k
    decreases |rows| - k
  {
    if k < |rows| {
      var next := cache[base + k := rows[k]];
      assert next.Keys == cache.Keys + {base + k};
      SeedRowsSize(next, base, rows, k + 1);
    }
  }

  lemma SeedTailBounded(tail: seq<Row>, scrollbackLen: nat)
    ensures |SeedTail(tail, scrollbackLen)| <= MAX_CACHE_ROWS
  {
    SeedRowsSize(map[], scrollbackLen - |tail|, tail, Skip(tail));
  }

  // ---- Every row of a page of at most MAX_SAFE_PAGE rows survives ----

  ghost predicate Holds(cache: Cache, from: int, rows: seq<Row>, upTo: nat)
    requires upTo <= |rows|
  {
    forall at :: from <= at < from + upTo ==> at in cache && cache[at] == rows[at - from]
  }

  lemma {:induction false} Pigeonhole(keys: set<int>, lo: int, hi: int)
    requires lo <= hi && forall k :: k in keys ==> lo <= k < hi
    ensures |keys| <= hi - lo
    decreases hi - lo
  {
    if lo == hi {
      assert keys == {};
    } else {
      Pigeonhole(keys - {hi - 1}, lo, hi - 1);
    }
  }

  /** Overfull by one around `at`, the cache gives up neither `at` nor any of
      the `at - from` page rows just before it, while those number at most half
      the cap. */
  lemma VictimOutsidePage(keys: set<int>, from: int, at: int)
    requires |keys| == MAX_CACHE_ROWS + 1
    requires from <= at <= from + MAX_SAFE_PAGE - 1
    requires at in keys
    ensures !(from <= Victim(keys, at) <= at)
  {
    var first, last := First(keys), Last(keys);
    Pigeonhole(keys, first, last + 1);
  }

  /** Insertion keeps everything but at most one victim outside the page. */
  lemma InsertKeepsRange(cache: Cache, row: Row, from: int, at: int)
    requires |cache| <= MAX_CACHE_ROWS && from <= at <= from + MAX_SAFE_PAGE - 1
    ensures var grown, next := cache[at := row], Trim(cache[at := row], at);
            forall k :: from <= k <= at && k in grown ==> k in next
  {
    var grown := cache[at := row];
    assert grown.Keys == cache.Keys + {at};
    if |grown| > MAX_CACHE_ROWS {
      VictimOutsidePage(grown.Keys, from, at);
      TrimOne(grown, at);
    }
  }

  lemma {:induction false} InsertKeepsPage(cache: Cache, from: int, rows: seq<Row>, k: nat)
    requires k < |rows| <= MAX_SAFE_PAGE && |cache| <= MAX_CACHE_ROWS
    requires Holds(cache, from, rows, k)
    ensures Holds(Trim(cache[from + k := rows[k]], from + k), from, rows, k + 1)
  {
    InsertKeepsRange(cache, rows[k], from, from + k);
    var grown := cache[from + k := rows[k]];
    var next := Trim(grown, from + k);
    forall at | from <= at < from + k + 1 ensures at in next && next[at] == rows[at - from] {
      assert at in grown && grown[at] == rows[at - from];
    }
  }

  lemma {:induction false} PageKeptFrom(cache: Cache, from: int, rows: seq<Row>, k: nat)
    requires k <= |rows| <= MAX_SAFE_PAGE && |cache| <= MAX_CACHE_ROWS
    requires from + |rows| - 1 <= I64_MAX
    requires Holds(cache, from, rows, k)
    ensures Holds(InsertRows(cache, from, rows, k), from, rows, |rows|)
    decreases |rows| - k
  {
    if k < |rows| {
      InsertKeepsPage(cache, from, rows, k);
      PageKeptFrom(Trim(cache[from + k := rows[k]], from + k), from, rows, k + 1);
    }
  }

  // ---- Nothing is given up without need ----

  /** While there is room, a page takes nothing from the cache. */
  lemma {:induction false} RoomKeepsAll(cache: Cache, from: int, rows: seq<Row>, k: nat, key: int)
    requires k <= |rows| && |cache| + (|rows| - k) <= MAX_CACHE_ROWS
    requires key in cache && !(from + k <= key < from + |rows|)
    ensures var r := InsertRows(cache, from, rows, k); key in r && r[key] == cache[key]
    decreases |rows| - k
  {
    if k < |rows| && from + k <= I64_MAX {
      var grown := cache[from + k := rows[k]];
      assert grown.Keys == cache.Keys + {from + k};
      assert Trim(grown, from + k) == grown;
      RoomKeepsAll(grown, from, rows, k + 1, key);
    }
  }

  lemma {:induction false} TrimFills(cache: Cache, at: int)
    requires |cache| >= MAX_CACHE_ROWS
    ensures |Trim(cache, at)| == MAX_CACHE_ROWS
    decreases |cache|
  {
    if |cache| > MAX_CACHE_ROWS {
      var smaller := cache - {Victim(cache.Keys, at)};
      assert smaller.Keys == cache.Keys - {Victim(cache.Keys, at)};
      assert |smaller| == |smaller.Keys| == |cache.Keys| - 1;
      TrimFills(smaller, at);
    }
  }

  /** A cache within its cap never shrinks under a page: a row goes only for one
      that comes. */
  lemma {:induction false} PageNeverShrinks(cache: Cache, from: int, rows: seq<Row>, k: nat)
    requires k <= |rows| && |cache| <= MAX_CACHE_ROWS
    ensures |InsertRows(cache, from, rows, k)| >= |cache|
    decreases |rows| - k
  {
    if k < |rows| && from + k <= I64_MAX {
      RowNeverShrinks(cache, from + k, rows[k]);
      PageNeverShrinks(Trim(cache[from + k := rows[k]], from + k), from, rows, k + 1);
    }
  }

  lemma RowNeverShrinks(cache: Cache, at: int, row: Row)
    requires |cache| <= MAX_CACHE_ROWS
    ensures |Trim(cache[at := row], at)| >= |cache|
  {
    var grown := cache[at := row];
    assert grown.Keys == cache.Keys + {at};
    assert |grown| == |grown.Keys| >= |cache.Keys| == |cache|;
    if |grown| >= MAX_CACHE_ROWS { TrimFills(grown, at); }
  }

  // ---- What a snapshot seeds ----

  /** Seeding from row `k` on leaves what lies below and sets all from there. */
  lemma {:induction false} SeedRowsHold(cache: Cache, base: int, rows: seq<Row>, k: nat, key: int)
    requires k <= |rows|
    ensures var r := SeedRows(cache, base, rows, k);
            && (key < base + k && key in cache ==> key in r && r[key] == cache[key])
            && (base + k <= key < base + |rows| ==> key in r && r[key] == rows[key - base])
    decreases |rows| - k
  {
    if k < |rows| {
      SeedRowsHold(cache[base + k := rows[k]], base, rows, k + 1, key);
    }
  }

  /** The newest rows of the tail, up to the cap, are there, at the indices that
      end just above the viewport. */
  lemma SeedTailHolds(tail: seq<Row>, scrollbackLen: nat, key: int)
    requires scrollbackLen - MAX_CACHE_ROWS <= key && scrollbackLen - |tail| <= key < scrollbackLen
    ensures key in SeedTail(tail, scrollbackLen)
    ensures SeedTail(tail, scrollbackLen)[key] == tail[key - (scrollbackLen - |tail|)]
  {
    SeedRowsHold(map[], scrollbackLen - |tail|, tail, Skip(tail), key);
  }

  // ---- One row more and the guarantee fails ----

  ghost predicate KeepsEveryPage(n: nat) {
    forall cache: Cache, from: int, rows: seq<Row> ::
      |cache| <= MAX_CACHE_ROWS && |rows| == n && from + n - 1 <= I64_MAX ==>
        Holds(InsertPage(cache, from, rows), from, rows, n)
  }

  /** A cache of the keys `lo`, `lo + 1`, ..., `hi - 1`. */
  ghost function RangeOf(row: Row, lo: int, hi: int): (cache: Cache)
    requires lo <= hi
    ensures forall k :: k in cache <==> lo <= k < hi
    ensures |cache| == hi - lo
    decreases hi - lo
  {
    if lo == hi then map[]
    else
      var smaller := RangeOf(row, lo, hi - 1);
      var cache := smaller[hi - 1 := row];
      assert cache.Keys == smaller.Keys + {hi - 1};
      cache
  }

  /** A full cache after `k` rows of a page from 0: it began with later rows
      only, one row short of touching the page, and each page row pushed out
      the latest of them. */
  ghost predicate Filled(cache: Cache, k: nat) {
    && |cache| == MAX_CACHE_ROWS
    && forall key :: key in cache <==>
         0 <= key < k || MAX_SAFE_PAGE < key < MAX_SAFE_PAGE + 1 + MAX_CACHE_ROWS - k
  }

  /** The row pushed out is the latest of the later rows. */
  lemma FillVictim(cache: Cache, row: Row, k: nat)
    requires k < MAX_SAFE_PAGE && Filled(cache, k)
    ensures var grown := cache[k := row];
            |grown| == MAX_CACHE_ROWS + 1 && Victim(grown.Keys, k) == MAX_SAFE_PAGE + MAX_CACHE_ROWS - k
  {
    var grown := cache[k := row];
    assert grown.Keys == cache.Keys + {k};
    assert MAX_SAFE_PAGE + MAX_CACHE_ROWS - k in grown && 0 in grown;
  }

  lemma FillStep(cache: Cache, row: Row, k: nat)
    requires k < MAX_SAFE_PAGE && Filled(cache, k)
    ensures Filled(Trim(cache[k := row], k), k + 1)
  {
    var grown, last := cache[k := row], MAX_SAFE_PAGE + MAX_CACHE_ROWS - k;
    FillVictim(cache, row, k);
    TrimOne(grown, k);
    var rest := grown - {last};
    assert rest.Keys == grown.Keys - {last} && last in grown;
  }

  /** The row that makes the page one too long evicts the page's first row. */
  lemma OverfullStep(cache: Cache, row: Row)
    requires Filled(cache, MAX_SAFE_PAGE)
    ensures 0 !in Trim(cache[MAX_SAFE_PAGE := row], MAX_SAFE_PAGE)
  {
    var at: int := MAX_SAFE_PAGE;
    var grown := cache[at := row];
    assert grown.Keys == cache.Keys + {at};
    assert MAX_CACHE_ROWS in grown && 0 in grown;
    TrimOne(grown, MAX_SAFE_PAGE);
  }

  lemma {:induction false} NeverBack(cache: Cache, rows: seq<Row>, k: nat)
    requires 0 < k <= |rows| && 0 !in cache
    ensures 0 !in InsertRows(cache, 0, rows, k)
    decreases |rows| - k
  {
    if k < |rows| && k <= I64_MAX {
      NeverBack(Trim(cache[k := rows[k]], k), rows, k + 1);
    }
  }

  lemma InsertOne(cache: Cache, rows: seq<Row>, k: nat)
    requires k < |rows| && k <= I64_MAX
    ensures InsertRows(cache, 0, rows, k) == InsertRows(Trim(cache[k := rows[k]], k), 0, rows, k + 1)
  {
  }

  lemma OverfullLost(cache: Cache, rows: seq<Row>)
    requires MAX_SAFE_PAGE < |rows| && |rows| - 1 <= I64_MAX && Filled(cache, MAX_SAFE_PAGE)
    ensures 0 !in InsertRows(cache, 0, rows, MAX_SAFE_PAGE)
  {
    InsertOne(cache, rows, MAX_SAFE_PAGE);
    OverfullStep(cache, rows[MAX_SAFE_PAGE]);
    NeverBack(Trim(cache[MAX_SAFE_PAGE := rows[MAX_SAFE_PAGE]], MAX_SAFE_PAGE), rows, MAX_SAFE_PAGE + 1);
  }

  lemma FilledNext(cache: Cache, rows: seq<Row>, k: nat) returns (next: Cache)
    requires k < MAX_SAFE_PAGE < |rows| && |rows| - 1 <= I64_MAX && Filled(cache, k)
    ensures Filled(next, k + 1) && InsertRows(cache, 0, rows, k) == InsertRows(next, 0, rows, k + 1)
  {
    next := Trim(cache[k := rows[k]], k);
    InsertOne(cache, rows, k);
    FillStep(cache, rows[k], k);
  }

  lemma {:induction false} FirstRowLost(cache: Cache, rows: seq<Row>, k: nat)
    requires k <= MAX_SAFE_PAGE < |rows| && |rows| - 1 <= I64_MAX && Filled(cache, k)
    ensures 0 !in InsertRows(cache, 0, rows, k)
    decreases MAX_SAFE_PAGE - k
  {
    if k < MAX_SAFE_PAGE {
      var next := FilledNext(cache, rows, k);
      FirstRowLost(next, rows, k + 1);
    } else {
      OverfullLost(cache, rows);
    }
  }

  lemma LongPageLosesItsFirstRow(rows: seq<Row>)
    requires MAX_SAFE_PAGE < |rows| && |rows| - 1 <= I64_MAX
    ensures exists cache: Cache :: |cache| <= MAX_CACHE_ROWS && 0 !in InsertPage(cache, 0, rows)
  {
    if |rows| <= MAX_CACHE_ROWS {
      var cache := RangeOf(rows[0], MAX_SAFE_PAGE + 1, MAX_SAFE_PAGE + 1 + MAX_CACHE_ROWS);
      assert Filled(cache, 0);
      FirstRowLost(cache, rows, 0);
      assert 0 !in InsertPage(cache, 0, rows);
    } else {
      var cache: Cache := map[];
      NeverBack(cache, rows, Skip(rows));
      assert 0 !in InsertPage(cache, 0, rows);
    }
  }

  /** A page of `n` rows is certain to be wholly cached, whatever the cache held
      before, exactly when `n` is at most half the cap plus one. */
  lemma PageKeptIff(n: nat)
    requires n - 1 <= I64_MAX
    ensures KeepsEveryPage(n) <==> n <= MAX_SAFE_PAGE
  {
    if n <= MAX_SAFE_PAGE {
      forall cache: Cache, from: int, rows: seq<Row>
        | |cache| <= MAX_CACHE_ROWS && |rows| == n && from + n - 1 <= I64_MAX
        ensures Holds(InsertPage(cache, from, rows), from, rows, n)
      {
        PageKeptFrom(cache, from, rows, 0);
      }
    } else {
      var rows := seq(n, i => Row([], false));
      LongPageLosesItsFirstRow(rows);
      var cache: Cache :| |cache| <= MAX_CACHE_ROWS && 0 !in InsertPage(cache, 0, rows);
      var after := InsertPage(cache, 0, rows);
      assert !Holds(after, 0, rows, n);
    }
  }
}
