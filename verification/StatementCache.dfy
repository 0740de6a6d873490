/** The cache of prepared statements: least recently used out first, at most one hundred. */
module StatementCache {
  import opened Wrappers

  const CAPACITY := 100

  datatype Entry = Entry(sql: string, stmt: nat)

  /**
  The entries, most recently used first, how often the engine prepared, and
  the engine's own side: the live handles with the text each was made from.
  */
  datatype Cache = Cache(lru: seq<Entry>, prepared: nat, live: map<nat, string>, next: nat)

  const EMPTY := Cache([], 0, map[], 0)

  function Texts(entries: seq<Entry>): (r: seq<string>)
    ensures |r| == |entries|
    ensures forall i :: 0 <= i < |r| ==> r[i] == entries[i].sql
  {
    seq(|entries|, i requires 0 <= i < |entries| => entries[i].sql)
  }

  /** The first position of a text, or the number of entries. */
  function Find(entries: seq<Entry>, sql: string): (i: nat)
    ensures i <= |entries|
    ensures i < |entries| ==> entries[i].sql == sql
    ensures forall j :: 0 <= j < i ==> entries[j].sql != sql
  {
    if entries == [] || entries[0].sql == sql then 0 else 1 + Find(entries[1..], sql)
  }

  function Evicted(c: Cache): Cache {
    if c.lru == [] then c
    else
      var last := |c.lru| - 1;
      c.(lru := c.lru[..last], live := c.live - {c.lru[last].stmt})
  }

  function Room(c: Cache): Cache { if |c.lru| >= CAPACITY then Evicted(c) else c }

  function Added(c: Cache, sql: string): Cache {
    Cache([Entry(sql, c.next)] + c.lru, c.prepared + 1, c.live[c.next := sql], c.next + 1)
  }

  function ToFront<T>(entries: seq<T>, i: nat): seq<T>
    requires i < |entries|
  {
    [entries[i]] + entries[..i] + entries[i + 1..]
  }

  /** `getOrPrepare`: room is made before the engine is asked, so a failed prepare has already cost an entry. */
  function Use(c: Cache, sql: string, fails: bool): (Result<nat>, Cache) {
    var i := Find(c.lru, sql);
    if i < |c.lru| then (Ok(c.lru[i].stmt), c.(lru := ToFront(c.lru, i)))
    else if fails then (Err, Room(c))
    else (Ok(Room(c).next), Added(Room(c), sql))
  }

  datatype Call = Call(sql: string, fails: bool)

  function Uses(c: Cache, calls: seq<Call>): Cache
    decreases |calls|
  {
    if calls == [] then c
    else
      var last := calls[|calls| - 1];
      Use(Uses(c, calls[..|calls| - 1]), last.sql, last.fails).1
  }

  // ---- what every run keeps ---------------------------------------------------------------------

  predicate UniqueTexts(entries: seq<Entry>) {
    forall i, j :: 0 <= i < j < |entries| ==> entries[i].sql != entries[j].sql
  }

  /** A handle is live, made from a text, exactly when that pair is cached. */
  ghost predicate Exact(lru: seq<Entry>, live: map<nat, string>) {
    forall e: Entry :: e in lru <==> e.stmt in live && live[e.stmt] == e.sql
  }

  ghost predicate Sound(c: Cache) {
    && |c.lru| <= 100
    && UniqueTexts(c.lru)
    && Exact(c.lru, c.live)
    && forall h <- c.live :: h < c.next
  }

  /** The list and the map beside it hold the same entries. */
  ghost predicate Agrees(lru: seq<Entry>, cache: map<string, Entry>) {
    && (forall e <- lru :: e.sql in cache && cache[e.sql] == e)
    && (forall sql <- cache :: cache[sql] in lru && cache[sql].sql == sql)
  }

  lemma EvictedAgrees(lru: seq<Entry>, cache: map<string, Entry>, gone: Entry, rest: seq<Entry>)
    requires Agrees(lru, cache) && lru == rest + [gone] && forall e <- rest :: e.sql != gone.sql
    ensures Agrees(rest, cache - {gone.sql})
  {
    forall e <- rest ensures e in lru {}
    forall e <- lru ensures e in rest || e == gone {}
  }

  lemma EvictedIsSound(c: Cache)
    requires Sound(c) && c.lru != []
    ensures Sound(Evicted(c))
    ensures var last := |c.lru| - 1;
            && c.lru == c.lru[..last] + [c.lru[last]] && forall e <- c.lru[..last] :: e.sql != c.lru[last].sql
  {
    var last := |c.lru| - 1;
    var rest := c.lru[..last];
    assert c.lru == rest + [c.lru[last]];
    forall e: Entry ensures e in rest <==> e in c.lru && e != c.lru[last] {}
  }

  lemma AddedIsSound(c: Cache, sql: string)
    requires Sound(c) && |c.lru| < CAPACITY && Find(c.lru, sql) == |c.lru|
    ensures Sound(Added(c, sql))
  {
    var fresh' := Entry(sql, c.next);
    var entries := [fresh'] + c.lru;
    assert forall j :: 0 < j < |entries| ==> entries[j] == c.lru[j - 1];
    forall e: Entry ensures e in entries <==> e == fresh' || e in c.lru {}
    assert Exact(entries, c.live[c.next := sql]);
  }

  lemma ToFrontIsSound(lru: seq<Entry>, i: nat)
    requires i < |lru| && UniqueTexts(lru)
    ensures UniqueTexts(ToFront(lru, i))
    ensures forall e: Entry :: e in ToFront(lru, i) <==> e in lru
  {
    ToFrontAt(lru, i);
    assert lru == lru[..i] + [lru[i]] + lru[i + 1..];
  }

  /** A returned handle is live and was prepared from exactly the text asked for; only a miss can fail. */
  lemma UseIsSound(c: Cache, sql: string, fails: bool)
    requires Sound(c)
    ensures
      var (r, c') := Use(c, sql, fails);
      && Sound(c')
      && (r.Ok? ==> r.value in c'.live && c'.live[r.value] == sql)
      && (r == Err <==> fails && sql !in Texts(c.lru))
  {
    var i := Find(c.lru, sql);
    if i < |c.lru| {
      ToFrontIsSound(c.lru, i);
      assert Texts(c.lru)[i] == sql;
      assert c.lru[i] in c.lru;
    } else {
      if !fails { AddedIsSound(Room(c), sql); }
    }
  }

  lemma {:induction false} RunsAreSound(calls: seq<Call>)
    ensures Sound(Uses(EMPTY, calls))
    decreases |calls|
  {
    if calls != [] {
      var last := calls[|calls| - 1];
      RunsAreSound(calls[..|calls| - 1]);
      UseIsSound(Uses(EMPTY, calls[..|calls| - 1]), last.sql, last.fails);
    }
  }

  /** A failing prepare leaves the contents alone exactly when there was room to spare, and else costs the oldest. */
  lemma FailedPrepareKeepsIff(c: Cache, sql: string)
    requires Sound(c) && sql !in Texts(c.lru)
    ensures Use(c, sql, true).1 == c <==> |c.lru| < 100
    ensures Use(c, sql, true).1.lru == if |c.lru| < 100 then c.lru else c.lru[..99]
  {
  }

  // ---- which texts are cached -------------------------------------------------------------------

  /** Distinct texts of a history from the last used back, leaving out those already seen. */
  function Recency(history: seq<string>, seen: set<string>): seq<string>
    decreases |history|
  {
    if history == [] then []
    else
      var last := history[|history| - 1];
      var before := history[..|history| - 1];
      if last in seen then Recency(before, seen) else [last] + Recency(before, seen + {last})
  }

  /** The hundred texts used most recently. */
  function MostRecent(history: seq<string>): seq<string> { Take(Recency(history, {}), 100) }

  function Take<T>(xs: seq<T>, n: nat): seq<T> { if |xs| <= n then xs else xs[..n] }

  predicate Distinct(xs: seq<string>) { forall i, j :: 0 <= i < j < |xs| ==> xs[i] != xs[j] }

  function Without(xs: seq<string>, x: string): (r: seq<string>)
    ensures x !in xs ==> r == xs
    ensures x !in r
    ensures forall y :: y in r ==> y in xs
  {
    if xs == [] then [] else (if xs[0] == x then [] else [xs[0]]) + Without(xs[1..], x)
  }

  /** How many uses found their text outside the hundred most recent. */
  function Misses(history: seq<string>): nat
    decreases |history|
  {
    if history == [] then 0
    else
      var before := history[..|history| - 1];
      Misses(before) + if history[|history| - 1] in MostRecent(before) then 0 else 1
  }

  function History(calls: seq<Call>): (r: seq<string>)
    ensures |r| == |calls|
    ensures forall i :: 0 <= i < |r| ==> r[i] == calls[i].sql
  {
    seq(|calls|, i requires 0 <= i < |calls| => calls[i].sql)
  }

  lemma {:induction false} RecencySkips(history: seq<string>, seen: set<string>, x: string)
    ensures Recency(history, seen + {x}) == Without(Recency(history, seen), x)
    decreases |history|
  {
    if history != [] {
      var last := history[|history| - 1];
      var before := history[..|history| - 1];
      if last in seen {
        RecencySkips(before, seen, x);
      } else {
        var rest := Recency(before, seen + {last});
        if last == x {
          RecencySkips(before, seen, x);
          assert [] + Without(rest, x) == rest;
        } else {
          assert seen + {x} + {last} == seen + {last} + {x};
          RecencySkips(before, seen + {last}, x);
        }
      }
    }
  }

  lemma {:induction false} RecencyUnique(history: seq<string>, seen: set<string>)
    ensures Distinct(Recency(history, seen))
    ensures forall x <- Recency(history, seen) :: x !in seen
    decreases |history|
  {
    if history != [] {
      var last := history[|history| - 1];
      var before := history[..|history| - 1];
      if last in seen {
        RecencyUnique(before, seen);
      } else {
        RecencyUnique(before, seen + {last});
        assert last !in Recency(before, seen + {last});
      }
    }
  }

  /** Cutting a list of distinct texts before or after dropping one leaves the same beginning. */
  lemma {:induction false} TakeWithout(xs: seq<string>, x: string, n: nat)
    requires Distinct(xs)
    requires n > 0
    ensures Take(Without(Take(xs, n), x), n - 1) == Take(Without(xs, x), n - 1)
    decreases |xs|
  {
    if |xs| > n {
      var t := Take(xs, n);
      assert t[1..] == Take(xs[1..], n - 1);
      if xs[0] == x {
        assert x !in xs[1..];
        assert x !in t[1..];
        assert Without(t, x) == t[1..];
        assert Without(xs, x) == xs[1..];
        assert t[1..] == xs[1..][..n - 1];
      } else if n > 1 {
        TakeWithout(xs[1..], x, n - 1);
        TakeCons(xs[0], Without(t[1..], x), n - 1);
        TakeCons(xs[0], Without(xs[1..], x), n - 1);
      }
    }
  }

  lemma TakeCons(h: string, t: seq<string>, n: nat)
    requires n > 0
    ensures Take([h] + t, n) == [h] + Take(t, n - 1)
  {}

  lemma SplitAfterFirst(xs: seq<string>, i: nat)
    requires 0 < i < |xs|
    ensures [xs[0]] + (xs[1..][..i - 1] + xs[1..][i..]) == xs[..i] + xs[i + 1..]
  {}

  lemma {:induction false} WithoutAt(xs: seq<string>, i: nat)
    requires i < |xs|
    requires Distinct(xs)
    ensures Without(xs, xs[i]) == xs[..i] + xs[i + 1..]
    decreases i
  {
    if i == 0 {
      assert xs[0] !in xs[1..];
    } else {
      WithoutAt(xs[1..], i - 1);
      SplitAfterFirst(xs, i);
    }
  }

  /** A use that does not fail brings its text to the front and drops what no longer fits. */
  lemma UseTexts(c: Cache, sql: string)
    requires Sound(c)
    ensures Texts(Use(c, sql, false).1.lru) == [sql] + Take(Without(Texts(c.lru), sql), CAPACITY - 1)
  {
    hide Sound, Texts, Take, Without, Distinct, ToFront, Room;
    var i := Find(c.lru, sql);
    SoundTexts(c);
    if i < |c.lru| {
      ToFrontTexts(c.lru, i);
      HitTexts(Texts(c.lru), i);
    } else {
      RoomTexts(c);
    }
  }

  lemma SoundTexts(c: Cache)
    requires Sound(c)
    ensures Distinct(Texts(c.lru)) && |c.lru| <= CAPACITY
  {}

  lemma ToFrontAt<T>(xs: seq<T>, i: nat)
    requires i < |xs|
    ensures |ToFront(xs, i)| == |xs|
    ensures forall k :: 0 <= k < |xs| ==> ToFront(xs, i)[k] == xs[if k == 0 then i else if k <= i then k - 1 else k]
  {}

  lemma ToFrontTexts(lru: seq<Entry>, i: nat)
    requires i < |lru|
    ensures Texts(ToFront(lru, i)) == ToFront(Texts(lru), i)
  {
    ToFrontAt(lru, i);
    ToFrontAt(Texts(lru), i);
  }

  lemma HitTexts(texts: seq<string>, i: nat)
    requires i < |texts| <= CAPACITY
    requires Distinct(texts)
    ensures ToFront(texts, i) == [texts[i]] + Take(Without(texts, texts[i]), CAPACITY - 1)
  {
    hide Without, Take, Distinct;
    WithoutAt(texts, i);
    TakeAll(texts[..i] + texts[i + 1..], CAPACITY - 1);
    assert [texts[i]] + texts[..i] + texts[i + 1..] == [texts[i]] + (texts[..i] + texts[i + 1..]);
  }

  lemma TakeAll(xs: seq<string>, n: nat)
    requires |xs| <= n
    ensures Take(xs, n) == xs
  {}

  lemma RoomTexts(c: Cache)
    requires |c.lru| <= CAPACITY
    ensures Texts(Room(c).lru) == Take(Texts(c.lru), CAPACITY - 1)
  {
    var last := |c.lru| - 1;
    if |c.lru| >= CAPACITY {
      assert Room(c).lru == c.lru[..last];
    }
  }

  /**
  In a run where every prepare succeeds, the cache holds exactly the hundred
  most recently used texts, in order of use, and has prepared once per miss.
  */
  lemma {:induction false} CacheIsMostRecent(calls: seq<Call>)
    requires forall call <- calls :: !call.fails
    ensures Texts(Uses(EMPTY, calls).lru) == MostRecent(History(calls))
    ensures Uses(EMPTY, calls).prepared == Misses(History(calls))
    decreases |calls|
  {
    hide Sound;
    if calls != [] {
      var n := |calls| - 1;
      var before, sql := calls[..n], calls[n].sql;
      CacheIsMostRecent(before);
      RunsAreSound(before);
      assert !calls[n].fails;
      var c, history := Uses(EMPTY, before), History(before);
      assert Uses(EMPTY, calls) == Use(c, sql, false).1;
      HistoryStep(calls);
      UseTexts(c, sql);
      MostRecentStep(history, sql);
    }
  }

  lemma HistoryStep(calls: seq<Call>)
    requires calls != []
    ensures History(calls) == History(calls[..|calls| - 1]) + [calls[|calls| - 1].sql]
  {}

  lemma MostRecentStep(history: seq<string>, sql: string)
    ensures MostRecent(history + [sql]) == [sql] + Take(Without(MostRecent(history), sql), CAPACITY - 1)
  {
    var all := Recency(history, {});
    assert (history + [sql])[..|history|] == history;
    RecencyUnique(history, {});
    RecencySkips(history, {}, sql);
    TakeWithout(all, sql, CAPACITY);
    TakeCons(sql, Without(all, sql), CAPACITY);
  }

  // ---- the connection's fields ------------------------------------------------------------------

  class Statements {
    var lru: seq<Entry>
    var cache: map<string, Entry>
    var prepareCount: nat
    var live: map<nat, string>
    var next: nat

    constructor ()
      ensures Valid() && View() == EMPTY
    {
      lru, cache, prepareCount, live, next := [], map[], 0, map[], 0;
    }

    function View(): Cache
      reads this
    {
      Cache(lru, prepareCount, live, next)
    }

    /** The list and the map hold the same entries. */
    ghost predicate Agree()
      reads this
    {
      Agrees(lru, cache)
    }

    ghost predicate Valid()
      reads this
    {
      Sound(View()) && Agree()
    }

    method EvictLRU()
      requires Valid()
      modifies this
      ensures Valid() && View() == Evicted(old(View()))
    {
      hide Sound, Agrees;
      if lru == [] { return; }
      EvictedIsSound(View());
      var last := |lru| - 1;
      var gone := lru[last];
      EvictedAgrees(lru, cache, gone, lru[..last]);
      cache := cache - {gone.sql};
      live := live - {gone.stmt};
      lru := lru[..last];
    }

    method GetOrPrepare(sql: string, fails: bool) returns (r: Result<nat>)
      requires Valid()
      modifies this
      ensures Valid()
      ensures (r, View()) == Use(old(View()), sql, fails)
      ensures r.Ok? ==> r.value in live && live[r.value] == sql
    {
      UseIsSound(View(), sql, fails);
      if sql in cache {
        var stmt := Hit(sql);
        return Ok(stmt);
      }
      if |lru| >= CAPACITY { EvictLRU(); }
      if fails { return Err; }
      var stmt := Prepare(sql);
      return Ok(stmt);
    }

    method Hit(sql: string) returns (stmt: nat)
      requires Valid() && sql in cache
      modifies this`lru
      ensures Valid()
      ensures
        var i := Find(old(lru), sql);
        && i < |old(lru)| && stmt == old(lru)[i].stmt
        && View() == old(View()).(lru := ToFront(old(lru), i))
    {
      var e := cache[sql];
      var i := Find(lru, sql);
      assert e in lru;
      assert lru[i] == e;
      ToFrontIsSound(lru, i);
      lru := ToFront(lru, i);
      return e.stmt;
    }

    method Prepare(sql: string) returns (stmt: nat)
      requires Valid() && |lru| < CAPACITY && Find(lru, sql) == |lru|
      modifies this
      ensures Valid()
      ensures stmt == old(next) && View() == Added(old(View()), sql)
    {
      hide Sound, UniqueTexts, Exact;
      AddedIsSound(View(), sql);
      stmt := next;
      var e := Entry(sql, stmt);
      next := next + 1;
      live := live[stmt := sql];
      prepareCount := prepareCount + 1;
      lru := [e] + lru;
      cache := cache[sql := e];
      assert forall x :: x in lru <==> x == e || x in old(lru);
    }

    /** Closing the connection finalizes every cached statement and so leaves none alive. */
    method Close()
      requires Valid()
      modifies this
      ensures lru == [] && cache == map[] && live == map[]
    {
      forall h | h in live ensures live[h] in cache && cache[live[h]].stmt == h {
        assert Entry(live[h], h) in lru;
      }
      var texts := cache.Keys;
      while texts != {}
        invariant texts <= cache.Keys
        invariant lru == old(lru) && cache == old(cache)
        invariant forall h :: h in live ==> h in old(live) && old(live)[h] in texts && old(live)[h] == live[h]
        decreases texts
      {
        var sql :| sql in texts;
        live := live - {cache[sql].stmt};
        texts := texts - {sql};
      }
      lru, cache := [], map[];
    }
  }
}
