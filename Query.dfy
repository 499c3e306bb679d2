/** The query shapes the services build with LINQ: a `Where` over one table,
    `OrderByDescending` on a date, `FirstOrDefault`, and `Skip`/`Take` paging.
    A filtered table is a set of ids; an ordered listing is a sequence of ids. */
module Query {
  import opened Core

  const Int32Max: int := 0x7FFF_FFFF

  /** Newest-first order of two records with dates `da`, `db` and ids `a`, `b`:
      `a` comes first when its date is later. The database leaves equal dates
      in no particular order; the model puts the larger id first. */
  predicate Precedes(da: DateTime, a: Id, db: DateTime, b: Id)
  {
    Before(db, da) || (da == db && b < a)
  }

  /** `Precedes` is a strict total order on records with distinct ids. */
  lemma PrecedesOrder(da: DateTime, a: Id, db: DateTime, b: Id, dc: DateTime, c: Id)
    ensures !Precedes(da, a, da, a)
    ensures Precedes(da, a, db, b) && Precedes(db, b, dc, c) ==> Precedes(da, a, dc, c)
    ensures a != b ==> Precedes(da, a, db, b) || Precedes(db, b, da, a)
    ensures !(Precedes(da, a, db, b) && Precedes(db, b, da, a))
  {
    BeforeIsStrictTotalOrder(da, db, dc);
    BeforeIsStrictTotalOrder(db, da, dc);
  }

  /** The ids of the table's rows that pass a `Where`. */
  function Select<T>(m: map<Id, T>, keep: T -> bool): (S: set<Id>)
    ensures S <= m.Keys
    ensures forall k :: k in S <==> k in m && keep(m[k])
  {
    set k | k in m && keep(m[k])
  }

  /** `k` is the row of `S` that comes first newest-first. */
  ghost predicate IsNewest<T>(m: map<Id, T>, S: set<Id>, date: T -> DateTime, k: Id)
  {
    k in S && k in m &&
    forall j :: j in S && j in m && j != k ==> Precedes(date(m[k]), k, date(m[j]), j)
  }

  /** `s` lists rows of `m` strictly newest first. */
  ghost predicate NewestFirst<T>(m: map<Id, T>, date: T -> DateTime, s: seq<Id>)
  {
    (forall i :: 0 <= i < |s| ==> s[i] in m) &&
    forall i, j :: 0 <= i < j < |s| && s[i] in m && s[j] in m ==>
      Precedes(date(m[s[i]]), s[i], date(m[s[j]]), s[j])
  }

  lemma {:induction false} NewestExists<T>(m: map<Id, T>, S: set<Id>, date: T -> DateTime)
    requires S <= m.Keys && S != {}
    ensures exists k :: IsNewest(m, S, date, k)
    decreases |S|
  {
    var x :| x in S;
    if S == {x} {
      assert IsNewest(m, S, date, x);
    } else {
      NewestExists(m, S - {x}, date);
      var k :| IsNewest(m, S - {x}, date, k);
      if Precedes(date(m[x]), x, date(m[k]), k) {
        forall j | j in S && j != x
          ensures Precedes(date(m[x]), x, date(m[j]), j)
        {
          if j != k {
            PrecedesOrder(date(m[x]), x, date(m[k]), k, date(m[j]), j);
          }
        }
        assert IsNewest(m, S, date, x);
      } else {
        PrecedesOrder(date(m[x]), x, date(m[k]), k, date(m[k]), k);
        assert IsNewest(m, S, date, k);
      }
    }
  }

  lemma NewestUnique<T>(m: map<Id, T>, S: set<Id>, date: T -> DateTime, k1: Id, k2: Id)
    requires IsNewest(m, S, date, k1) && IsNewest(m, S, date, k2)
    ensures k1 == k2
  {
    if k1 != k2 {
      PrecedesOrder(date(m[k1]), k1, date(m[k2]), k2, date(m[k1]), k1);
    }
  }

  /** The newest row of a non-empty `S`. */
  ghost function NewestIn<T>(m: map<Id, T>, S: set<Id>, date: T -> DateTime): (k: Id)
    requires S <= m.Keys && S != {}
    ensures IsNewest(m, S, date, k)
  {
    NewestExists(m, S, date);
    var k :| IsNewest(m, S, date, k);
    k
  }

  /** OrderByDescending(date) over the rows `S`: every row once, newest first. */
  ghost function Listing<T>(m: map<Id, T>, S: set<Id>, date: T -> DateTime): (s: seq<Id>)
    requires S <= m.Keys
    ensures |s| == |S|
    ensures forall k :: k in s <==> k in S
    ensures NewestFirst(m, date, s)
    decreases |S|
  {
    if S == {} then []
    else
      var k := NewestIn(m, S, date);
      [k] + Listing(m, S - {k}, date)
  }

  lemma ListingUnfold<T>(m: map<Id, T>, S: set<Id>, date: T -> DateTime, k: Id)
    requires S <= m.Keys && IsNewest(m, S, date, k)
    ensures Listing(m, S, date) == [k] + Listing(m, S - {k}, date)
  {
    NewestUnique(m, S, date, k, NewestIn(m, S, date));
  }

  lemma ListingStep<T>(m: map<Id, T>, S: set<Id>, date: T -> DateTime, s: seq<Id>, rest: set<Id>, k: Id)
    requires rest <= S <= m.Keys && IsNewest(m, rest, date, k)
    requires s + Listing(m, rest, date) == Listing(m, S, date)
    ensures (s + [k]) + Listing(m, rest - {k}, date) == Listing(m, S, date)
  {
    ListingUnfold(m, rest, date, k);
    AppendOne(s, k, Listing(m, rest - {k}, date));
  }

  lemma AppendOne(s: seq<Id>, k: Id, tail: seq<Id>)
    ensures (s + [k]) + tail == s + ([k] + tail)
  {
  }

  /** The row a `FirstOrDefault` after the ordering returns, if any. */
  ghost function NewestOf<T>(m: map<Id, T>, S: set<Id>, date: T -> DateTime): (r: Option<Id>)
    requires S <= m.Keys
    ensures r == None <==> S == {}
    ensures r.Some? ==> IsNewest(m, S, date, r.value)
  {
    var s := Listing(m, S, date);
    if s == [] then None
    else
      assert s[0] in S;
      forall j | j in S && j != s[0]
        ensures Precedes(date(m[s[0]]), s[0], date(m[j]), j)
      {
        var i :| 0 <= i < |s| && s[i] == j;
      }
      Some(s[0])
  }

  /** Scans `S` once, keeping the newest row seen so far. */
  method Newest<T>(m: map<Id, T>, S: set<Id>, date: T -> DateTime) returns (k: Id)
    requires S <= m.Keys && S != {}
    ensures IsNewest(m, S, date, k)
  {
    k :| k in S;
    var seen, rest := {k}, S - {k};
    while rest != {}
      invariant seen + rest == S && seen !! rest
      invariant IsNewest(m, seen, date, k)
      decreases |rest|
    {
      var j :| j in rest;
      NewestExtend(m, seen, date, k, j);
      if Precedes(date(m[j]), j, date(m[k]), k) {
        k := j;
      }
      assert seen + {j} + (rest - {j}) == S && (seen + {j}) !! (rest - {j});
      seen, rest := seen + {j}, rest - {j};
    }
  }

  /** Adding one row to a set keeps the newer of the old newest row and the new one. */
  lemma NewestExtend<T>(m: map<Id, T>, seen: set<Id>, date: T -> DateTime, k: Id, j: Id)
    requires seen <= m.Keys && j in m && j !in seen && IsNewest(m, seen, date, k)
    ensures IsNewest(m, seen + {j}, date, if Precedes(date(m[j]), j, date(m[k]), k) then j else k)
  {
    if Precedes(date(m[j]), j, date(m[k]), k) {
      forall i | i in seen && i != k
        ensures Precedes(date(m[j]), j, date(m[i]), i)
      {
        PrecedesOrder(date(m[j]), j, date(m[k]), k, date(m[i]), i);
      }
    } else {
      PrecedesOrder(date(m[k]), k, date(m[j]), j, date(m[k]), k);
    }
  }

  /** Orders the rows `S` newest first by repeatedly taking the newest remaining one. */
  method ListNewestFirst<T>(m: map<Id, T>, S: set<Id>, date: T -> DateTime) returns (s: seq<Id>)
    requires S <= m.Keys
    ensures s == Listing(m, S, date)
  {
    s := [];
    var rest := S;
    while rest != {}
      invariant rest <= S
      invariant s + Listing(m, rest, date) == Listing(m, S, date)
      decreases |rest|
    {
      var k := Newest(m, rest, date);
      ListingStep(m, S, date, s, rest, k);
      s := s + [k];
      rest := rest - {k};
    }
  }

  /** `k` is the smallest id of `S`. */
  predicate IsLeast(S: set<Id>, k: Id)
  {
    k in S && forall j :: j in S ==> k <= j
  }

  /** The `FirstOrDefault` of an unordered query, which the database answers
      with whichever row it meets first; the model takes the smallest id. */
  ghost function Least(S: set<Id>): (r: Option<Id>)
    ensures r == None <==> S == {}
    ensures r.Some? ==> IsLeast(S, r.value)
  {
    if S == {} then None
    else
      LeastExists(S);
      var k :| IsLeast(S, k);
      Some(k)
  }

  lemma {:induction false} LeastExists(S: set<Id>)
    requires S != {}
    ensures exists k :: IsLeast(S, k)
    decreases |S|
  {
    var x :| x in S;
    if S == {x} {
      assert IsLeast(S, x);
    } else {
      LeastExists(S - {x});
      var k :| IsLeast(S - {x}, k);
      var least := if x < k then x else k;
      forall j | j in S
        ensures least <= j
      {
        if j != x {
          assert j in S - {x};
        }
      }
      assert IsLeast(S, least);
    }
  }

  method FindLeast(S: set<Id>) returns (r: Option<Id>)
    ensures r == Least(S)
  {
    if S == {} {
      return None;
    }
    var k :| k in S;
    var seen, rest := {k}, S - {k};
    while rest != {}
      invariant seen + rest == S && seen !! rest
      invariant IsLeast(seen, k)
      decreases |rest|
    {
      var j :| j in rest;
      if j < k {
        k := j;
      }
      seen, rest := seen + {j}, rest - {j};
    }
    assert IsLeast(S, k);
    r := Some(k);
  }

  /** Two's-complement 32-bit wrap-around of C# `int` arithmetic. */
  function Wrap32(x: int): (r: int)
    ensures -Int32Max - 1 <= r <= Int32Max
    ensures (r - x) % 0x1_0000_0000 == 0
    ensures -Int32Max - 1 <= x <= Int32Max ==> r == x
  {
    var y := x % 0x1_0000_0000;
    if y > Int32Max then y - 0x1_0000_0000 else y
  }

  /** LINQ `Skip(n)`: a non-positive count skips nothing. */
  function Skip<T>(s: seq<T>, n: int): (r: seq<T>)
    ensures |r| == if n <= 0 then |s| else if n >= |s| then 0 else |s| - n
    ensures forall i :: 0 <= i < |r| ==> r[i] == s[i + (if n <= 0 then 0 else n)]
  {
    if n <= 0 then s else if n >= |s| then [] else s[n..]
  }

  /** LINQ `Take(n)`: a non-positive count takes nothing. */
  function Take<T>(s: seq<T>, n: int): (r: seq<T>)
    ensures |r| == if n <= 0 then 0 else if n >= |s| then |s| else n
    ensures r <= s
  {
    if n <= 0 then [] else if n >= |s| then s else s[..n]
  }

  /** The page arguments the database refuses: `Skip` and `Take` become SQL
      `OFFSET` and `LIMIT`, and PostgreSQL rejects a negative value for either.
      The offset is computed in `int` arithmetic, so it can wrap to a
      negative value. */
  predicate PageRejected(pageNumber: int, pageSize: int)
  {
    Wrap32((pageNumber - 1) * pageSize) < 0 || pageSize < 0
  }

  /** Page numbers from 1 with a non-negative size are accepted while the
      offset fits in an `int`; a negative size, or a page number below 1 with a
      positive size, is refused. */
  lemma PageRejectedWhen(pageNumber: int, pageSize: int)
    ensures pageSize < 0 ==> PageRejected(pageNumber, pageSize)
    ensures 1 <= pageNumber && 0 <= pageSize && (pageNumber - 1) * pageSize <= Int32Max ==>
      !PageRejected(pageNumber, pageSize)
    ensures pageNumber <= 0 && 1 <= pageSize && -Int32Max - 1 <= (pageNumber - 1) * pageSize ==>
      PageRejected(pageNumber, pageSize)
  {
    if 1 <= pageNumber && 0 <= pageSize {
      assert 0 <= (pageNumber - 1) * pageSize by {
        assert 0 <= pageNumber - 1;
      }
    }
    if pageNumber <= 0 && 1 <= pageSize {
      assert (pageNumber - 1) * pageSize <= -1 by {
        assert pageNumber - 1 <= -1;
        assert (pageNumber - 1) * pageSize <= (pageNumber - 1) * 1;
      }
    }
  }

  /** `.Skip((pageNumber - 1) * pageSize).Take(pageSize)` with `int` operands,
      for arguments the database accepts. */
  function Page<T>(s: seq<T>, pageNumber: int, pageSize: int): (r: seq<T>)
    requires !PageRejected(pageNumber, pageSize)
    ensures |r| <= |s| && |r| <= pageSize && (pageSize == 0 ==> r == [])
    ensures forall x :: x in r ==> x in s
  {
    Take(Skip(s, Wrap32((pageNumber - 1) * pageSize)), pageSize)
  }

  /** Without overflow, row `i` of the listing is row `i % pageSize` of
      page `i / pageSize + 1`, and no page holds more than `pageSize` rows. */
  lemma PageLocates<T>(s: seq<T>, i: int, pageSize: int)
    requires 0 <= i < |s| && 1 <= pageSize <= Int32Max
    requires (i / pageSize) * pageSize <= Int32Max
    ensures !PageRejected(i / pageSize + 1, pageSize)
    ensures var p := Page(s, i / pageSize + 1, pageSize);
      |p| <= pageSize && i % pageSize < |p| && p[i % pageSize] == s[i]
  {
    var q, r := i / pageSize, i % pageSize;
    DivisionBounds(i, pageSize);
    var skip := q * pageSize;
    assert (q + 1 - 1) * pageSize == skip;
    assert Wrap32(skip) == skip;
    var rest := Skip(s, skip);
    assert |rest| == |s| - skip && rest[r] == s[i];
    assert Page(s, q + 1, pageSize) == Take(rest, pageSize);
  }

  lemma DivisionBounds(i: int, n: int)
    requires 0 <= i && 1 <= n
    ensures (i / n) * n + i % n == i && 0 <= i % n < n
    ensures 0 <= (i / n) * n <= i
  {
  }

  /** The first page of size `int.MaxValue` is the whole listing. */
  lemma FirstPageOfMaxSizeIsAll<T>(s: seq<T>)
    requires |s| <= Int32Max
    ensures Page(s, 1, Int32Max) == s
  {
  }

  function Min(a: int, b: int): (r: int)
    ensures r <= a && r <= b && (r == a || r == b)
  {
    if a <= b then a else b
  }

  /** The rows of a listing from `lo` on, at most `n` of them. */
  function Slice<T>(s: seq<T>, lo: nat, n: int): (r: seq<T>)
    ensures |r| == (if lo >= |s| || n <= 0 then 0 else Min(n, |s| - lo))
    ensures forall i :: 0 <= i < |r| ==> r[i] == s[lo + i]
  {
    if lo >= |s| || n <= 0 then [] else s[lo..lo + Min(n, |s| - lo)]
  }

  /** Without overflow, page `pageNumber` is the slice of the listing that
      starts at `(pageNumber - 1) * pageSize` and holds up to `pageSize` rows. */
  lemma PageIsSlice<T>(s: seq<T>, pageNumber: int, pageSize: int)
    requires !PageRejected(pageNumber, pageSize)
    ensures 1 <= pageNumber && 1 <= pageSize && (pageNumber - 1) * pageSize <= Int32Max ==>
      (pageNumber - 1) * pageSize >= 0 &&
      Page(s, pageNumber, pageSize) == Slice(s, (pageNumber - 1) * pageSize, pageSize)
  {
    if 1 <= pageNumber && 1 <= pageSize && (pageNumber - 1) * pageSize <= Int32Max {
      var lo := (pageNumber - 1) * pageSize;
      assert 0 <= lo by {
        assert 0 <= pageNumber - 1;
      }
      assert Wrap32(lo) == lo;
    }
  }

  /** A page is a contiguous run of the listing: row `i` of it is row `off + i`. */
  lemma PageOffset<T>(s: seq<T>, pageNumber: int, pageSize: int) returns (off: nat)
    requires !PageRejected(pageNumber, pageSize)
    ensures var p := Page(s, pageNumber, pageSize);
      off + |p| <= |s| && forall i :: 0 <= i < |p| ==> p[i] == s[off + i]
  {
    var n := Wrap32((pageNumber - 1) * pageSize);
    off := if n <= 0 then 0 else if n >= |s| then |s| else n;
  }

  /** Newest-first order never puts an earlier date before a later one. */
  lemma PrecedesNotBefore(da: DateTime, a: Id, db: DateTime, b: Id)
    requires Precedes(da, a, db, b)
    ensures !Before(da, db)
  {
    BeforeIsStrictTotalOrder(da, db, da);
  }

  /** A page of a newest-first listing is itself in newest-first date order. */
  lemma PageNewestFirst<T>(m: map<Id, T>, date: T -> DateTime, s: seq<Id>, pageNumber: int, pageSize: int)
    requires NewestFirst(m, date, s) && !PageRejected(pageNumber, pageSize)
    ensures var p := Page(s, pageNumber, pageSize);
      (forall i :: 0 <= i < |p| ==> p[i] in m) &&
      forall i, j :: 0 <= i < j < |p| ==> !Before(date(m[p[i]]), date(m[p[j]]))
  {
    var p := Page(s, pageNumber, pageSize);
    var off := PageOffset(s, pageNumber, pageSize);
    forall i, j | 0 <= i < j < |p|
      ensures !Before(date(m[p[i]]), date(m[p[j]]))
    {
      var a, b := s[off + i], s[off + j];
      assert Precedes(date(m[a]), a, date(m[b]), b);
      PrecedesNotBefore(date(m[a]), a, date(m[b]), b);
    }
  }

  /** The `Pagination` a list query returns: one page of items, the number of
      rows that matched, and the paging arguments it was asked for. */
  datatype Pagination<T> = Pagination(items: seq<T>, totalCount: int, pageNumber: int, pageSize: int)

  /** The records of page `pageNumber` of the rows `S` listed newest first:
      rows that all satisfy what every row of `S` satisfies, in date order,
      and without overflow the slice starting at `(pageNumber - 1) * pageSize`. */
  ghost function PageOf<T>(m: map<Id, T>, S: set<Id>, date: T -> DateTime, keep: T -> bool,
                           pageNumber: int, pageSize: int): (r: seq<T>)
    requires S <= m.Keys && forall k :: k in S ==> keep(m[k])
    requires !PageRejected(pageNumber, pageSize)
    ensures |r| <= |S| && |r| <= pageSize && (pageSize == 0 ==> r == [])
    ensures forall i :: 0 <= i < |r| ==> keep(r[i])
    ensures forall i, j :: 0 <= i < j < |r| ==> !Before(date(r[i]), date(r[j]))
    ensures 1 <= pageNumber && 1 <= pageSize && (pageNumber - 1) * pageSize <= Int32Max ==>
      (pageNumber - 1) * pageSize >= 0 &&
      r == Rows(m, Slice(Listing(m, S, date), (pageNumber - 1) * pageSize, pageSize))
  {
    var listing := Listing(m, S, date);
    var page := Page(listing, pageNumber, pageSize);
    PageNewestFirst(m, date, listing, pageNumber, pageSize);
    PageIsSlice(listing, pageNumber, pageSize);
    var r := Rows(m, page);
    RowsKept(m, S, keep, listing, page, r);
    r
  }

  /** The rows behind a page of ids drawn from `S` all satisfy `keep`. */
  lemma RowsKept<T>(m: map<Id, T>, S: set<Id>, keep: T -> bool, listing: seq<Id>, page: seq<Id>, r: seq<T>)
    requires S <= m.Keys && forall k :: k in S ==> keep(m[k])
    requires forall k :: k in listing ==> k in S
    requires forall k :: k in page ==> k in listing
    requires |r| == |page| && forall i :: 0 <= i < |page| ==> page[i] in m && r[i] == m[page[i]]
    ensures forall i :: 0 <= i < |r| ==> keep(r[i])
  {
    forall i | 0 <= i < |r|
      ensures keep(r[i])
    {
      assert page[i] in page;
    }
  }

  /** The records of the rows `S`, newest first: each row once, all
      satisfying what every row of `S` satisfies. */
  ghost function Listed<T>(m: map<Id, T>, S: set<Id>, date: T -> DateTime, keep: T -> bool): (r: seq<T>)
    requires S <= m.Keys && forall k :: k in S ==> keep(m[k])
    ensures |r| == |S|
    ensures forall k :: k in S ==> m[k] in r
    ensures forall i :: 0 <= i < |r| ==> keep(r[i])
    ensures forall i, j :: 0 <= i < j < |r| ==> !Before(date(r[i]), date(r[j]))
  {
    var listing := Listing(m, S, date);
    assert Page(listing, 1, |listing| + 1) == listing;
    PageNewestFirst(m, date, listing, 1, |listing| + 1);
    var r := Rows(m, listing);
    RowsKept(m, S, keep, listing, listing, r);
    ListedComplete(m, S, listing, r);
    r
  }

  lemma ListedComplete<T>(m: map<Id, T>, S: set<Id>, listing: seq<Id>, r: seq<T>)
    requires S <= m.Keys && forall k :: k in S ==> k in listing
    requires |r| == |listing| && forall i :: 0 <= i < |listing| ==> listing[i] in m && r[i] == m[listing[i]]
    ensures forall k :: k in S ==> m[k] in r
  {
    forall k | k in S
      ensures m[k] in r
    {
      var i :| 0 <= i < |listing| && listing[i] == k;
      assert r[i] == m[k];
    }
  }

  /** The records behind a list of ids. */
  function Rows<T>(m: map<Id, T>, s: seq<Id>): (r: seq<T>)
    requires forall i :: 0 <= i < |s| ==> s[i] in m
    ensures |r| == |s| && forall i :: 0 <= i < |s| ==> r[i] == m[s[i]]
  {
    seq(|s|, i requires 0 <= i < |s| => m[s[i]])
  }
}
