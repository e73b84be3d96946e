/** Adding up a grid of multisets row by row, each row up to a given count. */
module Tally {
  import opened Crawl

  type Grid<T> = seq<seq<multiset<T>>>

  function Prefix<T>(cells: seq<multiset<T>>, k: nat): multiset<T> {
    if k == 0 then multiset{}
    else Prefix(cells, k - 1) + (if k <= |cells| then cells[k - 1] else multiset{})
  }

  // The cells of rows 0..n-1, row r up to position m[r].
  function Gather<T>(grid: Grid<T>, m: map<nat, nat>, n: nat): multiset<T>
    requires n <= |grid|
  {
    if n == 0 then multiset{} else Gather(grid, m, n - 1) + Prefix(grid[n - 1], Get(m, n - 1))
  }

  // Every cell of rows 0..n-1.
  function Whole<T>(grid: Grid<T>, n: nat): multiset<T>
    requires n <= |grid|
  {
    if n == 0 then multiset{} else Whole(grid, n - 1) + Prefix(grid[n - 1], |grid[n - 1]|)
  }

  lemma Swap<T>(a: multiset<T>, b: multiset<T>, c: multiset<T>)
    ensures a + b + c == a + c + b
  {
  }

  lemma Assoc<T>(a: multiset<T>, b: multiset<T>, c: multiset<T>)
    ensures a + b + c == a + (b + c)
  {
  }

  lemma {:induction false} GatherSame<T>(grid: Grid<T>, m: map<nat, nat>, r: nat, n: nat)
    requires n <= |grid| && n <= r
    ensures Gather(grid, Bump(m, r), n) == Gather(grid, m, n)
  {
    if n > 0 {
      GatherSame(grid, m, r, n - 1);
    }
  }

  lemma {:induction false} GatherBump<T>(grid: Grid<T>, m: map<nat, nat>, r: nat, n: nat)
    requires r < n <= |grid| && Get(m, r) < |grid[r]|
    ensures Gather(grid, Bump(m, r), n) == Gather(grid, m, n) + grid[r][Get(m, r)]
  {
    var below, k := Gather(grid, m, n - 1), Get(m, r);
    if r == n - 1 {
      GatherSame(grid, m, r, n - 1);
      Assoc(below, Prefix(grid[r], k), grid[r][k]);
    } else {
      GatherBump(grid, m, r, n - 1);
      Swap(below, Prefix(grid[n - 1], Get(m, n - 1)), grid[r][k]);
    }
  }

  lemma {:induction false} GatherNothing<T>(grid: Grid<T>, n: nat)
    requires n <= |grid|
    ensures Gather(grid, map[], n) == multiset{}
  {
    if n > 0 {
      GatherNothing(grid, n - 1);
    }
  }

  lemma {:induction false} GatherFull<T>(grid: Grid<T>, m: map<nat, nat>, n: nat)
    requires n <= |grid| && forall r: nat | r < n :: Get(m, r) == |grid[r]|
    ensures Gather(grid, m, n) == Whole(grid, n)
  {
    if n > 0 {
      GatherFull(grid, m, n - 1);
    }
  }

  // An element that only row q contributes.
  lemma {:induction false} WholeOfOneRow<T>(grid: Grid<T>, n: nat, q: nat, x: T)
    requires n <= |grid|
    requires forall r: nat | r < n && r != q :: Prefix(grid[r], |grid[r]|)[x] == 0
    ensures Whole(grid, n)[x] == if q < n then Prefix(grid[q], |grid[q]|)[x] else 0
  {
    if n > 0 {
      WholeOfOneRow(grid, n - 1, q, x);
      var below, row := Whole(grid, n - 1), Prefix(grid[n - 1], |grid[n - 1]|);
      assert (below + row)[x] == below[x] + row[x];
    }
  }

  lemma {:induction false} PrefixGrows<T>(cells: seq<multiset<T>>, j: nat, k: nat)
    requires j <= k
    ensures Prefix(cells, j) <= Prefix(cells, k)
  {
    if j < k {
      PrefixGrows(cells, j, k - 1);
    }
  }

  lemma {:induction false} GatherWithin<T>(grid: Grid<T>, m: map<nat, nat>, n: nat)
    requires n <= |grid| && forall r: nat | r < n :: Get(m, r) <= |grid[r]|
    ensures Gather(grid, m, n) <= Whole(grid, n)
  {
    if n > 0 {
      GatherWithin(grid, m, n - 1);
      PrefixGrows(grid[n - 1], Get(m, n - 1), |grid[n - 1]|);
    }
  }

  lemma SubsetSize<T>(a: multiset<T>, b: multiset<T>)
    requires a <= b
    ensures |a| <= |b|
  {
    assert b == a + (b - a);
  }

  // A cell not gathered makes a difference.
  lemma GatherMisses<T>(grid: Grid<T>, m: map<nat, nat>, r: nat)
    requires forall k: nat | k < |grid| :: Get(m, k) <= |grid[k]|
    requires r < |grid| && Get(m, r) < |grid[r]| && grid[r][Get(m, r)] != multiset{}
    ensures Gather(grid, m, |grid|) != Whole(grid, |grid|)
  {
    GatherBump(grid, m, r, |grid|);
    GatherWithin(grid, Bump(m, r), |grid|);
    SubsetSize(Gather(grid, Bump(m, r), |grid|), Whole(grid, |grid|));
  }
}
