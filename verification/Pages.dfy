/** Paging of the room list. */
module Pages {
  import opened RoomLog

  const MAX_INT64 := 0x7FFF_FFFF_FFFF_FFFF

  function PageNumber(page: int): int {
    if page <= 0 then 1 else page
  }

  function PageSize(size: int): int {
    if size <= 0 || size > 100 then 50 else size
  }

  function PageOf<T>(all: seq<T>, page: int, size: int): seq<T>
    requires page >= 1 && size >= 1
  {
    var start := (page - 1) * size;
    if start >= |all| then []
    else all[start..if start + size > |all| then |all| else start + size]
  }

  /** One page cut out of the list; no index overflows. */
  method Cut<T>(all: seq<T>, page: int, size: int) returns (r: seq<T>)
    requires 1 <= page <= MAX_INT32 && 1 <= size <= 100
    ensures r == PageOf(all, page, size)
  {
    IndexesFit(page, size);
    var startIdx := (page - 1) * size;
    if startIdx >= |all| {
      return [];
    }
    var endIdx := startIdx + size;
    if endIdx > |all| {
      endIdx := |all|;
    }
    r := all[startIdx..endIdx];
  }

  /** Pages 1 to `n`, one after the other. */
  function FirstPages<T>(all: seq<T>, size: int, n: nat): seq<T>
    requires size >= 1
  {
    if n == 0 then [] else FirstPages(all, size, n - 1) + PageOf(all, n, size)
  }

  function PageCount(total: nat, size: int): nat
    requires size >= 1
  {
    (total + size - 1) / size
  }

  lemma {:induction false} FirstPagesArePrefix<T>(all: seq<T>, size: int, n: nat)
    requires size >= 1
    ensures n * size >= 0
    ensures FirstPages(all, size, n) == all[..if n * size > |all| then |all| else n * size]
  {
    if n > 0 {
      FirstPagesArePrefix(all, size, n - 1);
      assert n * size == (n - 1) * size + size;
    }
  }

  lemma EnoughPages(total: nat, size: int)
    requires size >= 1
    ensures PageCount(total, size) * size >= total
  {
    var m := total + size - 1;
    assert m == (m / size) * size + m % size;
  }

  /** The pages tile the list: the first `PageCount` pages are the whole list in order, later ones are empty. */
  lemma PagesTile<T>(all: seq<T>, size: int, later: int)
    requires size >= 1 && later > PageCount(|all|, size)
    ensures FirstPages(all, size, PageCount(|all|, size)) == all
    ensures PageOf(all, later, size) == []
  {
    var n := PageCount(|all|, size);
    EnoughPages(|all|, size);
    FirstPagesArePrefix(all, size, n);
    MulKeepsOrder(n, later - 1, size);
  }

  lemma MulKeepsOrder(a: nat, b: nat, c: nat)
    requires a <= b
    ensures a * c <= b * c
  {
  }

  /** For any 32-bit request the 64-bit index arithmetic stays in range. */
  lemma IndexesFit(page: int, size: int)
    requires IsInt32(page) && IsInt32(size)
    ensures var start := (PageNumber(page) - 1) * PageSize(size);
      0 <= start && start + PageSize(size) <= MAX_INT64
  {
    var p, s := PageNumber(page) - 1, PageSize(size);
    assert p * s <= MAX_INT32 * 100 by {
      MulKeepsOrder(p, MAX_INT32, s);
      assert MAX_INT32 * s <= MAX_INT32 * 100;
    }
    assert 0 <= p * s;
  }

  // ----- two calls, two enumerations -----

  function Items<T(!new)>(s: seq<T>): set<T> {
    set x | x in s
  }

  ghost predicate Distinct<T(!new)>(s: seq<T>) {
    forall i, j | 0 <= i < j < |s| :: s[i] != s[j]
  }

  lemma SubsetOfSameSize<T>(a: set<T>, b: set<T>)
    requires a <= b
    ensures |a| <= |b| && (|a| == |b| <==> a == b)
  {
    assert b == a + (b - a);
    assert |b| == |a| + |b - a|;
  }

  lemma {:induction false} RepeatsShrink<T(!new)>(s: seq<T>)
    ensures |Items(s)| <= |s| && (|Items(s)| == |s| <==> Distinct(s))
  {
    if s == [] {
      assert Items(s) == {};
    } else {
      var front, last := s[..|s| - 1], s[|s| - 1];
      RepeatsShrink(front);
      assert s == front + [last];
      assert Items(s) == Items(front) + {last};
      if last in Items(front) {
        var i :| 0 <= i < |front| && front[i] == last;
        assert s[i] == s[|s| - 1];
      }
    }
  }

  /** Call number `i + 1` goes through the rooms in the order `orders[i]`: what the first `n` calls return, one after
      the other. */
  function Calls<T>(orders: seq<seq<T>>, size: int, n: nat): seq<T>
    requires size >= 1 && n <= |orders|
  {
    if n == 0 then [] else Calls(orders, size, n - 1) + PageOf(orders[n - 1], n, size)
  }

  lemma OnePage<T(!new)>(all: seq<T>, page: int, size: int, start: nat)
    requires page >= 1 && size >= 1 && start == (page - 1) * size
    ensures |PageOf(all, page, size)| == if start >= |all| then 0 else if start + size > |all| then |all| - start
        else size
  {
  }

  lemma PageWithin<T(!new)>(all: seq<T>, page: int, size: int)
    requires page >= 1 && size >= 1
    ensures Items(PageOf(all, page, size)) <= Items(all)
  {
  }

  lemma OneMoreTimes(n: nat, size: int)
    requires n >= 1 && size >= 1
    ensures (n - 1) * size >= 0 && n * size == (n - 1) * size + size
  {
  }

  lemma {:induction false} CallsLength<T(!new)>(orders: seq<seq<T>>, count: nat, size: int, n: nat)
    requires size >= 1 && n <= |orders| && forall i | 0 <= i < |orders| :: |orders[i]| == count
    ensures n * size >= 0 && |Calls(orders, size, n)| == if n * size > count then count else n * size
  {
    if n > 0 {
      CallsLength(orders, count, size, n - 1);
      OneMoreTimes(n, size);
      var start := (n - 1) * size;
      OnePage(orders[n - 1], n, size, start);
    }
  }

  lemma ItemsOfBoth<T(!new)>(a: seq<T>, b: seq<T>)
    ensures Items(a + b) == Items(a) + Items(b)
  {
  }

  lemma {:induction false} CallsWithin<T(!new)>(orders: seq<seq<T>>, rooms: set<T>, size: int, n: nat)
    requires size >= 1 && n <= |orders| && forall i | 0 <= i < |orders| :: Items(orders[i]) == rooms
    ensures Items(Calls(orders, size, n)) <= rooms
  {
    if n == 0 {
      assert Items(Calls(orders, size, 0)) == {};
    } else {
      var before, page := Calls(orders, size, n - 1), PageOf(orders[n - 1], n, size);
      CallsWithin(orders, rooms, size, n - 1);
      PageWithin(orders[n - 1], n, size);
      ItemsOfBoth(before, page);
      assert Calls(orders, size, n) == before + page;
    }
  }

  /** The registry is a map, so every call may go through the same rooms in another order. The pages of all the calls
      then have every room if and only if they have none twice. */
  lemma CallsTileExactly<T(!new)>(orders: seq<seq<T>>, rooms: set<T>, size: int)
    requires size >= 1 && |orders| == PageCount(|rooms|, size)
    requires forall i | 0 <= i < |orders| :: Distinct(orders[i]) && Items(orders[i]) == rooms
    ensures var all := Calls(orders, size, |orders|);
      |all| == |rooms| && Items(all) <= rooms && (Items(all) == rooms <==> Distinct(all))
  {
    EnoughPages(|rooms|, size);
    forall i | 0 <= i < |orders| ensures |orders[i]| == |rooms| {
      RepeatsShrink(orders[i]);
    }
    CallsLength(orders, |rooms|, size, |orders|);
    CallsWithin(orders, rooms, size, |orders|);
    var all := Calls(orders, size, |orders|);
    RepeatsShrink(all);
    SubsetOfSameSize(Items(all), rooms);
  }

  lemma TwoPages<T>(a: seq<T>, size: int)
    requires size >= 1 && |a| <= 2 * size
    ensures var k := if size > |a| then |a| else size; PageOf(a, 1, size) == a[..k] && PageOf(a, 2, size) == a[k..]
  {
  }

  /** For two pages, in terms of the orders: they tile if and only if both orders begin with the same page, up to its
      order. */
  lemma TwoCallsTile<T(!new)>(a: seq<T>, b: seq<T>, size: int)
    requires size >= 1 && Distinct(a) && Distinct(b) && Items(a) == Items(b) && |a| <= 2 * size
    ensures var first, second := Items(PageOf(a, 1, size)), Items(PageOf(b, 2, size));
      && (first + second == Items(a) <==> first == Items(PageOf(b, 1, size)))
      && (first * second == {} <==> first == Items(PageOf(b, 1, size)))
  {
    RepeatsShrink(a);
    RepeatsShrink(b);
    var k := if size > |a| then |a| else size;
    TwoPages(a, size);
    TwoPages(b, size);
    RepeatsShrink(a[..k]);
    RepeatsShrink(b[..k]);
    var first, old_, second := Items(a[..k]), Items(b[..k]), Items(b[k..]);
    SplitItems(b, k);
    SplitItems(a, k);
    SameSizeParts(first, old_, second);
  }

  /** `old_` and `second` divide a set, and `first` is as large a part of it as `old_`. */
  lemma SameSizeParts<T(!new)>(first: set<T>, old_: set<T>, second: set<T>)
    requires old_ * second == {} && first <= old_ + second && |first| == |old_|
    ensures first + second == old_ + second <==> first == old_
    ensures first * second == {} <==> first == old_
  {
    if first + second == old_ + second {
      assert forall x | x in old_ :: x in first + second && x !in old_ * second;
    }
    if first * second == {} {
      assert forall x | x in first :: x in old_ + second && x !in first * second;
    }
    if old_ <= first {
      SubsetOfSameSize(old_, first);
    }
    if first <= old_ {
      SubsetOfSameSize(first, old_);
    }
  }

  lemma SplitItems<T(!new)>(s: seq<T>, k: nat)
    requires k <= |s| && Distinct(s)
    ensures Items(s) == Items(s[..k]) + Items(s[k..]) && Items(s[..k]) * Items(s[k..]) == {}
  {
    assert s == s[..k] + s[k..];
  }

  /** And they need not: one room may come twice, and the other not at all. */
  lemma TwoCallsCanMiss<T(!new)>(x: T, y: T)
    requires x != y
    ensures Distinct([x, y]) && Distinct([y, x]) && Items([x, y]) == Items([y, x])
    ensures PageOf([x, y], 1, 1) == [x] && PageOf([y, x], 2, 1) == [x]
  {
    assert Items([x, y]) == {x, y} && Items([y, x]) == {x, y};
  }
}
