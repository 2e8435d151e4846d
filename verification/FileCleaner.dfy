/** The cleaner of the file cache: it removes expired files, then random ones while the cache is
    too large. */
module FileCleaner {
  import opened Words

  /** `plain` entries are files with the name of a cache entry; all others are skipped. */
  datatype File = File(size: nat, modTime: int, plain: bool)

  type Directory = map<string, File>

  // ---------- Sizes ----------

  type Weight = File -> nat

  const SIZE: Weight := (f: File) => if f.plain then f.size else 0
  const ITEMS: Weight := (f: File) => if f.plain then 1 else 0

  ghost function Total(d: Directory, w: Weight): nat
    decreases |d|
  {
    if d == map[] then 0
    else
      var name :| name in d;
      TotalShrinks(d, name);
      w(d[name]) + Total(d - {name}, w)
  }

  lemma TotalShrinks(d: Directory, name: string)
    requires name in d
    ensures |d - {name}| < |d|
  {
    assert (d - {name}).Keys == d.Keys - {name};
  }

  /** The total does not depend on the order in which files are counted. */
  lemma {:induction false} TotalWithout(d: Directory, w: Weight, name: string)
    requires name in d
    ensures Total(d, w) == w(d[name]) + Total(d - {name}, w)
    decreases |d|
  {
    var first :| first in d && Total(d, w) == w(d[first]) + Total(d - {first}, w);
    TotalShrinks(d, first);
    if first != name {
      TotalWithout(d - {first}, w, name);
      TotalShrinks(d, name);
      TotalWithout(d - {name}, w, first);
      assert d - {first} - {name} == d - {name} - {first};
    }
  }

  // ---------- The world ----------

  datatype Failure = NoFailure | After(entries: nat)

  /** What the cleaner meets: the clock; the order in which each walk lists the directory; the
      walks that fail part-way; the files that can be removed; and the random numbers. */
  datatype World = World(now: int, listing: (nat, set<string>) -> seq<string>, failure: nat -> Failure,
                         removable: (nat, string) -> bool, draw: (nat, string) -> nat)

  ghost predicate Lists(l: seq<string>, names: set<string>) {
    && (forall i, j :: 0 <= i < j < |l| ==> l[i] != l[j])
    && (forall name :: name in l <==> name in names)
  }

  ghost predicate Regular(world: World) {
    && (forall walk, names :: Lists(world.listing(walk, names), names))
    && forall walk, name :: world.draw(walk, name) < 100
  }

  /** None of these walks fails. */
  ghost predicate AllComplete(world: World, first: nat, last: nat) {
    forall walk :: first <= walk <= last ==> world.failure(walk).NoFailure?
  }

  lemma OneMoreWalk(world: World, first: nat, last: nat)
    requires first <= last + 1
    ensures AllComplete(world, first, last + 1) <==> AllComplete(world, first, last) && world.failure(last + 1).NoFailure?
  {
  }

  /** How many entries a walk visits. */
  function Visited(l: seq<string>, f: Failure): nat {
    if f.After? && f.entries < |l| then f.entries else |l|
  }

  function Names(l: seq<string>): set<string> {
    set name | name in l
  }

  // ---------- What each walk removes ----------

  /** Expired files, counting the grace time, that can be removed. */
  function Expired(d: Directory, world: World, lifetime: int): set<string> {
    set name | name in d && d[name].plain && world.now - d[name].modTime > lifetime && world.removable(0, name)
  }

  /** The percentage of files to remove: that of the excess size, and ten more. */
  function Percentage(total: nat, maxSize: nat): int
    requires total > maxSize
  {
    (total - maxSize) * 100 / total + 10
  }

  /** Files that a round draws and that can be removed. */
  function Drawn(d: Directory, world: World, walk: nat, p: int): set<string> {
    set name | name in d && d[name].plain && world.draw(walk, name) <= p && world.removable(walk, name)
  }

  // ---------- One walk ----------

  /** The directory after a walk that is to remove `doomed` has visited the first `i` entries. */
  function AfterVisits(d: Directory, doomed: set<string>, l: seq<string>, i: nat): Directory
    requires i <= |l|
  {
    d - doomed * Names(l[..i])
  }

  lemma VisitNext(d: Directory, doomed: set<string>, l: seq<string>, i: nat)
    requires i < |l| && Lists(l, d.Keys)
    ensures AfterVisits(d, doomed, l, i + 1)
            == if l[i] in doomed then AfterVisits(d, doomed, l, i) - {l[i]} else AfterVisits(d, doomed, l, i)
    ensures l[i] in AfterVisits(d, doomed, l, i) && AfterVisits(d, doomed, l, i)[l[i]] == d[l[i]]
  {
    assert Names(l[..i + 1]) == Names(l[..i]) + {l[i]};
    assert l[i] !in Names(l[..i]);
    assert l[i] in l;
  }

  /** The entries that are still to be visited. */
  function Unvisited(d: Directory, l: seq<string>, i: nat): Directory
    requires i <= |l|
  {
    d - Names(l[..i])
  }

  lemma UnvisitedNext(d: Directory, l: seq<string>, i: nat, w: Weight)
    requires i < |l| && Lists(l, d.Keys)
    ensures Total(Unvisited(d, l, i), w) == w(d[l[i]]) + Total(Unvisited(d, l, i + 1), w)
  {
    assert Names(l[..i + 1]) == Names(l[..i]) + {l[i]};
    assert l[i] !in Names(l[..i]);
    assert l[i] in l;
    TotalWithout(Unvisited(d, l, i), w, l[i]);
    assert Unvisited(d, l, i) - {l[i]} == Unvisited(d, l, i + 1);
  }

  lemma UnvisitedEnds(d: Directory, l: seq<string>)
    requires Lists(l, d.Keys)
    ensures Unvisited(d, l, 0) == d && Unvisited(d, l, |l|) == map[]
    ensures forall doomed: set<string> :: doomed <= d.Keys ==> AfterVisits(d, doomed, l, |l|) == d - doomed
  {
    assert l[..0] == [] && l[..|l|] == l;
    forall doomed: set<string> | doomed <= d.Keys ensures AfterVisits(d, doomed, l, |l|) == d - doomed {
      assert doomed * Names(l) == doomed;
    }
  }

  /** What a walk has counted: the entries it left, and the ones it removed. */
  datatype Tally = Tally(size: nat, items: nat, removedSize: nat, removedItems: nat)

  ghost predicate Removed(t: Tally, before: Directory, now: Directory) {
    t.removedSize + Total(now, SIZE) == Total(before, SIZE) && t.removedItems + Total(now, ITEMS) == Total(before, ITEMS)
  }

  ghost predicate Left(t: Tally, now: Directory) {
    t.size == Total(now, SIZE) && t.items == Total(now, ITEMS)
  }

  // ---------- Rounds of eviction ----------

  const MAX_ROUNDS: nat := 3

  /** A round starts only in a cache that is too large, and removes what it draws. */
  ghost predicate Round(d: Directory, next: Directory, world: World, maxSize: nat, done: nat) {
    && Total(d, SIZE) > maxSize && done < MAX_ROUNDS
    && next == d - Drawn(d, world, done + 1, Percentage(Total(d, SIZE), maxSize))
  }

  /** The directory before, between and after the rounds. */
  ghost predicate Rounds(trace: seq<Directory>, world: World, maxSize: nat) {
    trace != [] && forall i :: 0 <= i < |trace| - 1 ==> Round(trace[i], trace[i + 1], world, maxSize, i)
  }

  /** With at least 99 percent to remove, every draw hits. */
  lemma FullPercentage(total: nat, maxSize: nat)
    requires total > maxSize
    ensures Percentage(total, maxSize) >= 99 <==> 100 * maxSize <= 11 * total
  {
    var x := (total - maxSize) * 100;
    var q := x / total;
    assert x == q * total + x % total;
    MulAtLeast(q - 89, total);
    MulAtLeast(88 - q, total);
  }

  /** A draw `x` hits if and only if `x - 10` percent of the size are at most the excess. */
  lemma HitExactly(total: nat, maxSize: nat, x: int)
    requires total > maxSize
    ensures x <= Percentage(total, maxSize) <==> (x - 10) * total <= 100 * (total - maxSize)
  {
    var e := (total - maxSize) * 100;
    var q := e / total;
    assert e == q * total + e % total;
    var y := x - 10;
    MulAtLeast(y - q, total);
    assert (y - q) * total == y * total - q * total;
  }

  /** The removable cache files that a draw hits go, and no others. */
  lemma RoundExactly(d: Directory, next: Directory, world: World, maxSize: nat, done: nat, name: string)
    requires Round(d, next, world, maxSize, done) && name in d
    ensures name !in next <==>
              && d[name].plain && world.removable(done + 1, name)
              && (world.draw(done + 1, name) - 10) * Total(d, SIZE) <= 100 * (Total(d, SIZE) - maxSize)
    ensures name in next ==> next[name] == d[name]
  {
    HitExactly(Total(d, SIZE), maxSize, world.draw(done + 1, name));
  }

  lemma {:induction false} NothingPlain(d: Directory, w: Weight)
    requires forall name <- d :: w(d[name]) == 0
    ensures Total(d, w) == 0
    decreases |d|
  {
    if d != map[] {
      var name :| name in d;
      TotalWithout(d, w, name);
      TotalShrinks(d, name);
      NothingPlain(d - {name}, w);
    }
  }

  /** A cache of more than about nine times its maximal size is emptied by one round, up to the
      files that cannot be removed. */
  lemma OneRoundEmpties(d: Directory, next: Directory, world: World, maxSize: nat, done: nat)
    requires Regular(world) && Round(d, next, world, maxSize, done) && 100 * maxSize <= 11 * Total(d, SIZE)
    ensures forall name <- next :: d[name].plain ==> !world.removable(done + 1, name)
    ensures (forall name <- d :: world.removable(done + 1, name)) ==> Total(next, SIZE) == 0
  {
    FullPercentage(Total(d, SIZE), maxSize);
    if forall name <- d :: world.removable(done + 1, name) {
      NothingPlain(next, SIZE);
    }
  }

  /** In a smaller cache, draws can spare all files, so three rounds may leave it too large. */
  lemma RoundsMaySpareAll(d: Directory, world: World, maxSize: nat)
    requires maxSize < Total(d, SIZE) && 11 * Total(d, SIZE) < 100 * maxSize
    requires forall walk, name :: world.draw(walk, name) == 99
    ensures Rounds([d, d, d, d], world, maxSize)
  {
    FullPercentage(Total(d, SIZE), maxSize);
    var p := Percentage(Total(d, SIZE), maxSize);
    forall i | 0 <= i < 3 ensures Round(d, d, world, maxSize, i) {
      assert Drawn(d, world, i + 1, p) == {};
      assert d - {} == d;
    }
  }

  /** Only cache files are missing, and unexpired ones only if that was `allowed`. */
  ghost predicate Sparing(before: Directory, now: Directory, expired: set<string>, allowed: bool) {
    && (forall name <- now :: name in before && now[name] == before[name])
    && (forall name <- before :: name !in now ==> before[name].plain)
    && (forall name <- before :: name !in now && name !in expired ==> allowed)
  }

  lemma SparingStart(before: Directory, expired: set<string>, l: seq<string>, i: nat, allowed: bool)
    requires i <= |l| && forall name <- expired :: name in before && before[name].plain
    ensures Sparing(before, AfterVisits(before, expired, l, i), expired, allowed)
    ensures Sparing(before, before - expired, expired, allowed)
  {
  }

  lemma SparingRound(before: Directory, d: Directory, expired: set<string>, drawn: set<string>, l: seq<string>, i: nat)
    requires Sparing(before, d, expired, true)
    requires i <= |l| && forall name <- drawn :: name in d && d[name].plain
    ensures Sparing(before, AfterVisits(d, drawn, l, i), expired, true)
  {
  }

  class FileCache {
    const maxSize: nat
    const expire: int
    const grace: int
    var dir: Directory
    var statsSize: nat
    var statsItems: nat

    constructor (maxSize: nat, expire: int, grace: int, dir: Directory)
      ensures this.maxSize == maxSize && this.expire == expire && this.grace == grace && this.dir == dir
    {
      this.maxSize, this.expire, this.grace, this.dir := maxSize, expire, grace, dir;
    }

    /** The first walk. */
    method RemoveExpired(world: World) returns (ok: bool, t: Tally)
      requires Regular(world)
      modifies this`dir
      ensures ok <==> world.failure(0).NoFailure?
      ensures var l := world.listing(0, old(dir.Keys));
              dir == AfterVisits(old(dir), Expired(old(dir), world, expire + grace), l, Visited(l, world.failure(0)))
      ensures ok ==> dir == old(dir) - Expired(old(dir), world, expire + grace)
      ensures forall name <- old(dir) :: name !in dir ==>
                old(dir)[name].plain && world.now - old(dir)[name].modTime > expire + grace && world.removable(0, name)
      ensures ok ==> Left(t, dir) && Removed(t, old(dir), dir)
    {
      var start := dir;
      var l := world.listing(0, start.Keys);
      assert Lists(l, start.Keys);
      ghost var doomed := Expired(start, world, expire + grace);
      t := Tally(0, 0, 0, 0);
      UnvisitedEnds(start, l);
      for i := 0 to Visited(l, world.failure(0))
        invariant dir == AfterVisits(start, doomed, l, i)
        invariant Removed(t, start, dir)
        invariant t.size + Total(Unvisited(start, l, i), SIZE) == Total(dir, SIZE)
        invariant t.items + Total(Unvisited(start, l, i), ITEMS) == Total(dir, ITEMS)
      {
        var name := l[i];
        VisitNext(start, doomed, l, i);
        UnvisitedNext(start, l, i, SIZE);
        UnvisitedNext(start, l, i, ITEMS);
        TotalWithout(dir, SIZE, name);
        TotalWithout(dir, ITEMS, name);
        var f := start[name];
        if f.plain {
          if world.now - f.modTime > expire + grace && world.removable(0, name) {
            dir := dir - {name};
            t := t.(removedSize := t.removedSize + f.size, removedItems := t.removedItems + 1);
          } else {
            t := t.(size := t.size + f.size, items := t.items + 1);
          }
        }
      }
      ok := world.failure(0).NoFailure?;
    }

    /** A later walk, which removes drawn files. */
    method RemoveDrawn(world: World, walk: nat, p: int, before: Tally, ghost initial: Directory) returns (ok: bool, t: Tally)
      requires Regular(world) && Left(before, dir) && Removed(before, initial, dir)
      modifies this`dir
      ensures ok <==> world.failure(walk).NoFailure?
      ensures var l := world.listing(walk, old(dir.Keys));
              dir == AfterVisits(old(dir), Drawn(old(dir), world, walk, p), l, Visited(l, world.failure(walk)))
      ensures ok ==> dir == old(dir) - Drawn(old(dir), world, walk, p)
      ensures Left(t, dir) && Removed(t, initial, dir)
    {
      var start := dir;
      var l := world.listing(walk, start.Keys);
      assert Lists(l, start.Keys);
      ghost var doomed := Drawn(start, world, walk, p);
      t := before;
      UnvisitedEnds(start, l);
      for i := 0 to Visited(l, world.failure(walk))
        invariant dir == AfterVisits(start, doomed, l, i)
        invariant Left(t, dir) && Removed(t, initial, dir)
      {
        var name := l[i];
        VisitNext(start, doomed, l, i);
        TotalWithout(dir, SIZE, name);
        TotalWithout(dir, ITEMS, name);
        var f := start[name];
        if f.plain && world.draw(walk, name) <= p && world.removable(walk, name) {
          dir := dir - {name};
          t := Tally(t.size - f.size, t.items - 1, t.removedSize + f.size, t.removedItems + 1);
        }
      }
      ok := world.failure(walk).NoFailure?;
    }

    /** One round of eviction. */
    method EvictOnce(world: World, done: nat, before: Tally, ghost initial: Directory, ghost expired: set<string>)
      returns (ok: bool, t: Tally)
      requires Regular(world) && Left(before, dir) && Removed(before, initial, dir)
      requires before.size > maxSize && done < MAX_ROUNDS && Sparing(initial, dir, expired, true)
      modifies this`dir
      ensures ok <==> world.failure(done + 1).NoFailure?
      ensures Left(t, dir) && Removed(t, initial, dir) && Sparing(initial, dir, expired, true)
      ensures ok ==> Round(old(dir), dir, world, maxSize, done)
    {
      ghost var l := world.listing(done + 1, dir.Keys);
      var p := Percentage(before.size, maxSize);
      SparingRound(initial, dir, expired, Drawn(dir, world, done + 1, p), l, Visited(l, world.failure(done + 1)));
      ok, t := RemoveDrawn(world, done + 1, p, before, initial);
    }

    /** Evicts while the cache is too large, in at most three rounds. */
    method Evict(world: World, before: Tally, ghost initial: Directory, ghost expired: set<string>)
      returns (ok: bool, rounds: nat, t: Tally, ghost trace: seq<Directory>)
      requires Regular(world) && Left(before, dir) && Removed(before, initial, dir)
      requires Sparing(initial, dir, expired, before.size > maxSize)
      modifies this`dir
      ensures ok <==> AllComplete(world, 1, rounds)
      ensures Left(t, dir) && Removed(t, initial, dir)
      ensures Sparing(initial, dir, expired, before.size > maxSize)
      ensures ok ==> rounds <= MAX_ROUNDS && (t.size <= maxSize || rounds == MAX_ROUNDS)
      ensures ok ==> |trace| == rounds + 1 && trace[0] == old(dir) && trace[rounds] == dir && Rounds(trace, world, maxSize)
    {
      ok, rounds, t, trace := true, 0, before, [dir];
      while ok && t.size > maxSize && rounds < MAX_ROUNDS
        invariant ok <==> AllComplete(world, 1, rounds)
        invariant rounds <= MAX_ROUNDS && (t.size > maxSize ==> before.size > maxSize)
        invariant Left(t, dir) && Removed(t, initial, dir)
        invariant |trace| == rounds + 1 && trace[0] == old(dir)
        invariant ok ==> trace[rounds] == dir && Rounds(trace, world, maxSize)
        invariant Sparing(initial, dir, expired, before.size > maxSize)
        decreases MAX_ROUNDS - rounds
      {
        OneMoreWalk(world, 1, rounds);
        ok, t := EvictOnce(world, rounds, t, initial, expired);
        rounds, trace := rounds + 1, trace + [dir];
      }
    }

    /** The whole of `clean`: if no walk fails, the published figures are those of the directory,
        and what was removed is the difference; the cache fits its maximal size, or three rounds
        have passed.  In any case only cache files are removed, and unexpired ones only if the
        cache is too large without the expired ones. */
    method Clean(world: World) returns (ok: bool, rounds: nat, t: Tally, ghost trace: seq<Directory>)
      requires Regular(world)
      modifies this
      ensures ok <==> AllComplete(world, 0, rounds)
      ensures !ok ==> statsSize == old(statsSize) && statsItems == old(statsItems)
      ensures ok ==> t.size == statsSize && t.items == statsItems && Left(t, dir) && Removed(t, old(dir), dir)
      ensures ok ==> rounds <= 3 && (statsSize <= maxSize || rounds == 3)
      ensures ok ==> |trace| == rounds + 1 && trace[rounds] == dir && Rounds(trace, world, maxSize)
      ensures ok ==> forall name <- old(dir) :: name !in trace[0] <==>
                old(dir)[name].plain && world.now - old(dir)[name].modTime > expire + grace && world.removable(0, name)
      ensures var expired := Expired(old(dir), world, expire + grace);
              && (ok ==> trace[0] == old(dir) - expired)
              && Sparing(old(dir), dir, expired, Total(old(dir) - expired, SIZE) > maxSize)
    {
      rounds, trace := 0, [];
      ghost var initial, expired := dir, Expired(dir, world, expire + grace);
      ghost var l := world.listing(0, dir.Keys);
      SparingStart(initial, expired, l, Visited(l, world.failure(0)), Total(initial - expired, SIZE) > maxSize);
      ok, t := RemoveExpired(world);
      if ok {
        ok, rounds, t, trace := Evict(world, t, initial, expired);
        if ok {
          statsSize, statsItems := t.size, t.items;
        }
      }
    }
  }
}
