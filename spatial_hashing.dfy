/**
 * QSpatialHashing (extensions/qspatialhashing.h, extensions/qspatialhashing.cpp):
 * a broad phase that files every body under each integer grid cell its box
 * touches, remembers the cell range it used (`bodyOldCells`), and reports as
 * candidate pairs the bodies that share a cell and whose boxes overlap, found
 * by sorting each cell and sweeping it.
 *
 * Bodies are their addresses (`nat`). Their boxes and the engine's
 * BodiesCanCollide test are parameters.
 */
module SpatialHashing {
  import opened Vectors
  import opened AABBs
  import Seqs
  import BodyPairs

  /** A grid cell (cellX, cellY). */
  type Cell = (int, int)

  /** A candidate pair of bodies. */
  type Pair = (nat, nat)

  /** CellAABB: an inclusive range of cells. Its operator== compares the four bounds, which is datatype equality. */
  datatype CellAABB = CellAABB(minX: int, minY: int, maxX: int, maxY: int)

  /** The default CellAABB. */
  const EMPTY_CELL_AABB := CellAABB(0, 0, 0, 0)

  /** The default cell size. */
  const DEFAULT_CELL_SIZE: real := 128.0

  /** `n` is `v` rounded down. */
  predicate IsFloor(n: int, v: real)
  {
    n as real <= v < (n + 1) as real
  }

  /** The cell range of a box: its corners scaled by 1/cellSize and rounded down. */
  function CellRange(aabb: AABB, cellSizeFactor: real): (r: CellAABB)
    ensures IsFloor(r.minX, aabb.minPos.x * cellSizeFactor)
    ensures IsFloor(r.minY, aabb.minPos.y * cellSizeFactor)
    ensures IsFloor(r.maxX, aabb.maxPos.x * cellSizeFactor)
    ensures IsFloor(r.maxY, aabb.maxPos.y * cellSizeFactor)
  {
    CellAABB((aabb.minPos.x * cellSizeFactor).Floor, (aabb.minPos.y * cellSizeFactor).Floor,
             (aabb.maxPos.x * cellSizeFactor).Floor, (aabb.maxPos.y * cellSizeFactor).Floor)
  }

  predicate InRange(r: CellAABB, k: Cell)
  {
    r.minX <= k.0 <= r.maxX && r.minY <= k.1 <= r.maxY
  }

  /** The cells of a range. */
  ghost function CellsOf(r: CellAABB): (c: set<Cell>)
    ensures forall k :: k in c <==> InRange(r, k)
  {
    set x: int, y: int | r.minX <= x <= r.maxX && r.minY <= y <= r.maxY :: (x, y)
  }

  /**
   * The cells of a range that the nested loops (cellX outer, cellY inner) have
   * visited before reaching cell (x, y).
   */
  ghost function Swept(r: CellAABB, x: int, y: int): set<Cell>
  {
    set a: int, b: int | r.minX <= a <= r.maxX && r.minY <= b <= r.maxY && (a < x || (a == x && b < y)) :: (a, b)
  }

  lemma SweptStart(r: CellAABB)
    ensures Swept(r, r.minX, r.minY) == {}
  {
  }

  lemma SweptStep(r: CellAABB, x: int, y: int)
    requires r.minX <= x <= r.maxX && r.minY <= y <= r.maxY
    ensures (x, y) !in Swept(r, x, y)
    ensures Swept(r, x, y + 1) == Swept(r, x, y) + {(x, y)}
  {
  }

  lemma SweptNextColumn(r: CellAABB, x: int, y: int)
    requires y > r.maxY
    ensures Swept(r, x, y) == Swept(r, x + 1, r.minY)
  {
  }

  lemma SweptAll(r: CellAABB, x: int)
    requires x > r.maxX
    ensures Swept(r, x, r.minY) == CellsOf(r)
  {
  }

  // ------------------------------------------------------------------ cell contents

  /** cells[k], which std::unordered_map::operator[] creates empty when missing. */
  function Get(cells: map<Cell, seq<nat>>, k: Cell): seq<nat>
  {
    if k in cells then cells[k] else []
  }

  /** What the loops do to one cell's vector: push_back, or find-and-erase of the first occurrence. */
  datatype CellEdit = Push(body: nat) | Erase(body: nat)

  function Apply(edit: CellEdit, s: seq<nat>): seq<nat>
  {
    match edit
    case Push(b) => s + [b]
    case Erase(b) =>
      var i := Seqs.IndexOf(s, b);
      if i == -1 then s else Seqs.RemoveAt(s, i)
  }

  /** The cells map after `edit` has been applied to every cell of `keys` (each created if missing). */
  ghost function Updated(cells: map<Cell, seq<nat>>, keys: set<Cell>, edit: CellEdit): map<Cell, seq<nat>>
  {
    map k | k in cells.Keys + keys :: if k in keys then Apply(edit, Get(cells, k)) else cells[k]
  }

  lemma UpdatedNothing(cells: map<Cell, seq<nat>>, edit: CellEdit)
    ensures Updated(cells, {}, edit) == cells
  {
  }

  /** One more loop iteration: the edit of cell k joins the edits made so far. */
  lemma UpdatedStep(cells: map<Cell, seq<nat>>, keys: set<Cell>, edit: CellEdit, k: Cell)
    requires k !in keys
    ensures Get(Updated(cells, keys, edit), k) == Get(cells, k)
    ensures Updated(cells, keys + {k}, edit) == Updated(cells, keys, edit)[k := Apply(edit, Get(cells, k))]
  {
  }

  /**
   * The invariant of the hash: every cell's vector is free of repeats, and a
   * body is filed under cell k exactly when it has a recorded range that
   * contains k (every such cell exists).
   */
  ghost predicate Consistent(cells: map<Cell, seq<nat>>, owners: map<nat, CellAABB>)
  {
    (forall k | k in cells :: Seqs.Distinct(cells[k])) &&
    (forall k, b | k in cells && b in cells[k] :: b in owners && InRange(owners[b], k)) &&
    (forall b, k | b in owners && InRange(owners[b], k) :: k in cells && b in cells[k])
  }

  /** What removal leaves in one cell. */
  lemma {:induction false} RemoveFromCell(cells: map<Cell, seq<nat>>, owners: map<nat, CellAABB>, b: nat, k: Cell)
    requires Consistent(cells, owners) && b in owners
    requires k in Updated(cells, CellsOf(owners[b]), Erase(b))
    ensures k in cells
    ensures var s := Updated(cells, CellsOf(owners[b]), Erase(b))[k];
      Seqs.Distinct(s) && b !in s && forall y :: y in s <==> y in cells[k] && y != b
  {
    var r := owners[b];
    var c := Updated(cells, CellsOf(r), Erase(b));
    if InRange(r, k) {
      var s := cells[k];
      var i := Seqs.IndexOf(s, b);
      assert c[k] == Seqs.RemoveAt(s, i);
      Seqs.EraseDistinct(s, i);
    } else {
      assert c[k] == cells[k];
    }
  }

  /** Removing a recorded body from the cells of its range forgets it and leaves every other body where it was. */
  lemma {:induction false} RemoveKeepsConsistent(cells: map<Cell, seq<nat>>, owners: map<nat, CellAABB>, b: nat)
    requires Consistent(cells, owners) && b in owners
    ensures Consistent(Updated(cells, CellsOf(owners[b]), Erase(b)), owners - {b})
    ensures forall k | k in Updated(cells, CellsOf(owners[b]), Erase(b)) :: b !in Updated(cells, CellsOf(owners[b]), Erase(b))[k]
  {
    var c := Updated(cells, CellsOf(owners[b]), Erase(b));
    var o := owners - {b};
    forall k | k in c
      ensures Seqs.Distinct(c[k]) && b !in c[k]
      ensures forall y | y in c[k] :: y in o && InRange(o[y], k)
    {
      RemoveFromCell(cells, owners, b, k);
    }
    forall y, k | y in o && InRange(o[y], k)
      ensures k in c && y in c[k]
    {
      assert k in cells;
      RemoveFromCell(cells, owners, b, k);
    }
  }

  /** Filing an unrecorded body under the cells of a range records it with that range and leaves every other body where it was. */
  lemma {:induction false} AddKeepsConsistent(cells: map<Cell, seq<nat>>, owners: map<nat, CellAABB>, b: nat, r: CellAABB)
    requires Consistent(cells, owners) && b !in owners
    ensures Consistent(Updated(cells, CellsOf(r), Push(b)), owners[b := r])
  {
    var c := Updated(cells, CellsOf(r), Push(b));
    var o := owners[b := r];
    forall k | k in c
      ensures Seqs.Distinct(c[k])
      ensures forall y | y in c[k] :: y in o && InRange(o[y], k)
    {
      if InRange(r, k) {
        var s := Get(cells, k);
        assert c[k] == s + [b];
        assert b !in s;
      } else {
        assert c[k] == cells[k];
      }
    }
  }

  /** What the invariant says about one recorded body b: the cells filing it are those of its range, and the others are as recorded. */
  lemma ConsistentMembership(cells: map<Cell, seq<nat>>, owners: map<nat, CellAABB>, b: nat)
    requires Consistent(cells, owners) && b in owners
    ensures forall k | k in cells :: b in cells[k] <==> InRange(owners[b], k)
    ensures forall k | InRange(owners[b], k) :: k in cells
    ensures forall y, k | y != b && k in cells :: y in cells[k] <==> y in owners && InRange(owners[y], k)
  {
  }

  /** Reordering one cell's vector (as the sort does) keeps the invariant. */
  lemma PermuteKeepsConsistent(cells: map<Cell, seq<nat>>, owners: map<nat, CellAABB>, k: Cell, t: seq<nat>)
    requires Consistent(cells, owners) && k in cells && multiset(t) == multiset(cells[k])
    ensures Consistent(cells[k := t], owners)
  {
    Seqs.PermutationDistinct(cells[k], t);
    forall y
      ensures y in t <==> y in cells[k]
    {
      assert y in t <==> y in multiset(t);
      assert y in cells[k] <==> y in multiset(cells[k]);
    }
  }

  // ------------------------------------------------------------------ the horizontal order

  /** SortBodiesHorizontal: by the box's min.x ascending, ties by max.y descending. */
  predicate Before(a: AABB, b: AABB)
  {
    if a.minPos.x == b.minPos.x then a.maxPos.y > b.maxPos.y else a.minPos.x < b.minPos.x
  }

  /** The comparator is a strict weak order, as std::sort requires. */
  lemma BeforeIsStrictWeakOrder(a: AABB, b: AABB, c: AABB)
    ensures !Before(a, a)
    ensures Before(a, b) ==> !Before(b, a)
    ensures Before(a, b) && Before(b, c) ==> Before(a, c)
    ensures !Before(a, b) && !Before(b, a) && !Before(b, c) && !Before(c, b) ==> !Before(a, c) && !Before(c, a)
  {
  }

  /** No body is followed by one that sorts strictly before it. */
  predicate Sorted(s: seq<nat>, boxOf: nat -> AABB)
  {
    forall i, j | 0 <= i < j < |s| :: !Before(boxOf(s[j]), boxOf(s[i]))
  }

  /** One insertion step of the sort: `x` goes after every body that does not sort after it. */
  function InsertSorted(x: nat, s: seq<nat>, boxOf: nat -> AABB): (r: seq<nat>)
    ensures multiset(r) == multiset(s) + multiset{x}
  {
    if s == [] then [x]
    else if Before(boxOf(x), boxOf(s[0])) then [x] + s
    else
      assert s == [s[0]] + s[1..];
      [s[0]] + InsertSorted(x, s[1..], boxOf)
  }

  lemma {:induction false} InsertSortedSorted(x: nat, s: seq<nat>, boxOf: nat -> AABB)
    requires Sorted(s, boxOf)
    ensures Sorted(InsertSorted(x, s, boxOf), boxOf)
  {
    if s == [] {
    } else if Before(boxOf(x), boxOf(s[0])) {
      forall j | 0 <= j < |s|
        ensures !Before(boxOf(s[j]), boxOf(x))
      {
        if j > 0 {
          BeforeIsStrictWeakOrder(boxOf(s[j]), boxOf(x), boxOf(s[0]));
        }
        BeforeIsStrictWeakOrder(boxOf(s[0]), boxOf(x), boxOf(s[0]));
      }
      ConsSorted(x, s, boxOf);
    } else {
      var t := InsertSorted(x, s[1..], boxOf);
      InsertSortedSorted(x, s[1..], boxOf);
      forall j | 0 <= j < |t|
        ensures !Before(boxOf(t[j]), boxOf(s[0]))
      {
        assert t[j] in multiset(t);
        if t[j] != x {
          assert t[j] in multiset(s[1..]);
          var m :| 0 <= m < |s[1..]| && s[1..][m] == t[j];
          assert s[m + 1] == t[j];
        }
      }
      ConsSorted(s[0], t, boxOf);
    }
  }

  /** A body that no body of a sorted sequence sorts before may lead it. */
  lemma ConsSorted(y: nat, t: seq<nat>, boxOf: nat -> AABB)
    requires Sorted(t, boxOf)
    requires forall j | 0 <= j < |t| :: !Before(boxOf(t[j]), boxOf(y))
    ensures Sorted([y] + t, boxOf)
  {
    var r := [y] + t;
    forall i, j | 0 <= i < j < |r|
      ensures !Before(boxOf(r[j]), boxOf(r[i]))
    {
      assert r[j] == t[j - 1];
      if i > 0 {
        assert r[i] == t[i - 1];
      }
    }
  }

  /** std::sort with SortBodiesHorizontal, as an insertion sort (equal keys keep no particular order in std::sort). */
  function SortHorizontal(s: seq<nat>, boxOf: nat -> AABB): (r: seq<nat>)
    ensures multiset(r) == multiset(s)
  {
    if s == [] then []
    else
      assert s == [s[0]] + s[1..];
      InsertSorted(s[0], SortHorizontal(s[1..], boxOf), boxOf)
  }

  lemma {:induction false} SortHorizontalSorted(s: seq<nat>, boxOf: nat -> AABB)
    ensures Sorted(SortHorizontal(s, boxOf), boxOf)
  {
    if s != [] {
      SortHorizontalSorted(s[1..], boxOf);
      InsertSortedSorted(s[0], SortHorizontal(s[1..], boxOf), boxOf);
    }
  }

  // ------------------------------------------------------------------ pairs

  /** The sweep's acceptance test, together with the order the sort guarantees. */
  predicate SweepHit(a: AABB, b: AABB)
  {
    a.minPos.x <= b.minPos.x && a.maxPos.x >= b.minPos.x &&
    a.minPos.y <= b.maxPos.y && a.maxPos.y >= b.minPos.y
  }

  /** A pair the sweep accepts has overlapping boxes whenever the later box is proper. */
  lemma SweepHitCollides(a: AABB, b: AABB)
    requires SweepHit(a, b) && Proper(b)
    ensures IsCollidingWith(a, b)
  {
  }

  /** pairs.find with the unordered pair equality. */
  predicate HasPair(pairs: set<Pair>, p: Pair)
  {
    exists q | q in pairs :: BodyPairs.PairEqual(q, p)
  }

  /** No pair is stored twice, in either order. */
  ghost predicate NoRepeatedPairs(pairs: set<Pair>)
  {
    forall p, q | p in pairs && q in pairs && BodyPairs.PairEqual(p, q) :: p == q
  }

  /**
   * The sweep of one sorted cell (the i / j loops of GetPairs): it adds every
   * pair of the cell that can collide and whose boxes overlap, unless the pair
   * is already present in either order, and adds nothing else. The inner loop
   * stops at the first body that starts right of bodyA's box: the sort puts
   * every later body further right.
   */
  method SweepCell(s: seq<nat>, boxOf: nat -> AABB, canCollide: (nat, nat) -> bool, pairs0: set<Pair>)
    returns (pairs: set<Pair>)
    requires Sorted(s, boxOf) && Seqs.Distinct(s) && NoRepeatedPairs(pairs0)
    ensures pairs0 <= pairs && NoRepeatedPairs(pairs)
    ensures forall p | p in pairs - pairs0 ::
      p.0 in s && p.1 in s && p.0 != p.1 && canCollide(p.0, p.1) && SweepHit(boxOf(p.0), boxOf(p.1))
    ensures forall i, j | 0 <= i < j < |s| && canCollide(s[i], s[j]) && IsCollidingWith(boxOf(s[i]), boxOf(s[j])) ::
      HasPair(pairs, (s[i], s[j]))
  {
    pairs := pairs0;
    var n := |s|;
    if n <= 1 {
      return;
    }
    for i := 0 to n - 1
      invariant pairs0 <= pairs && NoRepeatedPairs(pairs)
      invariant forall p | p in pairs - pairs0 ::
        p.0 in s && p.1 in s && p.0 != p.1 && canCollide(p.0, p.1) && SweepHit(boxOf(p.0), boxOf(p.1))
      invariant forall a, j | 0 <= a < i && a < j < n && canCollide(s[a], s[j]) && IsCollidingWith(boxOf(s[a]), boxOf(s[j])) ::
        HasPair(pairs, (s[a], s[j]))
    {
      var bodyA := s[i];
      var j := i + 1;
      while j < n
        invariant i < j <= n
        invariant pairs0 <= pairs && NoRepeatedPairs(pairs)
        invariant forall p | p in pairs - pairs0 ::
          p.0 in s && p.1 in s && p.0 != p.1 && canCollide(p.0, p.1) && SweepHit(boxOf(p.0), boxOf(p.1))
        invariant forall a, j' | 0 <= a < i && a < j' < n && canCollide(s[a], s[j']) && IsCollidingWith(boxOf(s[a]), boxOf(s[j'])) ::
          HasPair(pairs, (s[a], s[j']))
        invariant forall j' | i < j' < j && canCollide(bodyA, s[j']) && IsCollidingWith(boxOf(bodyA), boxOf(s[j'])) ::
          HasPair(pairs, (bodyA, s[j']))
      {
        var bodyB := s[j];
        var bodyPair := (bodyA, bodyB);
        if HasPair(pairs, bodyPair) {
          j := j + 1;
          continue;
        }
        if !canCollide(bodyA, bodyB) {
          j := j + 1;
          continue;
        }
        var boxA, boxB := boxOf(bodyA), boxOf(bodyB);
        if boxA.maxPos.x >= boxB.minPos.x {
          if boxA.minPos.y <= boxB.maxPos.y && boxA.maxPos.y >= boxB.minPos.y {
            pairs := pairs + {bodyPair};
            assert HasPair(pairs, bodyPair) by {
              BodyPairs.PairEqualIsEquivalence(bodyPair, bodyPair, bodyPair);
            }
          }
        } else {
          forall j' | j <= j' < n
            ensures !IsCollidingWith(boxA, boxOf(s[j']))
          {
            assert !Before(boxOf(s[j']), boxB);
          }
          break;
        }
        j := j + 1;
      }
    }
  }

  /** Editing the cell the loops have reached extends the edited region by that cell. */
  lemma EditStep(c0: map<Cell, seq<nat>>, r: CellAABB, x: int, y: int, edit: CellEdit, c: map<Cell, seq<nat>>)
    requires r.minX <= x <= r.maxX && r.minY <= y <= r.maxY
    requires c == Updated(c0, Swept(r, x, y), edit)
    ensures c[(x, y) := Apply(edit, Get(c, (x, y)))] == Updated(c0, Swept(r, x, y + 1), edit)
  {
    SweptStep(r, x, y);
    UpdatedStep(c0, Swept(r, x, y), edit, (x, y));
  }

  /** The body of the inner loop of RemoveBodyFromCells: find the body in one cell's vector and erase it. */
  method EraseFromCell(cell: seq<nat>, body: nat) returns (r: seq<nat>)
    ensures r == Apply(Erase(body), cell)
  {
    r := cell;
    var bodyIt := Seqs.IndexOf(cell, body);
    if bodyIt != -1 {
      r := Seqs.RemoveAt(cell, bodyIt);
    }
  }

  /** The inner loop of RemoveBodyFromCells: erases the body from the cells of column cellX of the range. */
  method EraseFromColumn(c: map<Cell, seq<nat>>, body: nat, cellAABB: CellAABB, cellX: int, ghost c0: map<Cell, seq<nat>>)
    returns (cells: map<Cell, seq<nat>>)
    requires cellAABB.minX <= cellX <= cellAABB.maxX
    requires c == Updated(c0, Swept(cellAABB, cellX, cellAABB.minY), Erase(body))
    ensures cells == Updated(c0, Swept(cellAABB, cellX + 1, cellAABB.minY), Erase(body))
  {
    cells := c;
    var cellY := cellAABB.minY;
    while cellY <= cellAABB.maxY
      invariant cellAABB.minY <= cellY
      invariant cells == Updated(c0, Swept(cellAABB, cellX, cellY), Erase(body))
    {
      EditStep(c0, cellAABB, cellX, cellY, Erase(body), cells);
      var cell := EraseFromCell(Get(cells, (cellX, cellY)), body);
      cells := cells[(cellX, cellY) := cell];
      cellY := cellY + 1;
    }
    SweptNextColumn(cellAABB, cellX, cellY);
  }

  /** The inner loop of Insert: pushes the body onto the cells of column cellX of the range. */
  method PushOntoColumn(c: map<Cell, seq<nat>>, body: nat, cellAABB: CellAABB, cellX: int, ghost c0: map<Cell, seq<nat>>)
    returns (cells: map<Cell, seq<nat>>)
    requires cellAABB.minX <= cellX <= cellAABB.maxX
    requires c == Updated(c0, Swept(cellAABB, cellX, cellAABB.minY), Push(body))
    ensures cells == Updated(c0, Swept(cellAABB, cellX + 1, cellAABB.minY), Push(body))
  {
    cells := c;
    var cellY := cellAABB.minY;
    while cellY <= cellAABB.maxY
      invariant cellAABB.minY <= cellY
      invariant cells == Updated(c0, Swept(cellAABB, cellX, cellY), Push(body))
    {
      EditStep(c0, cellAABB, cellX, cellY, Push(body), cells);
      cells := cells[(cellX, cellY) := Get(cells, (cellX, cellY)) + [body]];
      cellY := cellY + 1;
    }
    SweptNextColumn(cellAABB, cellX, cellY);
  }

  /** Every reported pair is two different bodies that may collide, passed the sweep, and share the cell `home[p]`. */
  ghost predicate PairsSound(pairs: set<Pair>, home: map<Pair, Cell>, cells: map<Cell, seq<nat>>,
                             boxOf: nat -> AABB, canCollide: (nat, nat) -> bool)
  {
    forall p | p in pairs ::
      p.0 != p.1 && canCollide(p.0, p.1) && SweepHit(boxOf(p.0), boxOf(p.1)) &&
      p in home && home[p] in cells && p.0 in cells[home[p]] && p.1 in cells[home[p]]
  }

  /** In every swept cell, each pair that may collide and whose boxes overlap is reported (in either order). */
  ghost predicate PairsComplete(pairs: set<Pair>, cells: map<Cell, seq<nat>>, done: set<Cell>,
                                boxOf: nat -> AABB, canCollide: (nat, nat) -> bool)
  {
    forall k, i, j | k in done && k in cells && 0 <= i < j < |cells[k]| &&
        canCollide(cells[k][i], cells[k][j]) && IsCollidingWith(boxOf(cells[k][i]), boxOf(cells[k][j])) ::
      HasPair(pairs, (cells[k][i], cells[k][j]))
  }

  /** Sorting and sweeping cell k keeps both pair invariants and adds k to the swept cells. */
  lemma {:induction false} SweepKeepsPairInvariants(cells: map<Cell, seq<nat>>, k: Cell, sorted: seq<nat>,
      pairs0: set<Pair>, pairs1: set<Pair>, home0: map<Pair, Cell>, done: set<Cell>,
      boxOf: nat -> AABB, canCollide: (nat, nat) -> bool)
    returns (home1: map<Pair, Cell>)
    requires k in cells && multiset(sorted) == multiset(cells[k])
    requires PairsSound(pairs0, home0, cells, boxOf, canCollide)
    requires PairsComplete(pairs0, cells, done, boxOf, canCollide)
    requires pairs0 <= pairs1
    requires forall p | p in pairs1 - pairs0 ::
      p.0 in sorted && p.1 in sorted && p.0 != p.1 && canCollide(p.0, p.1) && SweepHit(boxOf(p.0), boxOf(p.1))
    requires forall i, j | 0 <= i < j < |sorted| && canCollide(sorted[i], sorted[j]) && IsCollidingWith(boxOf(sorted[i]), boxOf(sorted[j])) ::
      HasPair(pairs1, (sorted[i], sorted[j]))
    ensures PairsSound(pairs1, home1, cells[k := sorted], boxOf, canCollide)
    ensures PairsComplete(pairs1, cells[k := sorted], done + {k}, boxOf, canCollide)
  {
    home1 := map p | p in pairs1 :: if p in pairs0 then home0[p] else k;
    var c := cells[k := sorted];
    forall p | p in pairs1
      ensures p in home1 && home1[p] in c && p.0 in c[home1[p]] && p.1 in c[home1[p]]
    {
      if p in pairs0 && home0[p] == k {
        assert p.0 in multiset(cells[k]) && p.1 in multiset(cells[k]);
        assert p.0 in multiset(sorted) && p.1 in multiset(sorted);
      }
    }
    forall k', i, j | k' in done + {k} && k' in c && 0 <= i < j < |c[k']| &&
        canCollide(c[k'][i], c[k'][j]) && IsCollidingWith(boxOf(c[k'][i]), boxOf(c[k'][j]))
      ensures HasPair(pairs1, (c[k'][i], c[k'][j]))
    {
      if k' != k {
        assert k' in done && c[k'] == cells[k'];
        var q :| q in pairs0 && BodyPairs.PairEqual(q, (c[k'][i], c[k'][j]));
        assert q in pairs1;
      }
    }
  }

  /** A cell of at most one body is swept without effect. */
  lemma SmallCellComplete(cells: map<Cell, seq<nat>>, k: Cell, pairs: set<Pair>, done: set<Cell>,
      boxOf: nat -> AABB, canCollide: (nat, nat) -> bool)
    requires k in cells && |cells[k]| <= 1
    requires PairsComplete(pairs, cells, done, boxOf, canCollide)
    ensures PairsComplete(pairs, cells, done + {k}, boxOf, canCollide)
    ensures Sorted(cells[k], boxOf)
  {
  }

  /**
   * The loop of GetPairs on values: every cell with more than one body is
   * sorted and swept, the cells in no particular order.
   */
  method SweepCells(cells: map<Cell, seq<nat>>, owners: map<nat, CellAABB>,
                    boxOf: nat -> AABB, canCollide: (nat, nat) -> bool)
    returns (c: map<Cell, seq<nat>>, ps: set<Pair>)
    requires Consistent(cells, owners)
    ensures Consistent(c, owners) && c.Keys == cells.Keys
    ensures forall k | k in c :: multiset(c[k]) == multiset(cells[k]) && Sorted(c[k], boxOf)
    ensures NoRepeatedPairs(ps)
    ensures forall p | p in ps ::
      p.0 != p.1 && canCollide(p.0, p.1) && SweepHit(boxOf(p.0), boxOf(p.1)) &&
      exists k :: k in c && p.0 in c[k] && p.1 in c[k]
    ensures forall k, i, j | k in c && 0 <= i < j < |c[k]| &&
        canCollide(c[k][i], c[k][j]) && IsCollidingWith(boxOf(c[k][i]), boxOf(c[k][j])) ::
      HasPair(ps, (c[k][i], c[k][j]))
  {
    c, ps := cells, {};
    ghost var home: map<Pair, Cell> := map[];
    var todo := c.Keys;
    ghost var done: set<Cell> := {};
    while todo != {}
      decreases todo
      invariant todo + done == c.Keys == cells.Keys && todo !! done
      invariant Consistent(c, owners)
      invariant forall k | k in c :: multiset(c[k]) == multiset(cells[k])
      invariant forall k | k in done :: Sorted(c[k], boxOf)
      invariant NoRepeatedPairs(ps)
      invariant PairsSound(ps, home, c, boxOf, canCollide)
      invariant PairsComplete(ps, c, done, boxOf, canCollide)
    {
      var k :| k in todo;
      todo := todo - {k};
      var cellBodies := c[k];
      if |cellBodies| > 1 {
        var sorted := SortHorizontal(cellBodies, boxOf);
        SortHorizontalSorted(cellBodies, boxOf);
        PermuteKeepsConsistent(c, owners, k, sorted);
        Seqs.PermutationDistinct(cellBodies, sorted);
        var found := SweepCell(sorted, boxOf, canCollide, ps);
        home := SweepKeepsPairInvariants(c, k, sorted, ps, found, home, done, boxOf, canCollide);
        c := c[k := sorted];
        ps := found;
      } else {
        SmallCellComplete(c, k, ps, done, boxOf, canCollide);
      }
      done := done + {k};
    }
    forall p | p in ps
      ensures exists k :: k in c && p.0 in c[k] && p.1 in c[k]
    {
      var k := home[p];
      assert k in c && p.0 in c[k] && p.1 in c[k];
    }
  }

  // ------------------------------------------------------------------ the hash

  class SpatialHash {
    var cellSize: real
    var cellSizeFactor: real
    var cells: map<Cell, seq<nat>>
    var bodyOldCells: map<nat, CellAABB>
    var pairs: set<Pair>

    ghost predicate Valid()
      reads this
    {
      Consistent(cells, bodyOldCells)
    }

    /**
     * QSpatialHashing(worldBodies, sizeOfCells): the cell size keeps its
     * default 128 (the argument is not used); the factor starts at 1/128.
     */
    constructor (sizeOfCells: real)
      ensures Valid()
      ensures cellSize == DEFAULT_CELL_SIZE && cellSizeFactor == 1.0 / DEFAULT_CELL_SIZE
      ensures cells == map[] && bodyOldCells == map[] && pairs == {}
    {
      cellSize := DEFAULT_CELL_SIZE;
      cellSizeFactor := 1.0 / DEFAULT_CELL_SIZE;
      cells := map[];
      bodyOldCells := map[];
      pairs := {};
    }

    /** Clear: forgets every body, cell and pair. */
    method Clear()
      modifies this
      ensures Valid()
      ensures cells == map[] && bodyOldCells == map[] && pairs == {}
      ensures cellSize == old(cellSize) && cellSizeFactor == old(cellSizeFactor)
    {
      bodyOldCells := map[];
      cells := map[];
      pairs := {};
    }

    /** SetCellSize: clears the hash and sets the cell size and its reciprocal. */
    method SetCellSize(size: real)
      requires size != 0.0
      modifies this
      ensures Valid()
      ensures cells == map[] && bodyOldCells == map[] && pairs == {}
      ensures cellSize == size && cellSizeFactor * size == 1.0
    {
      Clear();
      cellSize := size;
      cellSizeFactor := 1.0 / cellSize;
    }

    /** RemoveBodyFromCells: erases the body's first occurrence from every cell of the range, creating missing cells empty. */
    method RemoveBodyFromCells(body: nat, cellAABB: CellAABB)
      modifies this
      ensures cells == Updated(old(cells), CellsOf(cellAABB), Erase(body))
      ensures bodyOldCells == old(bodyOldCells) && pairs == old(pairs)
      ensures cellSize == old(cellSize) && cellSizeFactor == old(cellSizeFactor)
    {
      ghost var c0 := cells;
      var c := cells;
      UpdatedNothing(c0, Erase(body));
      SweptStart(cellAABB);
      var cellX := cellAABB.minX;
      while cellX <= cellAABB.maxX
        modifies {}
        invariant cellAABB.minX <= cellX
        invariant c == Updated(c0, Swept(cellAABB, cellX, cellAABB.minY), Erase(body))
      {
        c := EraseFromColumn(c, body, cellAABB, cellX, c0);
        cellX := cellX + 1;
      }
      SweptAll(cellAABB, cellX);
      cells := c;
    }

    /** The loops of Insert: push the body onto every cell of the range, creating missing cells. */
    method AddBodyToCells(body: nat, cellAABB: CellAABB)
      modifies this
      ensures cells == Updated(old(cells), CellsOf(cellAABB), Push(body))
      ensures bodyOldCells == old(bodyOldCells) && pairs == old(pairs)
      ensures cellSize == old(cellSize) && cellSizeFactor == old(cellSizeFactor)
    {
      ghost var c0 := cells;
      var c := cells;
      UpdatedNothing(c0, Push(body));
      SweptStart(cellAABB);
      var cellX := cellAABB.minX;
      while cellX <= cellAABB.maxX
        modifies {}
        invariant cellAABB.minX <= cellX
        invariant c == Updated(c0, Swept(cellAABB, cellX, cellAABB.minY), Push(body))
      {
        c := PushOntoColumn(c, body, cellAABB, cellX, c0);
        cellX := cellX + 1;
      }
      SweptAll(cellAABB, cellX);
      cells := c;
    }

    /**
     * Insert: files the body under the cells of its box's current range. When
     * the range is the recorded one nothing changes; otherwise the body leaves
     * the cells of its old range first.
     */
    method Insert(body: nat, aabb: AABB)
      requires Valid()
      modifies this
      ensures Valid()
      ensures bodyOldCells == old(bodyOldCells)[body := CellRange(aabb, cellSizeFactor)]
      ensures forall k | k in cells :: body in cells[k] <==> InRange(CellRange(aabb, cellSizeFactor), k)
      ensures forall k | InRange(CellRange(aabb, cellSizeFactor), k) :: k in cells
      ensures forall b, k | b != body && k in cells :: b in cells[k] <==> b in old(bodyOldCells) && InRange(old(bodyOldCells)[b], k)
      ensures old(body in bodyOldCells && bodyOldCells[body] == CellRange(aabb, cellSizeFactor)) ==> cells == old(cells)
      ensures pairs == old(pairs) && cellSize == old(cellSize) && cellSizeFactor == old(cellSizeFactor)
    {
      var cellAABB := CellRange(aabb, cellSizeFactor);
      if body in bodyOldCells {
        var oldCellAABB := bodyOldCells[body];
        if oldCellAABB == cellAABB {
          assert bodyOldCells[body := cellAABB] == bodyOldCells;
          ConsistentMembership(cells, bodyOldCells, body);
          return;
        }
        RemoveKeepsConsistent(cells, bodyOldCells, body);
        RemoveBodyFromCells(body, oldCellAABB);
      } else {
        assert bodyOldCells - {body} == bodyOldCells;
      }
      FileUnder(body, cellAABB);
    }

    /** The end of Insert: records the body's new range and pushes it onto the cells of that range. */
    method FileUnder(body: nat, cellAABB: CellAABB)
      requires Consistent(cells, bodyOldCells - {body})
      modifies this
      ensures Valid()
      ensures bodyOldCells == old(bodyOldCells)[body := cellAABB]
      ensures forall k | k in cells :: body in cells[k] <==> InRange(cellAABB, k)
      ensures forall k | InRange(cellAABB, k) :: k in cells
      ensures forall b, k | b != body && k in cells :: b in cells[k] <==> b in old(bodyOldCells) && InRange(old(bodyOldCells)[b], k)
      ensures pairs == old(pairs) && cellSize == old(cellSize) && cellSizeFactor == old(cellSizeFactor)
    {
      AddKeepsConsistent(cells, bodyOldCells - {body}, body, cellAABB);
      assert (bodyOldCells - {body})[body := cellAABB] == bodyOldCells[body := cellAABB];
      bodyOldCells := bodyOldCells[body := cellAABB];
      AddBodyToCells(body, cellAABB);
      ConsistentMembership(cells, bodyOldCells, body);
      forall b | b != body
        ensures b in bodyOldCells <==> b in old(bodyOldCells)
        ensures b in bodyOldCells ==> bodyOldCells[b] == old(bodyOldCells)[b]
      {
      }
    }

    /** Remove: takes a recorded body out of the cells of its range and forgets its range; an unknown body changes nothing. */
    method Remove(body: nat)
      requires Valid()
      modifies this
      ensures Valid()
      ensures bodyOldCells == old(bodyOldCells) - {body}
      ensures forall k | k in cells :: body !in cells[k]
      ensures forall b, k | b != body && k in cells :: b in cells[k] <==> b in old(bodyOldCells) && InRange(old(bodyOldCells)[b], k)
      ensures old(body !in bodyOldCells) ==> cells == old(cells)
      ensures pairs == old(pairs) && cellSize == old(cellSize) && cellSizeFactor == old(cellSizeFactor)
    {
      if body in bodyOldCells {
        var oldCellAABB := bodyOldCells[body];
        RemoveKeepsConsistent(cells, bodyOldCells, body);
        RemoveBodyFromCells(body, oldCellAABB);
        bodyOldCells := bodyOldCells - {body};
      } else {
        assert bodyOldCells - {body} == bodyOldCells;
      }
    }

    /**
     * GetPairs: recomputes `pairs` from scratch. Every cell with more than one
     * body is sorted in place by SortBodiesHorizontal and swept; the cells are
     * visited in no particular order.
     */
    method GetPairs(boxOf: nat -> AABB, canCollide: (nat, nat) -> bool)
      requires Valid()
      modifies this
      ensures Valid()
      ensures bodyOldCells == old(bodyOldCells) && cells.Keys == old(cells).Keys
      ensures forall k | k in cells :: multiset(cells[k]) == multiset(old(cells)[k]) && Sorted(cells[k], boxOf)
      ensures NoRepeatedPairs(pairs)
      ensures forall p | p in pairs ::
        p.0 != p.1 && canCollide(p.0, p.1) && SweepHit(boxOf(p.0), boxOf(p.1)) &&
        exists k :: k in cells && p.0 in cells[k] && p.1 in cells[k]
      ensures forall k, i, j | k in cells && 0 <= i < j < |cells[k]| &&
          canCollide(cells[k][i], cells[k][j]) && IsCollidingWith(boxOf(cells[k][i]), boxOf(cells[k][j])) ::
        HasPair(pairs, (cells[k][i], cells[k][j]))
      ensures cellSize == old(cellSize) && cellSizeFactor == old(cellSizeFactor)
    {
      cells, pairs := SweepCells(cells, bodyOldCells, boxOf, canCollide);
    }
  }
}
