/** Sealed headers linked by parent hashes, and walks along those links. */
module Chain {

  datatype Option<+T> = None | Some(value: T)

  type Hash = nat

  const ZERO: Hash := 0

  /** A block is identified with its sealed header: the hash commits to everything else. */
  datatype Header = Header(hash: Hash, parent: Hash, number: nat, difficulty: nat)

  datatype NumHash = NumHash(number: nat, hash: Hash)

  type Blocks = map<Hash, Header>

  type Proof = nat

  function NumHashOf(b: Header): NumHash {
    NumHash(b.number, b.hash)
  }

  /** The parent's number and hash; the number saturates at zero. */
  function ParentNumHash(b: Header): NumHash {
    NumHash(if b.number == 0 then 0 else b.number - 1, b.parent)
  }

  function Get<K, V>(m: map<K, V>, k: K): Option<V> {
    if k in m then Some(m[k]) else None
  }

  /** Every header that occurs in a run, by hash, with a rank witnessing that hash links have no cycle. */
  datatype World = World(headers: Blocks, rank: Hash -> nat)

  ghost predicate Proper(w: World) {
    && ZERO !in w.headers
    && (forall h | h in w.headers :: w.headers[h].hash == h)
    && (forall h | h in w.headers :: w.rank(w.headers[h].parent) < w.rank(h))
  }

  /** m holds only real headers, under their own hash. */
  ghost predicate Known(w: World, m: Blocks) {
    forall h | h in m :: h in w.headers && w.headers[h] == m[h]
  }

  /** Every header of m is real and numbered one above its (real) parent; only number 0 hangs off ZERO. */
  ghost predicate Numbered(w: World, m: Blocks) {
    forall h | h in m ::
      && h in w.headers && w.headers[h] == m[h]
      && (if m[h].number == 0 then m[h].parent == ZERO
          else m[h].parent in w.headers && w.headers[m[h].parent].number + 1 == m[h].number)
  }

  /** The hash k parent steps above h, where every step goes through a header of m. */
  ghost function Walk(m: Blocks, h: Hash, k: nat): Option<Hash>
    decreases k
  {
    if k == 0 then Some(h)
    else if h in m then Walk(m, m[h].parent, k - 1)
    else None
  }

  /** a is h or an ancestor of h, along headers of m. */
  ghost predicate Reaches(m: Blocks, h: Hash, a: Hash) {
    exists k: nat :: Walk(m, h, k) == Some(a)
  }

  lemma {:induction false} WalkAdd(m: Blocks, h: Hash, i: nat, j: nat)
    requires Walk(m, h, i).Some?
    ensures Walk(m, h, i + j) == Walk(m, Walk(m, h, i).value, j)
    decreases i
  {
    if i > 0 {
      WalkAdd(m, m[h].parent, i - 1, j);
    }
  }

  /** A prefix of a walk that succeeds succeeds, and stands on a header of m. */
  lemma {:induction false} WalkPrefix(m: Blocks, h: Hash, i: nat, k: nat)
    requires i < k && Walk(m, h, k).Some?
    ensures Walk(m, h, i).Some? && Walk(m, h, i).value in m
    decreases i
  {
    if i > 0 {
      WalkPrefix(m, m[h].parent, i - 1, k - 1);
    }
  }

  lemma {:induction false} WalkMonotone(m: Blocks, n: Blocks, h: Hash, k: nat)
    requires Walk(m, h, k).Some?
    requires forall x | x in m :: x in n && n[x] == m[x]
    ensures Walk(n, h, k) == Walk(m, h, k)
    decreases k
  {
    if k > 0 {
      WalkMonotone(m, n, m[h].parent, k - 1);
    }
  }

  /** The number of a real header; ZERO stands one below number 0. */
  ghost function Level(w: World, h: Hash): int {
    if h in w.headers then w.headers[h].number else -1
  }

  /** A walk inside a numbered store goes down exactly one number per step, and ends on a real header or on ZERO. */
  lemma {:induction false} WalkLevel(w: World, m: Blocks, h: Hash, k: nat)
    requires Proper(w) && Numbered(w, m) && h in w.headers
    requires Walk(m, h, k).Some?
    ensures Level(w, Walk(m, h, k).value) == w.headers[h].number - k
    ensures Walk(m, h, k).value in w.headers || Walk(m, h, k).value == ZERO
    decreases k
  {
    if k > 0 {
      var p := m[h].parent;
      if m[h].number == 0 {
        assert k == 1;
      } else {
        WalkLevel(w, m, p, k - 1);
      }
    }
  }

  lemma {:induction false} WalkRank(w: World, m: Blocks, h: Hash, k: nat)
    requires Proper(w) && Known(w, m) && Walk(m, h, k).Some?
    ensures w.rank(Walk(m, h, k).value) + k <= w.rank(h)
    decreases k
  {
    if k > 0 {
      WalkRank(w, m, m[h].parent, k - 1);
    }
  }

  lemma ReachesTrans(m: Blocks, a: Hash, b: Hash, c: Hash)
    requires Reaches(m, a, b) && Reaches(m, b, c)
    ensures Reaches(m, a, c)
  {
    var i: nat :| Walk(m, a, i) == Some(b);
    var j: nat :| Walk(m, b, j) == Some(c);
    WalkAdd(m, a, i, j);
  }

  lemma ReachesSelf(m: Blocks, a: Hash)
    ensures Reaches(m, a, a)
  {
    assert Walk(m, a, 0) == Some(a);
  }

  lemma ReachesParent(m: Blocks, a: Hash)
    requires a in m
    ensures Reaches(m, a, m[a].parent)
  {
    assert Walk(m, a, 1) == Walk(m, m[a].parent, 0);
  }

  lemma ReachesMonotone(m: Blocks, n: Blocks, a: Hash, b: Hash)
    requires Reaches(m, a, b)
    requires forall x | x in m :: x in n && n[x] == m[x]
    ensures Reaches(n, a, b)
  {
    var i: nat :| Walk(m, a, i) == Some(b);
    WalkMonotone(m, n, a, i);
  }

  /** The walk from h through headers of m ends at a: the first hash on it that is not in m. */
  ghost predicate EndsAt(m: Blocks, h: Hash, a: Hash) {
    a !in m && Reaches(m, h, a)
  }

  lemma EndsAtOnce(m: Blocks, h: Hash, a: Hash, b: Hash)
    requires EndsAt(m, h, a) && EndsAt(m, h, b)
    ensures a == b
  {
    var i: nat :| Walk(m, h, i) == Some(a);
    var j: nat :| Walk(m, h, j) == Some(b);
    if i < j {
      WalkPrefix(m, h, i, j);
    } else if j < i {
      WalkPrefix(m, h, j, i);
    }
  }

  lemma EndsAtParent(m: Blocks, h: Hash, a: Hash)
    requires h in m
    ensures EndsAt(m, h, a) <==> EndsAt(m, m[h].parent, a)
  {
    if EndsAt(m, h, a) {
      var k: nat :| Walk(m, h, k) == Some(a);
      assert Walk(m, m[h].parent, k - 1) == Some(a);
    }
    if EndsAt(m, m[h].parent, a) {
      ReachesParent(m, h);
      ReachesTrans(m, h, m[h].parent, a);
    }
  }

  lemma EndsAtSelf(m: Blocks, h: Hash, a: Hash)
    requires h !in m
    ensures EndsAt(m, h, a) <==> a == h
  {
    ReachesSelf(m, h);
    if k: nat :| Walk(m, h, k) == Some(a) {
      assert k == 0;
    }
  }
}
