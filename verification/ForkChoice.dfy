/** The chain update that makes a stored block the canonical head, and what it means. */
module ForkChoice {
  import opened Chain

  /** Both lists run from the lowest to the highest block. */
  datatype NewCanonicalChain =
    | Commit(added: seq<Header>)
    | Reorg(added: seq<Header>, removed: seq<Header>)
  {
    function Tip(): Header
      requires added != []
    {
      added[|added| - 1]
    }

    function Removed(): seq<Header> {
      if Commit? then [] else removed
    }
  }

  function Reversed<T>(s: seq<T>): seq<T> {
    seq(|s|, i requires 0 <= i < |s| => s[|s| - 1 - i])
  }

  /** A non-empty parent-linked chain of stored headers, from just above `from` up to `tip`. */
  ghost predicate IsChain(m: Blocks, from: Hash, c: seq<Header>, tip: Hash) {
    && c != []
    && c[0].parent == from
    && c[|c| - 1].hash == tip
    && (forall i | 0 <= i < |c| :: c[i].hash in m && m[c[i].hash] == c[i])
    && (forall i | 0 < i < |c| :: c[i].parent == c[i - 1].hash)
  }

  /** i steps up from the target (at least one) and j steps up from the head lead to the same hash. */
  ghost predicate Meets(m: Blocks, target: Hash, i: nat, head: Hash, j: nat) {
    i >= 1 && Walk(m, target, i).Some? && Walk(m, target, i) == Walk(m, head, j)
  }

  /** The update leads from the head to the target over their first meeting point. */
  ghost predicate IsUpdate(m: Blocks, head: Hash, target: Hash, u: NewCanonicalChain) {
    && Meets(m, target, |u.added|, head, |u.Removed()|)
    && (forall i: nat, j: nat | Meets(m, target, i, head, j) :: |u.added| <= i && |u.Removed()| <= j)
    && var fork := Walk(m, target, |u.added|).value;
    && IsChain(m, fork, u.added, target)
    && (u.Commit? ==> fork == head)
    && (u.Reorg? ==> fork != head && IsChain(m, fork, u.removed, head))
  }

  /** The headers a walk goes through, in walking order. */
  ghost function Descent(m: Blocks, h: Hash, k: nat): seq<Header>
    requires Walk(m, h, k).Some?
    decreases k
  {
    if k == 0 then [] else [m[h]] + Descent(m, m[h].parent, k - 1)
  }

  lemma {:induction false} DescentPush(m: Blocks, h: Hash, k: nat)
    requires Walk(m, h, k).Some? && Walk(m, h, k).value in m
    ensures Walk(m, h, k + 1) == Some(m[Walk(m, h, k).value].parent)
    ensures Descent(m, h, k + 1) == Descent(m, h, k) + [m[Walk(m, h, k).value]]
    decreases k
  {
    if k == 0 {
      assert Walk(m, m[h].parent, 0) == Some(m[h].parent);
    } else {
      DescentPush(m, m[h].parent, k - 1);
    }
  }

  lemma {:induction false} DescentAt(m: Blocks, h: Hash, k: nat, i: nat)
    requires Walk(m, h, k).Some? && i < k
    ensures |Descent(m, h, k)| == k
    ensures Walk(m, h, i).Some? && Walk(m, h, i).value in m && Descent(m, h, k)[i] == m[Walk(m, h, i).value]
    ensures Walk(m, h, i + 1) == Some(Descent(m, h, k)[i].parent)
    decreases k
  {
    var p := m[h].parent;
    assert Walk(m, h, 1) == Walk(m, p, 0);
    if i > 0 {
      DescentAt(m, p, k - 1, i - 1);
    } else if k > 1 {
      DescentAt(m, p, k - 1, 0);
    }
  }

  lemma ReversedDescentAt(m: Blocks, h: Hash, k: nat, i: nat)
    requires (forall x | x in m :: m[x].hash == x) && i < k && Walk(m, h, k).Some?
    ensures |Descent(m, h, k)| == k
    ensures
      var c := Reversed(Descent(m, h, k));
      c[i].hash in m && m[c[i].hash] == c[i] && (i > 0 ==> c[i].parent == c[i - 1].hash)
  {
    DescentAt(m, h, k, k - 1 - i);
    if i > 0 {
      DescentAt(m, h, k, k - i);
    }
  }

  /** Collecting the headers of a walk and reversing them gives the chain above its end. */
  lemma ReversedDescent(m: Blocks, h: Hash, k: nat)
    requires (forall x | x in m :: m[x].hash == x) && k >= 1 && Walk(m, h, k).Some?
    ensures |Descent(m, h, k)| == k
    ensures IsChain(m, Walk(m, h, k).value, Reversed(Descent(m, h, k)), h)
  {
    DescentAt(m, h, k, 0);
    DescentAt(m, h, k, k - 1);
    var c := Reversed(Descent(m, h, k));
    forall i | 0 <= i < |c|
      ensures c[i].hash in m && m[c[i].hash] == c[i] && (i > 0 ==> c[i].parent == c[i - 1].hash)
    {
      ReversedDescentAt(m, h, k, i);
    }
  }

  /** The chain lists the headers met on the walk from `from` that now stands at `at`. */
  ghost predicate Climbed(m: Blocks, from: Hash, chain: seq<Header>, at: Hash) {
    Walk(m, from, |chain|) == Some(at) && chain == Descent(m, from, |chain|)
  }

  lemma ClimbedStart(m: Blocks, from: Hash)
    ensures Climbed(m, from, [], from)
  {
    assert Walk(m, from, 0) == Some(from);
  }

  lemma ClimbedMore(m: Blocks, from: Hash, chain: seq<Header>, at: Hash)
    requires Climbed(m, from, chain, at) && at in m
    ensures Climbed(m, from, chain + [m[at]], m[at].parent)
  {
    DescentPush(m, from, |chain|);
  }

  /** Walks from the target and from the head meet only at equal height. */
  lemma MeetsLevel(w: World, m: Blocks, target: Hash, i: nat, head: Hash, j: nat)
    requires Proper(w) && Numbered(w, m) && target in w.headers && head in w.headers
    requires Meets(m, target, i, head, j)
    ensures w.headers[target].number - i == w.headers[head].number - j
  {
    WalkLevel(w, m, target, i);
    WalkLevel(w, m, head, j);
  }

  /** No meeting strictly before i steps from the target and j steps from the head. */
  ghost predicate Apart(m: Blocks, target: Hash, i: nat, head: Hash, j: nat) {
    forall i': nat, j': nat | Meets(m, target, i', head, j') :: !(i' < i && j' < j)
  }

  lemma FirstMeeting(w: World, m: Blocks, target: Hash, i: nat, head: Hash, j: nat)
    requires Proper(w) && Numbered(w, m) && target in w.headers && head in w.headers
    requires Meets(m, target, i, head, j) && Apart(m, target, i, head, j)
    ensures forall i': nat, j': nat | Meets(m, target, i', head, j') :: i <= i' && j <= j'
  {
    MeetsLevel(w, m, target, i, head, j);
    forall i': nat, j': nat | Meets(m, target, i', head, j')
      ensures i <= i' && j <= j'
    {
      MeetsLevel(w, m, target, i', head, j');
    }
  }

  /** A missing header on the target's walk, above the head or level with the head's walk, rules out any meeting. */
  lemma TargetWalkBroken(w: World, m: Blocks, target: Hash, i: nat, head: Hash, j: nat)
    requires Proper(w) && Numbered(w, m) && target in w.headers && head in w.headers
    requires Walk(m, target, i).Some? && Walk(m, target, i).value !in m
    requires Apart(m, target, i, head, j)
    requires (w.headers[target].number - i == w.headers[head].number - j && Walk(m, head, j) != Walk(m, target, i))
          || (w.headers[target].number - i > w.headers[head].number - j && j == 0)
    ensures !exists i': nat, j': nat :: Meets(m, target, i', head, j')
  {
    forall i': nat, j': nat | Meets(m, target, i', head, j')
      ensures false
    {
      MeetsLevel(w, m, target, i', head, j');
      if i < i' {
        WalkPrefix(m, target, i, i');
      }
    }
  }

  /** The same for a missing header on the head's walk. */
  lemma HeadWalkBroken(w: World, m: Blocks, target: Hash, i: nat, head: Hash, j: nat)
    requires Proper(w) && Numbered(w, m) && target in w.headers && head in w.headers
    requires Walk(m, head, j).Some? && Walk(m, head, j).value !in m
    requires Apart(m, target, i, head, j)
    requires (w.headers[target].number - i == w.headers[head].number - j && Walk(m, head, j) != Walk(m, target, i))
          || (w.headers[target].number - i < w.headers[head].number - j && i == 1)
    ensures !exists i': nat, j': nat :: Meets(m, target, i', head, j')
  {
    forall i': nat, j': nat | Meets(m, target, i', head, j')
      ensures false
    {
      MeetsLevel(w, m, target, i', head, j');
      if j < j' {
        WalkPrefix(m, head, j, j');
      }
    }
  }

  /** One more compared pair of hashes, at equal height and different, extends the stretch without a meeting. */
  lemma StillApart(w: World, m: Blocks, target: Hash, i: nat, head: Hash, j: nat)
    requires Proper(w) && Numbered(w, m) && target in w.headers && head in w.headers
    requires Apart(m, target, i, head, j) && Walk(m, target, i) != Walk(m, head, j)
    requires w.headers[target].number - i == w.headers[head].number - j
    ensures Apart(m, target, i + 1, head, j + 1)
  {
    forall i': nat, j': nat | Meets(m, target, i', head, j')
      ensures !(i' < i + 1 && j' < j + 1)
    {
      MeetsLevel(w, m, target, i', head, j');
    }
  }

  /** The walk from h comes to a real hash whose header is missing. */
  ghost predicate WalkBreaks(m: Blocks, h: Hash) {
    exists k: nat :: Walk(m, h, k).Some? && Walk(m, h, k).value !in m && Walk(m, h, k).value != ZERO
  }

  /** Every walk comes to an end. */
  lemma {:induction false} WalkEnds(w: World, m: Blocks, h: Hash) returns (k: nat)
    requires Proper(w) && Known(w, m)
    ensures Walk(m, h, k).Some? && Walk(m, h, k).value !in m && (h in m ==> k > 0)
    decreases w.rank(h)
  {
    k := 0;
    if h in m {
      var j := WalkEnds(w, m, m[h].parent);
      k := j + 1;
    }
  }

  /** Walks that never meet do not both come to the end of the chain: a header is missing on one of them. */
  lemma NoMeetingMeansBroken(w: World, m: Blocks, target: Hash, head: Hash)
    requires Proper(w) && Known(w, m) && target in m
    requires !exists i: nat, j: nat :: Meets(m, target, i, head, j)
    ensures WalkBreaks(m, target) || WalkBreaks(m, head)
  {
    var i := WalkEnds(w, m, target);
    var j := WalkEnds(w, m, head);
    assert Walk(m, target, i) == Walk(m, head, j) ==> Meets(m, target, i, head, j);
  }

  /** Two chains being collected, from the target and from the head, that have not met so far. */
  ghost predicate InStep(m: Blocks, target: Hash, added: seq<Header>, atNew: Hash, head: Hash, removed: seq<Header>,
                         atOld: Hash)
  {
    && added != [] && Climbed(m, target, added, atNew) && Climbed(m, head, removed, atOld)
    && Apart(m, target, |added|, head, |removed|)
    && (removed == [] ==> atNew != atOld)
  }

  ghost predicate SameHeight(w: World, target: Hash, i: nat, head: Hash, j: nat) {
    && target in w.headers && head in w.headers
    && w.headers[target].number - i == w.headers[head].number - j
  }

  /** One more header on each side. */
  lemma StepDown(w: World, m: Blocks, target: Hash, added: seq<Header>, atNew: Hash, head: Hash, removed: seq<Header>,
                 atOld: Hash)
    requires Proper(w) && Numbered(w, m) && SameHeight(w, target, |added|, head, |removed|)
    requires InStep(m, target, added, atNew, head, removed, atOld) && atNew != atOld && atNew in m && atOld in m
    ensures InStep(m, target, added + [m[atNew]], m[atNew].parent, head, removed + [m[atOld]], m[atOld].parent)
  {
    StillApart(w, m, target, |added|, head, |removed|);
    ClimbedMore(m, head, removed, atOld);
    ClimbedMore(m, target, added, atNew);
  }

  /** A header missing on one of the sides rules out any meeting. */
  lemma StepBroken(w: World, m: Blocks, target: Hash, added: seq<Header>, atNew: Hash, head: Hash, removed: seq<Header>,
                   atOld: Hash)
    requires Proper(w) && Numbered(w, m) && SameHeight(w, target, |added|, head, |removed|)
    requires InStep(m, target, added, atNew, head, removed, atOld) && atNew != atOld && (atNew !in m || atOld !in m)
    ensures !exists i: nat, j: nat :: Meets(m, target, i, head, j)
  {
    if atOld !in m {
      HeadWalkBroken(w, m, target, |added|, head, |removed|);
    } else {
      TargetWalkBroken(w, m, target, |added|, head, |removed|);
    }
  }

  /** The collected chains make up the update, when the walks first met where they stand. */
  lemma ChainsMakeUpdate(w: World, m: Blocks, target: Hash, newChain: seq<Header>, head: Hash, oldChain: seq<Header>,
                         fork: Hash)
    requires Proper(w) && Numbered(w, m) && target in w.headers && head in w.headers
    requires newChain != [] && Climbed(m, target, newChain, fork) && Climbed(m, head, oldChain, fork)
    requires Apart(m, target, |newChain|, head, |oldChain|)
    ensures
      IsUpdate(m, head, target,
               if oldChain == [] then Commit(Reversed(newChain)) else Reorg(Reversed(newChain), Reversed(oldChain)))
  {
    assert Meets(m, target, |newChain|, head, |oldChain|);
    FirstMeeting(w, m, target, |newChain|, head, |oldChain|);
    ReversedDescent(m, target, |newChain|);
    if oldChain != [] {
      ReversedDescent(m, head, |oldChain|);
      WalkLevel(w, m, head, |oldChain|);
    }
  }

  /** Unless the target is on the head's chain already, the fork point is the highest common ancestor. */
  lemma ForkIsHighestCommonAncestor(m: Blocks, head: Hash, target: Hash, u: NewCanonicalChain)
    requires IsUpdate(m, head, target, u) && !Reaches(m, head, target)
    ensures
      var fork := u.added[0].parent;
      && Reaches(m, target, fork) && Reaches(m, head, fork)
      && forall x: Hash | Reaches(m, target, x) && Reaches(m, head, x) :: Reaches(m, fork, x)
  {
    var a, r := |u.added|, |u.Removed()|;
    var fork := Walk(m, target, a).value;
    forall x: Hash | Reaches(m, target, x) && Reaches(m, head, x)
      ensures Reaches(m, fork, x)
    {
      var i: nat :| Walk(m, target, i) == Some(x);
      var j: nat :| Walk(m, head, j) == Some(x);
      assert i > 0;
      assert Meets(m, target, i, head, j);
      WalkAdd(m, target, a, i - a);
    }
  }

  /** The headers of a chain are the ones met when walking down from its tip. */
  lemma {:induction false} ChainIsWalk(m: Blocks, from: Hash, c: seq<Header>, tip: Hash, i: nat)
    requires IsChain(m, from, c, tip) && i < |c|
    ensures Walk(m, tip, i) == Some(c[|c| - 1 - i].hash)
    ensures Walk(m, tip, i + 1) == Some(c[|c| - 1 - i].parent)
    decreases i
  {
    if i > 0 {
      ChainIsWalk(m, from, c, tip, i - 1);
    }
    WalkAdd(m, tip, i, 1);
    var x := c[|c| - 1 - i];
    assert Walk(m, x.hash, 1) == Walk(m, x.parent, 0);
  }

  lemma SameChain(m: Blocks, from: Hash, c: seq<Header>, d: seq<Header>, tip: Hash)
    requires IsChain(m, from, c, tip) && IsChain(m, from, d, tip) && |c| == |d|
    ensures c == d
  {
    forall i | 0 <= i < |c| ensures c[i] == d[i] {
      ChainIsWalk(m, from, c, tip, |c| - 1 - i);
      ChainIsWalk(m, from, d, tip, |c| - 1 - i);
    }
  }

  /** At most one update leads from the head to the target. */
  lemma UpdateOnce(m: Blocks, head: Hash, target: Hash, u: NewCanonicalChain, v: NewCanonicalChain)
    requires IsUpdate(m, head, target, u) && IsUpdate(m, head, target, v)
    ensures u == v
  {
    assert |u.added| == |v.added| && |u.Removed()| == |v.Removed()|;
    var fork := Walk(m, target, |u.added|).value;
    SameChain(m, fork, u.added, v.added, target);
    if u.Reorg? && v.Reorg? {
      SameChain(m, fork, u.removed, v.removed, head);
    }
  }

  /** A target on the head's chain is re-added alone, above its own parent: the chain is rewound to it. */
  lemma RewindToAncestor(w: World, m: Blocks, head: Hash, target: Hash, u: NewCanonicalChain)
    requires Proper(w) && Numbered(w, m) && head in w.headers
    requires target in m && IsUpdate(m, head, target, u) && Reaches(m, head, target)
    ensures u.Reorg? && u.added == [m[target]] && u.removed[0] == m[target]
  {
    var j: nat :| Walk(m, head, j) == Some(target);
    WalkAdd(m, head, j, 1);
    assert Walk(m, target, 1) == Walk(m, m[target].parent, 0);
    assert Meets(m, target, 1, head, j + 1);
    MeetsLevel(w, m, target, 1, head, j + 1);
    MeetsLevel(w, m, target, 1, head, |u.Removed()|);
    var fork := Walk(m, target, 1).value;
    if u.Commit? {
      assert false;
    }
    ChainIsWalk(m, fork, u.removed, head, j);
  }
}
