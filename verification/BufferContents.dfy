/** What the block buffer holds, and what its traversals of the parent links take out of it. */
module BufferContents {
  import opened Chain
  import NumberIndex

  type Links = map<Hash, set<Hash>>

  /** The sequence without the given elements. */
  function Without(s: seq<Hash>, gone: set<Hash>): seq<Hash>
    decreases |s|
  {
    if s == [] then []
    else if s[0] in gone then Without(s[1..], gone)
    else [s[0]] + Without(s[1..], gone)
  }

  ghost predicate NoDuplicates<T>(s: seq<T>) {
    forall i, j | 0 <= i < j < |s| :: s[i] != s[j]
  }

  ghost function Elements<T>(s: seq<T>): set<T> {
    set x | x in s
  }

  lemma {:induction false} WithoutElements(s: seq<Hash>, gone: set<Hash>)
    requires NoDuplicates(s)
    ensures NoDuplicates(Without(s, gone))
    ensures Elements(Without(s, gone)) == Elements(s) - gone
    ensures |Without(s, gone)| <= |s|
    ensures Elements(s) * gone != {} ==> |Without(s, gone)| < |s|
    decreases |s|
  {
    if s != [] {
      WithoutElements(s[1..], gone);
      assert Elements(s) == Elements(s[1..]) + {s[0]};
      if s[0] !in gone {
        assert s[0] !in Elements(Without(s[1..], gone));
        assert Elements(Without(s, gone)) == Elements(Without(s[1..], gone)) + {s[0]};
      }
    }
  }

  lemma {:induction false} WithoutTwice(s: seq<Hash>, a: set<Hash>, b: set<Hash>)
    ensures Without(Without(s, a), b) == Without(s, a + b)
    decreases |s|
  {
    if s != [] {
      WithoutTwice(s[1..], a, b);
      if s[0] !in a {
        assert Without(s, a)[1..] == Without(s[1..], a);
      }
    }
  }

  lemma {:induction false} WithoutNone(s: seq<Hash>, gone: set<Hash>)
    requires Elements(s) !! gone
    ensures Without(s, gone) == s
    decreases |s|
  {
    if s != [] {
      assert Elements(s) == Elements(s[1..]) + {s[0]};
      WithoutNone(s[1..], gone);
    }
  }

  lemma {:induction false} SizeOf(s: seq<Hash>)
    requires NoDuplicates(s)
    ensures |Elements(s)| == |s|
    decreases |s|
  {
    if s != [] {
      SizeOf(s[1..]);
      assert Elements(s) == Elements(s[1..]) + {s[0]};
    }
  }

  lemma ElementsPush<T>(s: seq<T>, x: T)
    ensures Elements(s + [x]) == Elements(s) + {x}
  {
  }

  /** `entry.remove(hash)`, and the entry itself once it is empty. */
  function Unlink(links: Links, parent: Hash, hash: Hash): Links {
    if parent !in links then links
    else if links[parent] - {hash} == {} then links - {parent}
    else links[parent := links[parent] - {hash}]
  }

  /** Every child link leads to a buffered block with that parent, and no set of children is empty. */
  ghost predicate LinksSound(links: Links, blocks: Blocks) {
    && (forall p | p in links :: links[p] != {})
    && (forall p, c | p in links && c in links[p] :: c in blocks && blocks[c].parent == p)
  }

  /** The buffered blocks without a link from their parents are exactly the given ones. */
  ghost predicate LinksComplete(links: Links, blocks: Blocks, unlinked: set<Hash>) {
    && unlinked <= blocks.Keys
    && forall h | h in blocks :: h !in unlinked <==> blocks[h].parent in links && h in links[blocks[h].parent]
  }

  /** What inserting the hash pushes out: the oldest one, when the list is full and the hash is new. */
  ghost function PushedOut(lru: seq<Hash>, limit: nat, hash: Hash): set<Hash> {
    if hash !in lru && limit <= |lru| && lru != [] then {lru[0]} else {}
  }

  lemma LinkKeeps(links: Links, blocks: Blocks, unlinked: set<Hash>, b: Header)
    requires LinksSound(links, blocks) && LinksComplete(links, blocks, unlinked)
    requires b.hash in blocks ==> blocks[b.hash] == b
    ensures
      var links' := links[b.parent := (if b.parent in links then links[b.parent] else {}) + {b.hash}];
      && LinksSound(links', blocks[b.hash := b])
      && LinksComplete(links', blocks[b.hash := b], unlinked - {b.hash})
  {
  }

  lemma UnlinkKeeps(links: Links, blocks: Blocks, unlinked: set<Hash>, h: Hash)
    requires LinksSound(links, blocks) && LinksComplete(links, blocks, unlinked) && h in blocks
    ensures
      var links' := Unlink(links, blocks[h].parent, h);
      && LinksSound(links', blocks - {h})
      && LinksComplete(links', blocks - {h}, unlinked - {h})
  {
  }

  lemma UnlinkGone(links: Links, blocks: Blocks, p: Hash, h: Hash)
    requires LinksSound(links, blocks) && h !in blocks
    ensures Unlink(links, p, h) == links
  {
    assert p in links ==> links[p] - {h} == links[p];
  }

  lemma RemoveNothing<V>(m: map<Hash, V>, gone: set<Hash>)
    requires gone == {}
    ensures m - gone == m
  {
  }

  lemma InsertThenRemove(blocks: Blocks, b: Header, gone: set<Hash>)
    requires b.hash !in gone
    ensures blocks[b.hash := b] - gone == (blocks - gone)[b.hash := b]
  {
  }

  /** Dropping a parent's whole entry leaves exactly its children without a link. */
  lemma DropParentKeeps(links: Links, blocks: Blocks, unlinked: set<Hash>, p: Hash)
    requires LinksSound(links, blocks) && LinksComplete(links, blocks, unlinked) && p in links
    ensures LinksSound(links - {p}, blocks)
    ensures LinksComplete(links - {p}, blocks, unlinked + links[p])
    ensures forall h :: h in links[p] <==> h in Linked(blocks, unlinked) && blocks[h].parent == p
  {
  }

  /** The buffered blocks that are linked from their parents. */
  ghost function Linked(blocks: Blocks, unlinked: set<Hash>): Blocks {
    map h | h in blocks && h !in unlinked :: blocks[h]
  }

  /** The set contains every linked child of its members. */
  ghost predicate Closed(linked: Blocks, s: set<Hash>) {
    forall h | h in linked && linked[h].parent in s :: h in s
  }

  /** A closed set contains every block whose parent walk leads into it. */
  lemma {:induction false} ClosedHasDescendants(linked: Blocks, s: set<Hash>, h: Hash, k: nat)
    requires Closed(linked, s) && Walk(linked, h, k).Some? && Walk(linked, h, k).value in s
    ensures h in s
    decreases k
  {
    if k > 0 {
      ClosedHasDescendants(linked, s, linked[h].parent, k - 1);
    }
  }

  /** h is one of the roots or linked, through linked blocks, to one of them. */
  ghost predicate Under(linked: Blocks, roots: set<Hash>, h: Hash) {
    exists r :: r in roots && Reaches(linked, h, r)
  }

  lemma UnderRoot(linked: Blocks, roots: set<Hash>, r: Hash)
    requires r in roots
    ensures Under(linked, roots, r)
  {
    ReachesSelf(linked, r);
  }

  lemma UnderChild(linked: Blocks, roots: set<Hash>, h: Hash)
    requires h in linked && Under(linked, roots, linked[h].parent)
    ensures Under(linked, roots, h)
  {
    var r :| r in roots && Reaches(linked, linked[h].parent, r);
    ReachesParent(linked, h);
    ReachesTrans(linked, h, linked[h].parent, r);
  }

  /** What the buffer holds; its other indexes are determined by this. */
  datatype Contents = Contents(blocks: Blocks, proofs: map<Hash, Proof>, lru: seq<Hash>, unlinked: set<Hash>)

  /** Without the given blocks and proofs. */
  ghost function Drop(c: Contents, gone: set<Hash>): Contents {
    Contents(c.blocks - gone, c.proofs - gone, Without(c.lru, gone), c.unlinked - gone)
  }

  /** With the block as the most recent one, linked to its parent, and without what it pushes out. */
  ghost function WithBlock(c: Contents, limit: nat, b: Header): Contents {
    var out := PushedOut(c.lru, limit, b.hash);
    Contents((c.blocks - out)[b.hash := b], c.proofs - out, Without(c.lru, out + {b.hash}) + [b.hash],
             c.unlinked - out - {b.hash})
  }

  /** With the proof, if there is one. */
  ghost function WithProof(c: Contents, h: Hash, proof: Option<Proof>): Contents {
    if proof.Some? then c.(proofs := c.proofs[h := proof.value]) else c
  }

  lemma WithBlockParts(c: Contents, limit: nat, b: Header)
    ensures
      var out := PushedOut(c.lru, limit, b.hash);
      WithBlock(c, limit, b) == Contents(c.blocks[b.hash := b] - out, c.proofs - out,
                                        Without(c.lru, out + {b.hash}) + [b.hash], c.unlinked - {b.hash} - out)
    ensures Elements(c.lru) == c.blocks.Keys ==>
      WithBlock(c, limit, b).blocks.Keys == Elements(c.lru) - PushedOut(c.lru, limit, b.hash) + {b.hash}
  {
    var out := PushedOut(c.lru, limit, b.hash);
    InsertThenRemove(c.blocks, b, out);
    assert c.unlinked - {b.hash} - out == c.unlinked - out - {b.hash};
  }

  lemma DropDrop(c: Contents, a: set<Hash>, b: set<Hash>)
    ensures Drop(Drop(c, a), b) == Drop(c, a + b)
  {
    WithoutTwice(c.lru, a, b);
    assert c.blocks - a - b == c.blocks - (a + b);
    assert c.proofs - a - b == c.proofs - (a + b);
    assert c.unlinked - a - b == c.unlinked - (a + b);
  }

  lemma DropNone(c: Contents, gone: set<Hash>)
    requires gone == {}
    ensures Drop(c, gone) == c
  {
    WithoutNone(c.lru, gone);
    RemoveNothing(c.blocks, gone);
    RemoveNothing(c.proofs, gone);
  }

  /** A block taken out of the buffer together with its proof. */
  datatype Buffered = Buffered(block: Header, proof: Proof)

  /** The list holds exactly the given blocks, each once, as they were buffered. */
  ghost predicate Extracts(r: seq<Buffered>, c: Contents, gone: set<Hash>) {
    && (forall i | 0 <= i < |r| ::
          var h := r[i].block.hash;
          h in gone && h in c.blocks && c.blocks[h] == r[i].block && h in c.proofs && c.proofs[h] == r[i].proof)
    && (forall i, j | 0 <= i < j < |r| :: r[i].block.hash != r[j].block.hash)
    && (forall h | h in gone :: exists i :: 0 <= i < |r| && r[i].block.hash == h)
  }

  /** Every listed block comes after its parent, when the parent is listed too. */
  ghost predicate ParentFirst(r: seq<Buffered>) {
    forall i, j | 0 <= i < |r| && 0 <= j < |r| && i != j && r[j].block.hash == r[i].block.parent :: j < i
  }

  /** The linked blocks with one of the given parents. */
  ghost function Children(linked: Blocks, parents: set<Hash>): set<Hash> {
    set h | h in linked && linked[h].parent in parents
  }

  /** The contents once all links from the given parents are cut and the children with proofs are taken out. */
  ghost function PassedOver(c: Contents, parents: set<Hash>): Contents {
    var children := Children(Linked(c.blocks, c.unlinked), parents);
    Drop(c.(unlinked := c.unlinked + children), children * c.proofs.Keys)
  }

  lemma PassedOverNone(c: Contents)
    ensures PassedOver(c, {}) == c
  {
    var children := Children(Linked(c.blocks, c.unlinked), {});
    assert children == {} && children * c.proofs.Keys == {} && c.unlinked + children == c.unlinked;
    DropNone(c, children * c.proofs.Keys);
  }

  /** Cutting the links of one more parent. */
  lemma PassedOverMore(c: Contents, parents: set<Hash>, p: Hash)
    ensures PassedOver(PassedOver(c, parents), {p}) == PassedOver(c, parents + {p})
    ensures
      var linked := Linked(c.blocks, c.unlinked);
      var mid := PassedOver(c, parents);
      var children := Children(Linked(mid.blocks, mid.unlinked), {p});
      && Children(linked, parents + {p}) == Children(linked, parents) + children
      && (forall h | h in children :: h in linked && linked[h].parent == p)
      && Children(linked, parents + {p}) * c.proofs.Keys
         == Children(linked, parents) * c.proofs.Keys + children * mid.proofs.Keys
  {
    var linked := Linked(c.blocks, c.unlinked);
    var mid := PassedOver(c, parents);
    var children := Children(Linked(mid.blocks, mid.unlinked), {p});
    var all, all' := Children(linked, parents), Children(linked, parents + {p});
    var gone, more, gone' := all * c.proofs.Keys, children * mid.proofs.Keys, all' * c.proofs.Keys;
    forall h
      ensures h in children <==> h in linked && linked[h].parent == p && h !in all
    {
    }
    assert all' == all + children;
    assert gone' == gone + more;
    var d := PassedOver(mid, {p});
    WithoutTwice(c.lru, gone, more);
    assert d.blocks == c.blocks - gone';
    assert d.proofs == c.proofs - gone';
    assert d.unlinked == c.unlinked + all' - gone';
  }

  /** A worklist traversal of the linked descendants of the roots, with some parents done and some pending. */
  ghost predicate Sweeping(linked: Blocks, roots: set<Hash>, done: set<Hash>, pending: set<Hash>) {
    && roots + Children(linked, done) == done + pending
    && forall h | h in done + pending :: Under(linked, roots, h)
  }

  lemma SweepStart(linked: Blocks, roots: set<Hash>)
    ensures Sweeping(linked, roots, {}, roots)
  {
    assert Children(linked, {}) == {};
    forall r | r in roots ensures Under(linked, roots, r) {
      UnderRoot(linked, roots, r);
    }
  }

  /** Handling one pending parent: its children become pending. */
  lemma SweepStep(linked: Blocks, roots: set<Hash>, done: set<Hash>, pending: set<Hash>, p: Hash, children: set<Hash>)
    requires Sweeping(linked, roots, done, pending + {p})
    requires Children(linked, done + {p}) == Children(linked, done) + children
    ensures Sweeping(linked, roots, done + {p}, pending + children)
  {
    forall h | h in children ensures Under(linked, roots, h) {
      SweepChild(linked, roots, done, pending, p, children, h);
    }
    MoveToDone(roots, Children(linked, done), done, pending, p, children);
  }

  lemma SweepChild(linked: Blocks, roots: set<Hash>, done: set<Hash>, pending: set<Hash>, p: Hash, children: set<Hash>,
                   h: Hash)
    requires Sweeping(linked, roots, done, pending + {p}) && h in children
    requires Children(linked, done + {p}) == Children(linked, done) + children
    ensures Under(linked, roots, h)
  {
    assert h in Children(linked, done + {p});
    assert linked[h].parent in done + (pending + {p});
    UnderChild(linked, roots, h);
  }

  lemma MoveToDone(roots: set<Hash>, seen: set<Hash>, done: set<Hash>, pending: set<Hash>, p: Hash, children: set<Hash>)
    requires roots + seen == done + (pending + {p})
    ensures roots + (seen + children) == (done + {p}) + (pending + children)
  {
    assert roots + (seen + children) == (roots + seen) + children;
    assert (done + (pending + {p})) + children == (done + {p}) + (pending + children);
  }

  lemma StackElements(stack: seq<Hash>, order: seq<Hash>)
    requires stack != []
    ensures Elements(stack) == Elements(stack[..|stack| - 1]) + {stack[|stack| - 1]}
    ensures Elements(stack[..|stack| - 1] + order) == Elements(stack[..|stack| - 1]) + Elements(order)
  {
  }

  /** Popping the last pending parent and pushing its children continues the traversal. */
  lemma SweepMore(linked: Blocks, roots: set<Hash>, done: set<Hash>, stack: seq<Hash>, order: seq<Hash>)
    requires stack != [] && Sweeping(linked, roots, done, Elements(stack))
    requires
      var p := stack[|stack| - 1];
      Children(linked, done + {p}) == Children(linked, done) + Elements(order)
    ensures
      var p := stack[|stack| - 1];
      Sweeping(linked, roots, done + {p}, Elements(stack[..|stack| - 1] + order))
  {
    StackElements(stack, order);
    SweepStep(linked, roots, done, Elements(stack[..|stack| - 1]), stack[|stack| - 1], Elements(order));
  }

  /** What a finished traversal has seen: exactly the roots and everything linked under them. */
  lemma SweepDone(linked: Blocks, roots: set<Hash>, seen: set<Hash>)
    requires Sweeping(linked, roots, seen, {})
    ensures Closed(linked, seen)
    ensures forall h :: h in seen <==> Under(linked, roots, h)
  {
    forall h | h in linked && linked[h].parent in seen ensures h in seen {
      assert h in Children(linked, seen);
    }
    forall h ensures h in seen <==> Under(linked, roots, h) {
      if Under(linked, roots, h) {
        var r :| r in roots && Reaches(linked, h, r);
        var k: nat :| Walk(linked, h, k) == Some(r);
        assert r in roots + Children(linked, seen);
        ClosedHasDescendants(linked, seen, h, k);
      } else {
        assert h in seen ==> h in seen + {};
      }
    }
  }

  lemma ExtractsMore(r: seq<Buffered>, c: Contents, gone: set<Hash>, t: seq<Buffered>, d: Contents, more: set<Hash>)
    requires Extracts(r, c, gone) && Extracts(t, d, more) && gone !! more
    requires forall h | h in d.blocks :: h in c.blocks && c.blocks[h] == d.blocks[h]
    requires forall h | h in d.proofs :: h in c.proofs && c.proofs[h] == d.proofs[h]
    ensures Extracts(r + t, c, gone + more)
  {
    forall h | h in gone + more
      ensures exists i :: 0 <= i < |r + t| && (r + t)[i].block.hash == h
    {
      if h in gone {
        var i :| 0 <= i < |r| && r[i].block.hash == h;
        assert (r + t)[i].block.hash == h;
      } else {
        var i :| 0 <= i < |t| && t[i].block.hash == h;
        assert (r + t)[|r| + i].block.hash == h;
      }
    }
  }

  /** Blocks taken out below one parent come after it, and none of them is the parent of an earlier one. */
  lemma ParentFirstMore(r: seq<Buffered>, t: seq<Buffered>, p: Hash, done: set<Hash>)
    requires ParentFirst(r)
    requires forall i | 0 <= i < |r| :: r[i].block.parent in done
    requires forall i | 0 <= i < |t| :: t[i].block.parent == p && t[i].block.hash !in done && t[i].block.hash != p
    ensures ParentFirst(r + t)
  {
  }

  lemma ExtractsOneMore(r: seq<Buffered>, c: Contents, gone: set<Hash>, h: Hash)
    requires Extracts(r, c, gone) && h !in gone && h in c.blocks && c.blocks[h].hash == h && h in c.proofs
    ensures Extracts(r + [Buffered(c.blocks[h], c.proofs[h])], c, gone + {h})
  {
    var r' := r + [Buffered(c.blocks[h], c.proofs[h])];
    forall g | g in gone + {h}
      ensures exists i :: 0 <= i < |r'| && r'[i].block.hash == g
    {
      if g == h {
        assert r'[|r|].block.hash == g;
      } else {
        var i :| 0 <= i < |r| && r[i].block.hash == g;
        assert r'[i].block.hash == g;
      }
    }
  }

  /** The traversal that takes blocks out: what it has cut and taken so far, and what is still pending. */
  ghost predicate Removing(c: Contents, roots: set<Hash>, done: set<Hash>, stack: seq<Hash>, removed: seq<Buffered>,
                           now: Contents)
  {
    var linked := Linked(c.blocks, c.unlinked);
    && now == PassedOver(c, done)
    && Sweeping(linked, roots, done, Elements(stack))
    && Extracts(removed, c, Children(linked, done) * c.proofs.Keys)
    && ParentFirst(removed)
  }

  lemma RemovalStart(c: Contents, stack: seq<Hash>)
    ensures Removing(c, Elements(stack), {}, stack, [], c)
  {
    var linked := Linked(c.blocks, c.unlinked);
    PassedOverNone(c);
    SweepStart(linked, Elements(stack));
    assert Children(linked, {}) * c.proofs.Keys == {};
  }

  /** One step keeps the list of blocks taken out exact and in order. */
  lemma TakenInOrder(c: Contents, roots: set<Hash>, done: set<Hash>, pending: set<Hash>, p: Hash,
                     removed: seq<Buffered>, taken: seq<Buffered>)
    requires Sweeping(Linked(c.blocks, c.unlinked), roots, done, pending) && p in pending
    requires forall h | h in roots :: !(h in c.blocks && h in c.proofs)
    requires Extracts(removed, c, Children(Linked(c.blocks, c.unlinked), done) * c.proofs.Keys) && ParentFirst(removed)
    requires
      var mid := PassedOver(c, done);
      Extracts(taken, mid, Children(Linked(mid.blocks, mid.unlinked), {p}) * mid.proofs.Keys)
    ensures Extracts(removed + taken, c, Children(Linked(c.blocks, c.unlinked), done + {p}) * c.proofs.Keys)
    ensures ParentFirst(removed + taken)
  {
    var linked := Linked(c.blocks, c.unlinked);
    var mid := PassedOver(c, done);
    var children := Children(Linked(mid.blocks, mid.unlinked), {p});
    PassedOverMore(c, done, p);
    forall h | h in children ensures h !in Children(linked, done) {
    }
    ExtractsMore(removed, c, Children(linked, done) * c.proofs.Keys, taken, mid, children * mid.proofs.Keys);
    forall i | 0 <= i < |taken|
      ensures taken[i].block.parent == p && taken[i].block.hash !in done && taken[i].block.hash != p
    {
      var h := taken[i].block.hash;
      assert h in children && h in c.blocks && h in c.proofs;
      assert h !in roots + Children(linked, done);
    }
    forall i | 0 <= i < |removed| ensures removed[i].block.parent in done {
      assert removed[i].block.hash in Children(linked, done);
    }
    ParentFirstMore(removed, taken, p, done);
  }

  lemma RemovalStep(c: Contents, roots: set<Hash>, done: set<Hash>, stack: seq<Hash>, removed: seq<Buffered>,
                    mid: Contents, taken: seq<Buffered>, order: seq<Hash>)
    requires stack != [] && Removing(c, roots, done, stack, removed, mid)
    requires forall h | h in roots :: !(h in c.blocks && h in c.proofs)
    requires
      var children := Children(Linked(mid.blocks, mid.unlinked), {stack[|stack| - 1]});
      Elements(order) == children && Extracts(taken, mid, children * mid.proofs.Keys)
    ensures
      var p := stack[|stack| - 1];
      Removing(c, roots, done + {p}, stack[..|stack| - 1] + order, removed + taken, PassedOver(mid, {p}))
  {
    PassedOverMore(c, done, stack[|stack| - 1]);
    TakenInOrder(c, roots, done, Elements(stack), stack[|stack| - 1], removed, taken);
    SweepMore(Linked(c.blocks, c.unlinked), roots, done, stack, order);
  }

  lemma RemovalDone(c: Contents, roots: set<Hash>, seen: set<Hash>, removed: seq<Buffered>, now: Contents)
    requires Removing(c, roots, seen, [], removed, now)
    ensures Closed(Linked(c.blocks, c.unlinked), seen)
    ensures forall h :: h in seen <==> Under(Linked(c.blocks, c.unlinked), roots, h)
  {
    var none: seq<Hash> := [];
    assert Elements(none) == {};
    SweepDone(Linked(c.blocks, c.unlinked), roots, seen);
  }

  /** Links into the roots themselves do not matter for what is linked under them. */
  lemma UnderWithoutRoots(linked: Blocks, fewer: Blocks, roots: set<Hash>, seen: set<Hash>)
    requires forall h | h in fewer :: h in linked && fewer[h] == linked[h]
    requires forall h | h in linked && h !in fewer :: h in roots
    requires Closed(fewer, seen) && forall h :: h in seen <==> Under(fewer, roots, h)
    ensures Closed(linked, seen) && forall h :: h in seen <==> Under(linked, roots, h)
  {
    forall r | r in roots ensures r in seen {
      UnderRoot(fewer, roots, r);
    }
    forall h ensures h in seen <==> Under(linked, roots, h) {
      if h in seen {
        var r :| r in roots && Reaches(fewer, h, r);
        ReachesMonotone(fewer, linked, h, r);
      } else if Under(linked, roots, h) {
        var r :| r in roots && Reaches(linked, h, r);
        var k: nat :| Walk(linked, h, k) == Some(r);
        ClosedHasDescendants(linked, seen, h, k);
        assert false;
      }
    }
  }

  /** The blocks numbered at most the given number. */
  ghost function Old(blocks: Blocks, number: nat): set<Hash> {
    set h | h in blocks && blocks[h].number <= number
  }

  /** The buffered blocks among the roots and their linked descendants. */
  ghost function Family(c: Contents, roots: set<Hash>): set<Hash> {
    set h | h in c.blocks && Under(Linked(c.blocks, c.unlinked), roots, h)
  }

  /** The buffered blocks linked from a root or from a descendant of one. */
  ghost function Offspring(c: Contents, roots: set<Hash>): set<Hash> {
    set h | h in Linked(c.blocks, c.unlinked) && Under(Linked(c.blocks, c.unlinked), roots, c.blocks[h].parent)
  }

  /** The contents once the family's blocks with proofs are taken out and the links to all its offspring are cut. */
  ghost function FamilyTaken(c: Contents, h: Hash): Contents {
    Drop(c.(unlinked := c.unlinked + Offspring(c, {h})), Family(c, {h}) * c.proofs.Keys)
  }

  /** The family consists of the buffered roots and the offspring. */
  lemma FamilyIs(c: Contents, roots: set<Hash>, seen: set<Hash>)
    requires Closed(Linked(c.blocks, c.unlinked), seen)
    requires forall h :: h in seen <==> Under(Linked(c.blocks, c.unlinked), roots, h)
    ensures Offspring(c, roots) == Children(Linked(c.blocks, c.unlinked), seen)
    ensures Family(c, roots) == Offspring(c, roots) + roots * c.blocks.Keys
  {
    var linked := Linked(c.blocks, c.unlinked);
    forall h
      ensures h in Family(c, roots) <==> h in Offspring(c, roots) || (h in roots && h in c.blocks)
    {
      if h in Family(c, roots) && h !in roots {
        var r :| r in roots && Reaches(linked, h, r);
        var k: nat :| Walk(linked, h, k) == Some(r);
        assert Walk(linked, linked[h].parent, k - 1) == Some(r);
        assert Under(linked, roots, linked[h].parent);
      }
      if h in roots {
        UnderRoot(linked, roots, h);
      }
      if h in Offspring(c, roots) {
        assert linked[h].parent in seen;
      }
    }
  }

  /** Taking a family out removes its blocks with proofs, and cuts off exactly the offspring without one. */
  lemma CutOffExactly(c: Contents, h: Hash)
    requires c.unlinked <= c.blocks.Keys
    ensures
      var c' := FamilyTaken(c, h);
      && c'.blocks.Keys == c.blocks.Keys - Family(c, {h}) * c.proofs.Keys
      && forall x :: x in c'.unlinked <==>
           (x in c.unlinked && x !in Family(c, {h}) * c.proofs.Keys) || (x in Offspring(c, {h}) && x !in c.proofs)
  {
    var seen := EverythingUnder(Linked(c.blocks, c.unlinked), {h});
    FamilyIs(c, {h}, seen);
    var c' := FamilyTaken(c, h);
    forall x
      ensures x in c'.unlinked <==>
        (x in c.unlinked && x !in Family(c, {h}) * c.proofs.Keys) || (x in Offspring(c, {h}) && x !in c.proofs)
    {
      assert x in Offspring(c, {h}) ==> x in Family(c, {h});
    }
  }

  /** A block that lost its link is in no family but its own: it is never taken out for an ancestor again. */
  lemma CutOffIsNotFound(c: Contents, x: Hash, h: Hash)
    requires x in c.unlinked && x in Family(c, {h})
    ensures x == h
  {
    var linked := Linked(c.blocks, c.unlinked);
    var r :| r in {h} && Reaches(linked, x, r);
    var k: nat :| Walk(linked, x, k) == Some(h);
    assert k == 0;
  }

  /** The root, if it can be taken out itself. */
  ghost function Takeable(c: Contents, h: Hash): set<Hash> {
    if h in c.blocks && h in c.proofs then {h} else {}
  }

  lemma ChildrenAfterDrop(c: Contents, gone: set<Hash>, seen: set<Hash>)
    ensures
      Children(Linked(Drop(c, gone).blocks, Drop(c, gone).unlinked), seen)
      == Children(Linked(c.blocks, c.unlinked), seen) - gone
  {
  }

  lemma SplitTakeable(family: set<Hash>, offspring: set<Hash>, blocks: set<Hash>, proofs: set<Hash>, h: Hash)
    requires family == offspring + {h} * blocks
    ensures
      var first := if h in blocks && h in proofs then {h} else {};
      family * proofs == first + (offspring - first) * (proofs - first)
  {
  }

  lemma FamilySplits(c: Contents, h: Hash, mid: Contents, seen: set<Hash>)
    requires mid == Drop(c, Takeable(c, h))
    requires
      var fewer := Linked(mid.blocks, mid.unlinked);
      Closed(fewer, seen) && forall x :: x in seen <==> Under(fewer, {h}, x)
    ensures Offspring(c, {h}) == Children(Linked(c.blocks, c.unlinked), seen)
    ensures Children(Linked(mid.blocks, mid.unlinked), seen) == Offspring(c, {h}) - Takeable(c, h)
    ensures
      Family(c, {h}) * c.proofs.Keys
      == Takeable(c, h) + Children(Linked(mid.blocks, mid.unlinked), seen) * mid.proofs.Keys
  {
    UnderWithoutRoots(Linked(c.blocks, c.unlinked), Linked(mid.blocks, mid.unlinked), {h}, seen);
    FamilyIs(c, {h}, seen);
    ChildrenAfterDrop(c, Takeable(c, h), seen);
    SplitTakeable(Family(c, {h}), Offspring(c, {h}), c.blocks.Keys, c.proofs.Keys, h);
  }

  /** Taking the block itself out first, then passing over its descendants, takes the whole family. */
  lemma FamilyInTwoSteps(c: Contents, h: Hash, mid: Contents, seen: set<Hash>)
    requires mid == Drop(c, Takeable(c, h))
    requires
      var fewer := Linked(mid.blocks, mid.unlinked);
      Closed(fewer, seen) && forall x :: x in seen <==> Under(fewer, {h}, x)
    ensures PassedOver(mid, seen) == FamilyTaken(c, h)
  {
    FamilySplits(c, h, mid, seen);
    var first := Takeable(c, h);
    var more := Children(Linked(mid.blocks, mid.unlinked), seen) * mid.proofs.Keys;
    var gone := Family(c, {h}) * c.proofs.Keys;
    WithoutTwice(c.lru, first, more);
    var d := PassedOver(mid, seen);
    assert d.blocks == c.blocks - gone;
    assert d.proofs == c.proofs - gone;
    assert d.unlinked == c.unlinked + Offspring(c, {h}) - gone;
  }

  /** Without cycles, a block taken out first is no later block's child's parent: it may lead the list. */
  lemma ParentFirstLed(w: World, c: Contents, h: Hash, rest: seq<Buffered>)
    requires Proper(w) && Known(w, c.blocks) && h in c.blocks && h in c.proofs && c.blocks[h].hash == h
    requires ParentFirst(rest)
    requires forall i | 0 <= i < |rest| :: rest[i].block.hash in Offspring(c, {h})
    ensures ParentFirst([Buffered(c.blocks[h], c.proofs[h])] + rest)
  {
    var linked := Linked(c.blocks, c.unlinked);
    forall i | 0 <= i < |rest|
      ensures rest[i].block.hash != c.blocks[h].parent
    {
      var x := rest[i].block.hash;
      var r :| r in {h} && Reaches(linked, linked[x].parent, r);
      var k: nat :| Walk(linked, linked[x].parent, k) == Some(h);
      WalkRank(w, linked, linked[x].parent, k);
    }
  }

  /** The list with the block itself in front, when it was taken out, is the family's list. */
  lemma FamilyList(w: World, c: Contents, h: Hash, mid: Contents, seen: set<Hash>, rest: seq<Buffered>)
    requires Proper(w) && Known(w, c.blocks) && (h in c.blocks ==> c.blocks[h].hash == h)
    requires mid == Drop(c, Takeable(c, h))
    requires
      var fewer := Linked(mid.blocks, mid.unlinked);
      && Closed(fewer, seen) && (forall x :: x in seen <==> Under(fewer, {h}, x))
      && Extracts(rest, mid, Children(fewer, seen) * mid.proofs.Keys)
    requires ParentFirst(rest)
    ensures
      var all := if Takeable(c, h) == {} then rest else [Buffered(c.blocks[h], c.proofs[h])] + rest;
      Extracts(all, c, Family(c, {h}) * c.proofs.Keys) && ParentFirst(all)
  {
    FamilySplits(c, h, mid, seen);
    var more := Children(Linked(mid.blocks, mid.unlinked), seen) * mid.proofs.Keys;
    var lead := Lead(c, h);
    LeadExtracts(c, h);
    ExtractsMore(lead, c, Takeable(c, h), rest, mid, more);
    if Takeable(c, h) == {} {
      assert lead + rest == rest;
    } else {
      ParentFirstLed(w, c, h, rest);
    }
  }

  /** The root's own entry, if it can be taken out. */
  ghost function Lead(c: Contents, h: Hash): seq<Buffered> {
    if h in c.blocks && h in c.proofs then [Buffered(c.blocks[h], c.proofs[h])] else []
  }

  lemma LeadExtracts(c: Contents, h: Hash)
    requires h in c.blocks ==> c.blocks[h].hash == h
    ensures Extracts(Lead(c, h), c, Takeable(c, h))
  {
    if h in c.blocks && h in c.proofs {
      assert Lead(c, h)[0].block.hash == h;
    }
  }

  /** Evicting the children of one more parent. */
  lemma EvictMore(c: Contents, parents: set<Hash>, p: Hash)
    ensures
      var linked := Linked(c.blocks, c.unlinked);
      var mid := Drop(c, Children(linked, parents));
      var children := Children(Linked(mid.blocks, mid.unlinked), {p});
      && Children(linked, parents + {p}) == Children(linked, parents) + children
      && Drop(mid, children) == Drop(c, Children(linked, parents + {p}))
  {
    var linked := Linked(c.blocks, c.unlinked);
    var mid := Drop(c, Children(linked, parents));
    var children := Children(Linked(mid.blocks, mid.unlinked), {p});
    assert Children(linked, parents + {p}) == Children(linked, parents) + children;
    DropDrop(c, Children(linked, parents), children);
  }

  /** The traversal that evicts: what it has evicted so far, and what is still pending. */
  ghost predicate Evicting(c: Contents, roots: set<Hash>, done: set<Hash>, stack: seq<Hash>, now: Contents) {
    var linked := Linked(c.blocks, c.unlinked);
    now == Drop(c, Children(linked, done)) && Sweeping(linked, roots, done, Elements(stack))
  }

  lemma EvictionStart(c: Contents, stack: seq<Hash>)
    ensures Evicting(c, Elements(stack), {}, stack, c)
  {
    SweepStart(Linked(c.blocks, c.unlinked), Elements(stack));
    DropNone(c, Children(Linked(c.blocks, c.unlinked), {}));
  }

  lemma EvictionStep(c: Contents, roots: set<Hash>, done: set<Hash>, stack: seq<Hash>, mid: Contents, order: seq<Hash>)
    requires stack != [] && Evicting(c, roots, done, stack, mid)
    requires Elements(order) == Children(Linked(mid.blocks, mid.unlinked), {stack[|stack| - 1]})
    ensures
      var p := stack[|stack| - 1];
      Evicting(c, roots, done + {p}, stack[..|stack| - 1] + order, Drop(mid, Elements(order)))
  {
    EvictMore(c, done, stack[|stack| - 1]);
    SweepMore(Linked(c.blocks, c.unlinked), roots, done, stack, order);
  }

  lemma EvictionDone(c: Contents, roots: set<Hash>, seen: set<Hash>, now: Contents)
    requires Evicting(c, roots, seen, [], now)
    ensures Closed(Linked(c.blocks, c.unlinked), seen)
    ensures forall h :: h in seen <==> Under(Linked(c.blocks, c.unlinked), roots, h)
    ensures now == Drop(c, Offspring(c, roots))
  {
    var none: seq<Hash> := [];
    assert Elements(none) == {};
    SweepDone(Linked(c.blocks, c.unlinked), roots, seen);
    FamilyIs(c, roots, seen);
  }

  /** Evicting the roots first and their offspring next evicts the family. */
  lemma EvictInTwoSteps(c: Contents, roots: set<Hash>)
    requires roots <= c.blocks.Keys
    ensures Drop(Drop(c, roots), Offspring(Drop(c, roots), roots)) == Drop(c, Family(c, roots))
  {
    var linked := Linked(c.blocks, c.unlinked);
    var mid := Drop(c, roots);
    var fewer := Linked(mid.blocks, mid.unlinked);
    var seen := EverythingUnder(fewer, roots);
    UnderWithoutRoots(linked, fewer, roots, seen);
    FamilyIs(c, roots, seen);
    FamilyIs(mid, roots, seen);
    ChildrenAfterDrop(c, roots, seen);
    DropDrop(c, roots, Offspring(mid, roots));
    Rejoin(roots, Offspring(c, roots), c.blocks.Keys);
  }

  lemma ListMore(blocks: Blocks, hashes: seq<Hash>, order: seq<Hash>, first: nat, number: nat)
    requires NoDuplicates(hashes) && NoDuplicates(order) && first <= number
    requires Elements(hashes) <= Old(blocks, number)
    requires forall h | h in Elements(order) :: h in blocks - Elements(hashes) && blocks[h].number == first
    ensures (blocks - Elements(hashes)) - Elements(order) == blocks - Elements(hashes + order)
    ensures NoDuplicates(hashes + order) && Elements(hashes + order) <= Old(blocks, number)
  {
    var all := hashes + order;
    assert Elements(all) == Elements(hashes) + Elements(order);
    forall i, j | 0 <= i < j < |all| ensures all[i] != all[j] {
      assert i < |hashes| ==> hashes[i] in Elements(hashes);
      assert j >= |hashes| ==> order[j - |hashes|] in Elements(order);
    }
  }

  lemma AllListed(index: NumberIndex.Index, blocks: Blocks, listed: set<Hash>, number: nat)
    requires NumberIndex.Mirrors(index, blocks - listed) && listed <= Old(blocks, number)
    requires index == map[] || NumberIndex.MinKey(index.Keys) > number
    ensures listed == Old(blocks, number)
  {
    forall h | h in blocks - listed ensures number < blocks[h].number {
      assert blocks[h].number in index.Keys;
    }
  }

  lemma ListSplit(s: seq<Hash>, i: nat)
    requires i < |s| && NoDuplicates(s)
    ensures Elements(s[i..]) - {s[i]} == Elements(s[i + 1..])
    ensures Elements(s[..i + 1]) == Elements(s[..i]) + {s[i]}
    ensures s[i] in Elements(s) && s[i] !in Elements(s[..i])
  {
    assert s[..i + 1] == s[..i] + [s[i]];
    ElementsPush(s[..i], s[i]);
    assert s[i..] == [s[i]] + s[i + 1..];
  }

  lemma Rejoin(roots: set<Hash>, offspring: set<Hash>, blocks: set<Hash>)
    requires roots <= blocks
    ensures roots + (offspring - roots) == offspring + roots * blocks
  {
  }

  /** The set of everything under the roots exists. */
  lemma EverythingUnder(linked: Blocks, roots: set<Hash>) returns (seen: set<Hash>)
    ensures Closed(linked, seen) && forall h :: h in seen <==> Under(linked, roots, h)
  {
    seen := roots + set h | h in linked && Under(linked, roots, h);
    forall h ensures h in seen <==> Under(linked, roots, h) {
      if h in roots {
        UnderRoot(linked, roots, h);
      } else if Under(linked, roots, h) {
        var r :| r in roots && Reaches(linked, h, r);
        var k: nat :| Walk(linked, h, k) == Some(r);
        assert k > 0 && h in linked;
      }
    }
    forall h | h in linked && linked[h].parent in seen ensures h in seen {
      UnderChild(linked, roots, h);
    }
  }

  /** Below the limit, an insertion pushes nothing out. */
  lemma InsertionGrows(c: Contents, limit: nat, b: Header, proof: Option<Proof>)
    requires NoDuplicates(c.lru) && |c.lru| < limit
    ensures
      var c' := WithBlock(WithProof(c, b.hash, proof), limit, b);
      && c'.blocks == c.blocks[b.hash := b] && c'.proofs == WithProof(c, b.hash, proof).proofs
      && |c'.lru| <= |c.lru| + 1
  {
    var out := PushedOut(c.lru, limit, b.hash);
    RemoveNothing(c.blocks, out);
    RemoveNothing(WithProof(c, b.hash, proof).proofs, out);
    WithoutElements(c.lru, out + {b.hash});
  }

  /** What is taken out makes room for itself. */
  lemma TakenMakesRoom(c: Contents, gone: set<Hash>, r: seq<Buffered>)
    requires NoDuplicates(c.lru) && Elements(c.lru) == c.blocks.Keys && Extracts(r, c, gone)
    ensures |Without(c.lru, gone)| + |r| <= |c.lru|
  {
    var hashes: seq<Hash> := seq(|r|, i requires 0 <= i < |r| => r[i].block.hash);
    assert Elements(hashes) == gone by {
      forall h | h in gone ensures h in hashes {
        var i :| 0 <= i < |r| && r[i].block.hash == h;
        assert hashes[i] == h;
      }
    }
    SizeOf(hashes);
    WithoutElements(c.lru, gone);
    SizeOf(c.lru);
    SizeOf(Without(c.lru, gone));
    assert gone <= Elements(c.lru);
    assert |Elements(c.lru) - gone| == |Elements(c.lru)| - |gone|;
  }
}
