/** The listing of the game's heap tree: a walk by parent, first-child and next-sibling links, without a stack. */
module HeapWalkImpl {

  class Heap {
    var parent: Heap?
    var firstChild: Heap?
    var nextSibling: Heap?
  }

  /** A heap and the trees of its children, first child first. */
  datatype Tree = Node(heap: Heap, children: seq<Tree>)

  /** One line of the listing. */
  datatype Entry = Entry(heap: Heap, depth: nat)

  ghost function First(ts: seq<Tree>): Heap? {
    if ts == [] then null else ts[0].heap
  }

  /** The links of the heaps in memory are those of the tree, under the given parent and before the given sibling. */
  ghost predicate Linked(t: Tree, parent: Heap?, next: Heap?)
    reads *
    decreases t, 0
  {
    t.heap.parent == parent && t.heap.nextSibling == next && t.heap.firstChild == First(t.children) &&
    LinkedAll(t.children, t.heap)
  }

  ghost predicate LinkedAll(ts: seq<Tree>, parent: Heap)
    reads *
    decreases ts, 1
  {
    ts == [] || (Linked(ts[0], parent, First(ts[1..])) && LinkedAll(ts[1..], parent))
  }

  /** Preorder, as the recursive definition has it. */
  ghost function Preorder(t: Tree, depth: nat): seq<Entry>
    decreases t, 0
  {
    [Entry(t.heap, depth)] + PreorderAll(t.children, depth + 1)
  }

  ghost function PreorderAll(ts: seq<Tree>, depth: nat): seq<Entry>
    decreases ts, 1
  {
    if ts == [] then [] else Preorder(ts[0], depth) + PreorderAll(ts[1..], depth)
  }

  /** Where the walk is: the siblings still to come at each depth, innermost first, each list under its parent. */
  datatype Pending = Top | Under(parent: Heap, rest: seq<Tree>, outer: Pending)

  ghost function Depth(p: Pending): nat {
    if p.Top? then 0 else 1 + Depth(p.outer)
  }

  /** The listing still to come from the siblings on hold. */
  ghost function Remaining(p: Pending): seq<Entry> {
    if p.Top? then [] else PreorderAll(p.rest, Depth(p)) + Remaining(p.outer)
  }

  /** The links of a heap on this level, and of the levels around it, lead to what is pending. */
  ghost predicate Hangs(h: Heap, p: Pending)
    reads *
  {
    if p.Top? then h.parent == null
    else
      && h.parent == p.parent && h.nextSibling == First(p.rest) && LinkedAll(p.rest, p.parent)
      && Hangs(p.parent, p.outer)
  }

  /** The listing still to come while the walk is at `here`. */
  ghost function Visit(here: Tree, p: Pending): seq<Entry> {
    Preorder(here, Depth(p)) + Remaining(p)
  }

  lemma Descend(here: Tree, p: Pending)
    requires here.children != [] && Linked(here, here.heap.parent, here.heap.nextSibling) && Hangs(here.heap, p)
    ensures var inner := Under(here.heap, here.children[1..], p); var child := here.children[0];
            && Visit(here, p) == [Entry(here.heap, Depth(p))] + Visit(child, inner)
            && Linked(child, child.heap.parent, child.heap.nextSibling) && Hangs(child.heap, inner)
            && here.heap.firstChild == child.heap && Depth(inner) == Depth(p) + 1
  {
    var inner := Under(here.heap, here.children[1..], p);
    assert Linked(here.children[0], here.heap, First(here.children[1..]));
    var line, first, rest := [Entry(here.heap, Depth(p))], Preorder(here.children[0], Depth(p) + 1),
        PreorderAll(here.children[1..], Depth(p) + 1);
    assert Preorder(here, Depth(p)) == line + (first + rest);
    assert line + (first + rest) + Remaining(p) == line + (first + (rest + Remaining(p)));
  }

  lemma Leave(here: Tree, p: Pending)
    requires here.children == []
    ensures Visit(here, p) == [Entry(here.heap, Depth(p))] + Remaining(p)
  {
    assert Preorder(here, Depth(p)) == [Entry(here.heap, Depth(p))] + PreorderAll([], Depth(p) + 1);
  }

  lemma Across(h: Heap, p: Pending)
    requires Hangs(h, p) && h.parent != null && h.nextSibling != null
    ensures p.Under? && p.rest != []
    ensures var next := p.rest[0]; var q := p.(rest := p.rest[1..]);
            && Remaining(p) == Visit(next, q) && h.nextSibling == next.heap && Depth(q) == Depth(p)
            && Linked(next, next.heap.parent, next.heap.nextSibling) && Hangs(next.heap, q)
  {
    assert Linked(p.rest[0], p.parent, First(p.rest[1..]));
  }

  lemma Ascend(h: Heap, p: Pending)
    requires Hangs(h, p) && h.parent != null && h.nextSibling == null
    ensures p.Under? && Remaining(p) == Remaining(p.outer) && Hangs(p.parent, p.outer) && h.parent == p.parent
    ensures Depth(p) == Depth(p.outer) + 1
  {
  }

  /** Lists every heap of the tree once, parents before children, siblings in order. */
  method HeapInfo(root: Heap, ghost t: Tree) returns (log: seq<Entry>)
    requires t.heap == root && Linked(t, null, null)
    ensures log == Preorder(t, 0)
  {
    var h: Heap := root;
    var depth: nat := 0;
    var visiting := true;
    ghost var here: Tree := t;
    ghost var pending := Top;
    log := [];
    assert Visit(t, Top) == Preorder(t, 0);
    assert Hangs(h, pending);
    hide Visit, Preorder, PreorderAll, Remaining, Linked, LinkedAll, Hangs;
    while true
      invariant Hangs(h, pending) && depth == Depth(pending)
      invariant visiting ==> here.heap == h && Linked(here, h.parent, h.nextSibling)
      invariant log + (if visiting then Visit(here, pending) else Remaining(pending)) == Preorder(t, 0)
      decreases |if visiting then Visit(here, pending) else Remaining(pending)|, Depth(pending), !visiting
    {
      if visiting {
        ghost var before := log;
        log := log + [Entry(h, depth)];
        NoChild(here);
        if h.firstChild != null {
          Descend(here, pending);
          Logged(before, Entry(h, depth), Visit(here.children[0], Under(h, here.children[1..], pending)));
          pending := Under(h, here.children[1..], pending);
          here := here.children[0];
          depth := depth + 1;
          h := h.firstChild;
          continue;
        }
        Leave(here, pending);
        Logged(before, Entry(h, depth), Remaining(pending));
        visiting := false;
      }
      if h.parent == null {
        Finished(h, pending);
        return;
      }
      if h.nextSibling != null {
        Across(h, pending);
        here := pending.rest[0];
        pending := pending.(rest := pending.rest[1..]);
        h := h.nextSibling;
        visiting := true;
      } else {
        Ascend(h, pending);
        pending := pending.outer;
        depth := depth - 1;
        h := h.parent;
      }
    }
  }

  lemma Logged(log: seq<Entry>, e: Entry, todo: seq<Entry>)
    ensures log + ([e] + todo) == log + [e] + todo && |[e] + todo| == |todo| + 1
  {
  }

  lemma NoChild(t: Tree)
    requires Linked(t, t.heap.parent, t.heap.nextSibling)
    ensures t.heap.firstChild == null <==> t.children == []
  {
  }

  lemma Finished(h: Heap, p: Pending)
    requires Hangs(h, p) && h.parent == null
    ensures Remaining(p) == []
  {
  }

  // ----- the indentation -----

  /** The size of the text an entry's indentation is cut from, with its terminator. */
  const PAD: nat := 65

  /** How many levels the tree has below its root. */
  ghost function Height(t: Tree): nat
    decreases t, 0
  {
    if t.children == [] then 0 else 1 + HeightAll(t.children)
  }

  ghost function HeightAll(ts: seq<Tree>): nat
    decreases ts, 1
  {
    if ts == [] then 0
    else if Height(ts[0]) > HeightAll(ts[1..]) then Height(ts[0]) else HeightAll(ts[1..])
  }

  /** Every place at which an entry's indentation is cut, four for each level, lies in the text. */
  ghost predicate CutsInside(log: seq<Entry>) {
    forall e <- log :: 4 * e.depth < PAD
  }

  lemma CutsBoth(a: seq<Entry>, b: seq<Entry>)
    ensures CutsInside(a + b) <==> CutsInside(a) && CutsInside(b)
  {
    assert forall e <- a :: e in a + b;
    assert forall e <- b :: e in a + b;
  }

  lemma {:induction false} CutsIff(t: Tree, d: nat)
    ensures CutsInside(Preorder(t, d)) <==> 4 * (d + Height(t)) < PAD
    decreases t, 0
  {
    hide CutsInside;
    CutsBoth([Entry(t.heap, d)], PreorderAll(t.children, d + 1));
    CutsOne(Entry(t.heap, d));
    CutsAllIff(t.children, d + 1);
  }

  lemma CutsOne(e: Entry)
    ensures CutsInside([e]) <==> 4 * e.depth < PAD
  {
    assert e in [e];
  }

  lemma {:induction false} CutsAllIff(ts: seq<Tree>, d: nat)
    ensures CutsInside(PreorderAll(ts, d)) <==> ts == [] || 4 * (d + HeightAll(ts)) < PAD
    decreases ts, 1
  {
    hide CutsInside;
    if ts == [] {
      CutsNothing();
    } else {
      CutsBoth(Preorder(ts[0], d), PreorderAll(ts[1..], d));
      CutsIff(ts[0], d);
      CutsAllIff(ts[1..], d);
    }
  }

  lemma CutsNothing()
    ensures CutsInside([])
  {
  }

  /** The indentation is written inside its text exactly for trees with at most sixteen levels below the root. */
  lemma IndentFitsIff(t: Tree)
    ensures CutsInside(Preorder(t, 0)) <==> Height(t) <= 16
  {
    CutsIff(t, 0);
  }

  // ----- no heap is listed twice -----

  ghost function Up(h: Heap?, k: nat): Heap?
    reads *
  {
    if k == 0 || h == null then h else Up(h.parent, k - 1)
  }

  ghost function Along(h: Heap?, k: nat): Heap?
    reads *
  {
    if k == 0 || h == null then h else Along(h.nextSibling, k - 1)
  }

  lemma {:induction false} UpStep(h: Heap?, k: nat)
    ensures Up(h, k + 1) == (if Up(h, k) == null then null else Up(h, k).parent)
    decreases k
  {
    if k > 0 && h != null { UpStep(h.parent, k - 1); }
  }

  lemma {:induction false} UpEnds(h: Heap?, k: nat, m: nat)
    requires Up(h, k) == null && k <= m
    ensures Up(h, m) == null
    decreases m
  {
    if k < m {
      UpEnds(h, k, m - 1);
      UpStep(h, m - 1);
    }
  }

  /** A heap has exactly this many ancestors. */
  ghost predicate AtLevel(h: Heap, n: nat)
    reads *
  {
    Up(h, n) != null && Up(h, n + 1) == null
  }

  lemma LevelIsUnique(h: Heap, n: nat, m: nat)
    requires AtLevel(h, n) && AtLevel(h, m)
    ensures n == m
  {
    if n < m { UpEnds(h, n + 1, m); }
    if m < n { UpEnds(h, m + 1, n); }
  }

  /** The heap of an entry sits at the entry's depth, and its ancestor at depth `d` is `top`. */
  ghost predicate Below(e: Entry, top: Heap, d: nat)
    reads *
  {
    d <= e.depth && AtLevel(e.heap, e.depth) && Up(e.heap, e.depth - d) == top
  }

  ghost predicate ParentLevel(parent: Heap?, d: nat)
    reads *
  {
    if parent == null then d == 0 else d > 0 && AtLevel(parent, d - 1)
  }

  lemma {:induction false} EntriesBelow(t: Tree, parent: Heap?, next: Heap?, d: nat)
    requires Linked(t, parent, next) && ParentLevel(parent, d)
    ensures forall e <- Preorder(t, d) :: Below(e, t.heap, d)
    decreases t, 0
  {
    assert AtLevel(t.heap, d);
    EntriesBelowAll(t.children, t.heap, d + 1);
    forall e | e in PreorderAll(t.children, d + 1) ensures Below(e, t.heap, d) {
      var i :| 0 <= i < |t.children| && Below(e, t.children[i].heap, d + 1);
      SiblingParent(t.children, t.heap, i);
      UpStep(e.heap, e.depth - d - 1);
    }
  }

  lemma {:induction false} EntriesBelowAll(ts: seq<Tree>, parent: Heap, d: nat)
    requires LinkedAll(ts, parent) && ParentLevel(parent, d)
    ensures forall e <- PreorderAll(ts, d) :: exists i :: 0 <= i < |ts| && Below(e, ts[i].heap, d)
    decreases ts, 1
  {
    if ts != [] {
      EntriesBelow(ts[0], parent, First(ts[1..]), d);
      EntriesBelowAll(ts[1..], parent, d);
      forall e | e in PreorderAll(ts, d) ensures exists i :: 0 <= i < |ts| && Below(e, ts[i].heap, d) {
        if e in Preorder(ts[0], d) {
          assert Below(e, ts[0].heap, d);
        } else {
          assert e in PreorderAll(ts[1..], d);
          var i :| 0 <= i < |ts[1..]| && Below(e, ts[1..][i].heap, d);
          assert Below(e, ts[i + 1].heap, d);
        }
      }
    }
  }

  lemma {:induction false} SiblingParent(ts: seq<Tree>, parent: Heap, i: nat)
    requires LinkedAll(ts, parent) && i < |ts|
    ensures ts[i].heap.parent == parent
    decreases i
  {
    if i > 0 { SiblingParent(ts[1..], parent, i - 1); }
  }

  /** Counted along the sibling links, a heap's place in its list is known, so siblings differ. */
  lemma {:induction false} SiblingsEnd(ts: seq<Tree>, parent: Heap)
    requires LinkedAll(ts, parent)
    ensures Along(First(ts), |ts|) == null && forall k: nat :: k < |ts| ==> Along(First(ts), k) != null
    decreases |ts|
  {
    if ts != [] {
      SiblingsEnd(ts[1..], parent);
      assert ts[0].heap.nextSibling == First(ts[1..]);
    }
  }

  lemma {:induction false} SiblingSuffix(ts: seq<Tree>, parent: Heap, i: nat)
    requires LinkedAll(ts, parent) && i <= |ts|
    ensures LinkedAll(ts[i..], parent)
    decreases i
  {
    if i == 0 {
      assert ts[0..] == ts;
    } else {
      SiblingSuffix(ts[1..], parent, i - 1);
      assert ts[i..] == ts[1..][i - 1..];
    }
  }

  lemma FirstDiffers(ts: seq<Tree>, parent: Heap, i: nat)
    requires LinkedAll(ts, parent) && 0 < i < |ts|
    ensures ts[0].heap != ts[i].heap
  {
    SiblingSuffix(ts, parent, i);
    SiblingsEnd(ts, parent);
    SiblingsEnd(ts[i..], parent);
  }

  ghost predicate NoRepeats(log: seq<Entry>) {
    forall i, j :: 0 <= i < j < |log| ==> log[i].heap != log[j].heap
  }

  lemma NoRepeatsConcat(a: seq<Entry>, b: seq<Entry>)
    requires NoRepeats(a) && NoRepeats(b) && forall x <- a, y <- b :: x.heap != y.heap
    ensures NoRepeats(a + b)
  {
    forall i, j | 0 <= i < j < |a + b| ensures (a + b)[i].heap != (a + b)[j].heap {
      if i < |a| <= j { assert a[i] in a && b[j - |a|] in b; }
    }
  }

  lemma {:induction false} ListedOnce(t: Tree, parent: Heap?, next: Heap?, d: nat)
    requires Linked(t, parent, next) && ParentLevel(parent, d)
    ensures NoRepeats(Preorder(t, d))
    decreases t, 0
  {
    assert AtLevel(t.heap, d);
    ListedOnceAll(t.children, t.heap, d + 1);
    EntriesBelowAll(t.children, t.heap, d + 1);
    forall y | y in PreorderAll(t.children, d + 1) ensures t.heap != y.heap {
      var i :| 0 <= i < |t.children| && Below(y, t.children[i].heap, d + 1);
      if t.heap == y.heap { LevelIsUnique(t.heap, d, y.depth); }
    }
    NoRepeatsConcat([Entry(t.heap, d)], PreorderAll(t.children, d + 1));
  }

  lemma {:induction false} ListedOnceAll(ts: seq<Tree>, parent: Heap, d: nat)
    requires LinkedAll(ts, parent) && ParentLevel(parent, d)
    ensures NoRepeats(PreorderAll(ts, d))
    decreases ts, 1
  {
    if ts != [] {
      ListedOnce(ts[0], parent, First(ts[1..]), d);
      ListedOnceAll(ts[1..], parent, d);
      EntriesBelow(ts[0], parent, First(ts[1..]), d);
      EntriesBelowAll(ts[1..], parent, d);
      forall x, y | x in Preorder(ts[0], d) && y in PreorderAll(ts[1..], d) ensures x.heap != y.heap {
        var i :| 0 <= i < |ts[1..]| && Below(y, ts[1..][i].heap, d);
        if x.heap == y.heap {
          LevelIsUnique(x.heap, x.depth, y.depth);
          FirstDiffers(ts, parent, i + 1);
        }
      }
      NoRepeatsConcat(Preorder(ts[0], d), PreorderAll(ts[1..], d));
    }
  }

  /** The walk of a well-linked tree lists no heap twice. */
  lemma WalkListsOnce(t: Tree)
    requires Linked(t, null, null)
    ensures NoRepeats(Preorder(t, 0))
  {
    ListedOnce(t, null, null, 0);
  }
}
