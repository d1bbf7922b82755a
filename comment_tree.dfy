/**
 * The comment forest of an application, as `getCommentTree` assembles it
 * from the application's comments: a comment without a parent becomes a
 * root, a comment whose parent is among the application's comments is
 * appended to that parent's children, and any other comment is dropped.
 * For a user, the comments of the user's threads are placed in a first pass
 * and the rest in a second one, so thread members come first in every list.
 *
 * The children lists live on the comment records; here they are a map from
 * the id of each of the application's comments to its children.
 */
module CommentTree {
  import opened Wrappers
  import opened Text
  import opened CommentModel

  datatype Tree = Tree(roots: seq<Comment>, children: map<Uuid, seq<Comment>>)

  /** No roots yet, and an empty children list for every known comment. */
  function Start(known: set<Uuid>): (t: Tree)
    ensures t.roots == [] && t.children.Keys == known
    ensures forall id :: id in known ==> t.children[id] == []
  {
    Tree([], map id | id in known :: [])
  }

  /** Where one comment goes: a root, the end of its known parent's children, or nowhere. */
  function Attach(t: Tree, c: Comment): (r: Tree)
    ensures r.children.Keys == t.children.Keys
  {
    if c.parentId.None? then t.(roots := t.roots + [c])
    else if c.parentId.value in t.children then
      t.(children := t.children[c.parentId.value := t.children[c.parentId.value] + [c]])
    else t
  }

  /** The comments attached one after the other. */
  function AttachAll(t: Tree, cs: seq<Comment>): (r: Tree)
    ensures r.children.Keys == t.children.Keys
    decreases |cs|
  {
    if |cs| == 0 then t else Attach(AttachAll(t, cs[..|cs| - 1]), cs[|cs| - 1])
  }

  function IsRoot(): Comment -> bool {
    (c: Comment) => c.parentId.None?
  }

  function ChildOf(p: Uuid): Comment -> bool {
    (c: Comment) => c.parentId == Some(p)
  }

  function InThreads(members: set<Uuid>): Comment -> bool {
    (c: Comment) => c.id in members
  }

  function OutsideThreads(members: set<Uuid>): Comment -> bool {
    (c: Comment) => c.id !in members
  }

  /**
   * The forest for the application's comments `all`: in their order, or,
   * for a user whose threads hold the ids `members`, the members first and
   * then the others.
   */
  function TreeOf(all: seq<Comment>, members: Option<set<Uuid>>): Tree {
    var start := Start(Ids(all));
    match members
    case None => AttachAll(start, all)
    case Some(u) => AttachAll(start, Filter(all, InThreads(u)) + Filter(all, OutsideThreads(u)))
  }

  function NotIncluded(included: set<Uuid>): Comment -> bool {
    (c: Comment) => c.id !in included
  }

  /** One comment attached to the lists in place. */
  method AttachTo(roots: seq<Comment>, children: map<Uuid, seq<Comment>>, c: Comment)
    returns (roots': seq<Comment>, children': map<Uuid, seq<Comment>>)
    ensures Tree(roots', children') == Attach(Tree(roots, children), c)
  {
    roots', children' := roots, children;
    if c.parentId.None? {
      roots' := roots + [c];
    } else if c.parentId.value in children {
      children' := children[c.parentId.value := children[c.parentId.value] + [c]];
    }
  }

  /** The first pass for a user: the thread members are attached, and their ids recorded as included. */
  method MembersPass(t0: Tree, all: seq<Comment>, u: set<Uuid>) returns (t: Tree, included: set<Uuid>)
    ensures t == AttachAll(t0, Filter(all, InThreads(u)))
    ensures included == Ids(Filter(all, InThreads(u)))
  {
    var roots, children := t0.roots, t0.children;
    included := {};
    for i := 0 to |all|
      invariant Tree(roots, children) == AttachAll(t0, Filter(all[..i], InThreads(u)))
      invariant included == Ids(Filter(all[..i], InThreads(u)))
    {
      var c := all[i];
      ghost var done := Filter(all[..i], InThreads(u));
      assert all[..i + 1][..i] == all[..i];
      if c.id in u {
        assert InThreads(u)(c);
        assert Filter(all[..i + 1], InThreads(u)) == done + [c] && (done + [c])[..|done|] == done;
        assert AttachAll(t0, done + [c]) == Attach(AttachAll(t0, done), c);
        assert Ids(done + [c]) == Ids(done) + {c.id};
        included := included + {c.id};
        roots, children := AttachTo(roots, children, c);
      } else {
        assert Filter(all[..i + 1], InThreads(u)) == done;
      }
    }
    assert all[..|all|] == all;
    t := Tree(roots, children);
  }

  /** The second pass for a user: every comment not included is attached. */
  method OthersPass(t0: Tree, all: seq<Comment>, included: set<Uuid>) returns (t: Tree)
    ensures t == AttachAll(t0, Filter(all, NotIncluded(included)))
  {
    var roots, children := t0.roots, t0.children;
    for i := 0 to |all|
      invariant Tree(roots, children) == AttachAll(t0, Filter(all[..i], NotIncluded(included)))
    {
      var c := all[i];
      ghost var done := Filter(all[..i], NotIncluded(included));
      assert all[..i + 1][..i] == all[..i];
      if c.id !in included {
        assert Filter(all[..i + 1], NotIncluded(included)) == done + [c] && (done + [c])[..|done|] == done;
        assert AttachAll(t0, done + [c]) == Attach(AttachAll(t0, done), c);
        roots, children := AttachTo(roots, children, c);
      } else {
        assert Filter(all[..i + 1], NotIncluded(included)) == done;
      }
    }
    assert all[..|all|] == all;
    t := Tree(roots, children);
  }

  /** The single pass without a user: every comment is attached. */
  method AllPass(t0: Tree, all: seq<Comment>) returns (t: Tree)
    ensures t == AttachAll(t0, all)
  {
    var roots, children := t0.roots, t0.children;
    for i := 0 to |all|
      invariant Tree(roots, children) == AttachAll(t0, all[..i])
    {
      assert all[..i + 1][..i] == all[..i];
      roots, children := AttachTo(roots, children, all[i]);
    }
    assert all[..|all|] == all;
    t := Tree(roots, children);
  }

  /** The passes of `getCommentTree` over the application's comments, starting from an empty list per id. */
  method AssembleTree(all: seq<Comment>, members: Option<set<Uuid>>) returns (t: Tree)
    ensures t == TreeOf(all, members)
  {
    var start := Start(Ids(all));
    if members.Some? {
      var u := members.value;
      var first, included := MembersPass(start, all, u);
      t := OthersPass(first, all, included);
      forall c | c in all ensures NotIncluded(included)(c) == OutsideThreads(u)(c) {
        IncludedExactly(all, u, c);
      }
      FilterAgree(all, NotIncluded(included), OutsideThreads(u));
      AttachAllAppend(start, Filter(all, InThreads(u)), Filter(all, OutsideThreads(u)));
    } else {
      t := AllPass(start, all);
    }
  }

  /** The ids the first pass records are those of the listed comments that belong to the threads. */
  lemma IncludedExactly(all: seq<Comment>, u: set<Uuid>, c: Comment)
    requires c in all
    ensures c.id in Ids(Filter(all, InThreads(u))) <==> c.id in u
  {
    FilterMembers(all, InThreads(u), c);
    if c.id in Ids(Filter(all, InThreads(u))) {
      var c' :| c' in Filter(all, InThreads(u)) && c'.id == c.id;
      FilterMembers(all, InThreads(u), c');
    }
  }

  lemma {:induction false} AttachAllAppend(t: Tree, a: seq<Comment>, b: seq<Comment>)
    ensures AttachAll(t, a + b) == AttachAll(AttachAll(t, a), b)
    decreases |b|
  {
    if |b| == 0 {
      assert a + b == a;
    } else {
      assert (a + b)[..|a + b| - 1] == a + b[..|b| - 1];
      AttachAllAppend(t, a, b[..|b| - 1]);
    }
  }

  /** The roots attached are exactly the comments without a parent, in order. */
  lemma {:induction false} AttachAllRoots(t: Tree, cs: seq<Comment>)
    ensures AttachAll(t, cs).roots == t.roots + Filter(cs, IsRoot())
    decreases |cs|
  {
    if |cs| > 0 {
      AttachAllRoots(t, cs[..|cs| - 1]);
    }
  }

  /** The children attached to a known comment are exactly the comments naming it as parent, in order. */
  lemma {:induction false} AttachAllChildren(t: Tree, cs: seq<Comment>, p: Uuid)
    requires p in t.children
    ensures AttachAll(t, cs).children[p] == t.children[p] + Filter(cs, ChildOf(p))
    decreases |cs|
  {
    if |cs| > 0 {
      AttachAllChildren(t, cs[..|cs| - 1], p);
    }
  }

  /**
   * Without a user: the roots are the application's comments without a
   * parent, and a comment's children are the comments naming it as parent,
   * both in the order of the listing.
   */
  lemma TreeShape(all: seq<Comment>, p: Uuid)
    ensures TreeOf(all, None).roots == Filter(all, IsRoot())
    ensures p in TreeOf(all, None).children <==> p in Ids(all)
    ensures p in Ids(all) ==> TreeOf(all, None).children[p] == Filter(all, ChildOf(p))
  {
    var start := Start(Ids(all));
    assert TreeOf(all, None) == AttachAll(start, all);
    AttachAllRoots(start, all);
    if p in Ids(all) {
      AttachAllChildren(start, all, p);
    }
  }

  /**
   * Where a comment ends up: a comment without a parent among the roots, a
   * comment with a listed parent among that parent's children, and a
   * comment whose parent is not listed nowhere.
   */
  lemma Placement(all: seq<Comment>, c: Comment)
    requires c in all
    ensures c.parentId.None? ==> c in TreeOf(all, None).roots
    ensures c.parentId.Some? && c.parentId.value in Ids(all) ==> c in TreeOf(all, None).children[c.parentId.value]
    ensures c.parentId.Some? && c.parentId.value !in Ids(all) ==>
      c !in TreeOf(all, None).roots && forall p :: p in TreeOf(all, None).children ==> c !in TreeOf(all, None).children[p]
  {
    TreeShape(all, c.id);
    FilterMembers(all, IsRoot(), c);
    if c.parentId.Some? {
      if c.parentId.value in Ids(all) {
        TreeShape(all, c.parentId.value);
        FilterMembers(all, ChildOf(c.parentId.value), c);
      } else {
        forall p | p in TreeOf(all, None).children ensures c !in TreeOf(all, None).children[p] {
          TreeShape(all, p);
          FilterMembers(all, ChildOf(p), c);
        }
      }
    }
  }

  /** With a user: the thread members' roots and children come first, then the others'. */
  lemma ScopedShape(all: seq<Comment>, u: set<Uuid>, p: Uuid)
    ensures TreeOf(all, Some(u)).roots ==
      Filter(Filter(all, InThreads(u)), IsRoot()) + Filter(Filter(all, OutsideThreads(u)), IsRoot())
    ensures p in TreeOf(all, Some(u)).children <==> p in Ids(all)
    ensures p in Ids(all) ==>
      TreeOf(all, Some(u)).children[p] ==
      Filter(Filter(all, InThreads(u)), ChildOf(p)) + Filter(Filter(all, OutsideThreads(u)), ChildOf(p))
  {
    var start := Start(Ids(all));
    var s := Filter(all, InThreads(u)) + Filter(all, OutsideThreads(u));
    AttachAllRoots(start, s);
    FilterAppend(Filter(all, InThreads(u)), Filter(all, OutsideThreads(u)), IsRoot());
    if p in Ids(all) {
      AttachAllChildren(start, s, p);
      FilterAppend(Filter(all, InThreads(u)), Filter(all, OutsideThreads(u)), ChildOf(p));
    }
  }

  /** Adding the selected part of one more element to both sides keeps a split of the selected elements. */
  lemma SplitStep<T>(a: seq<T>, b: seq<T>, whole: seq<T>, ea: seq<T>, eb: seq<T>, ew: seq<T>)
    requires multiset(a) + multiset(b) == multiset(whole)
    requires multiset(ea) + multiset(eb) == multiset(ew)
    ensures multiset(a + ea) + multiset(b + eb) == multiset(whole + ew)
  {
  }

  /** An element goes to exactly one side of the split, and is selected there when it is selected at all. */
  lemma SplitOne<T>(x: T, inA: bool, inB: bool, q: T -> bool)
    requires inB == !inA
    ensures Filter(if inA then [x] else [], q) + Filter(if inB then [x] else [], q) == if q(x) then [x] else []
  {
    assert [x][..0] == [];
    assert Filter([], q) == [];
    assert Filter([x], q) == Filter([x][..0], q) + (if q(x) then [x] else []);
  }

  /** Splitting a list by a test and its negation and then selecting from both parts selects each element once. */
  lemma {:induction false} SplitSelects<T>(s: seq<T>, p: T -> bool, notP: T -> bool, q: T -> bool)
    requires forall x :: notP(x) == !p(x)
    ensures multiset(Filter(Filter(s, p), q)) + multiset(Filter(Filter(s, notP), q)) == multiset(Filter(s, q))
    decreases |s|
  {
    if |s| > 0 {
      var s', x := s[..|s| - 1], s[|s| - 1];
      SplitSelects(s', p, notP, q);
      var a, b := Filter(s', p), Filter(s', notP);
      var ea, eb := if p(x) then [x] else [], if notP(x) then [x] else [];
      assert Filter(s, p) == a + ea && Filter(s, notP) == b + eb;
      FilterAppend(a, ea, q);
      FilterAppend(b, eb, q);
      SplitOne(x, p(x), notP(x), q);
      SplitStep(Filter(a, q), Filter(b, q), Filter(s', q), Filter(ea, q), Filter(eb, q), if q(x) then [x] else []);
    }
  }

  /** Splitting the listing into thread members and others and filtering each keeps every selected comment once. */
  lemma SplitKeepsSelection(all: seq<Comment>, u: set<Uuid>, q: Comment -> bool)
    ensures multiset(Filter(Filter(all, InThreads(u)), q)) + multiset(Filter(Filter(all, OutsideThreads(u)), q)) ==
      multiset(Filter(all, q))
  {
    SplitSelects(all, InThreads(u), OutsideThreads(u), q);
  }

  /**
   * The user's tree has the same attachments as the tree without a user:
   * the same roots and, for every comment, the same children, each exactly
   * as often; only their order differs.
   */
  lemma ScopedSameAttachments(all: seq<Comment>, u: set<Uuid>, p: Uuid)
    ensures multiset(TreeOf(all, Some(u)).roots) == multiset(TreeOf(all, None).roots)
    ensures p in TreeOf(all, Some(u)).children <==> p in TreeOf(all, None).children
    ensures p in Ids(all) ==>
      multiset(TreeOf(all, Some(u)).children[p]) == multiset(TreeOf(all, None).children[p])
  {
    ScopedShape(all, u, p);
    TreeShape(all, p);
    SplitKeepsSelection(all, u, IsRoot());
    if p in Ids(all) {
      SplitKeepsSelection(all, u, ChildOf(p));
    }
  }
}
