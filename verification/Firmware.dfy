/**
 The upgrade path search of internal/deploy/firmware.go: breadth first over firmware
 versions, newest images first. Comparing versions and an image's upgrade_from list come
 from a library outside this repository; they are parameters, required only to be a
 total preorder and any relation.
 */
module Firmware {
  import opened Common

  /** `fits`: the image is compatible with the device's platform and model. */
  datatype Image = Image(id: int, version: string, fits: bool)

  datatype Rules = Rules(compare: (string, string) -> int, upgradesFrom: (Image, string) -> bool)
  {
    predicate Newer(a: string, b: string) { compare(a, b) > 0 }

    /** img may be installed on a device that runs `from`. */
    predicate Step(from: string, img: Image) { Newer(img.version, from) && upgradesFrom(img, from) }
  }

  ghost predicate TotalPreorder(g: Rules) {
    && (forall a, b :: g.compare(a, b) > 0 <==> g.compare(b, a) < 0)
    && (forall a, b, c {:trigger g.compare(a, b), g.compare(b, c), g.compare(a, c)} ::
          g.compare(a, b) >= 0 && g.compare(b, c) >= 0 ==> g.compare(a, c) >= 0)
  }

  /** Among these images different version strings never compare equal. */
  ghost predicate TieFree(g: Rules, images: seq<Image>) {
    forall a, b :: a in images && b in images && g.compare(a.version, b.version) == 0 ==> a.version == b.version
  }

  lemma StrictTrans(g: Rules, a: string, b: string, c: string)
    requires TotalPreorder(g)
    ensures g.Newer(a, b) && g.compare(b, c) >= 0 ==> g.Newer(a, c)
    ensures g.compare(a, b) >= 0 && g.Newer(b, c) ==> g.Newer(a, c)
  {
    if g.compare(a, c) <= 0 {
      assert g.compare(c, a) >= 0;
    }
  }

  // ----- upgrade chains

  function End(from: string, p: seq<Image>): string {
    if p == [] then from else p[|p| - 1].version
  }

  ghost predicate Chain(g: Rules, from: string, p: seq<Image>)
    decreases |p|
  {
    p != [] ==> Chain(g, from, p[..|p| - 1]) && g.Step(End(from, p[..|p| - 1]), p[|p| - 1])
  }

  /** The version the device runs when the image at position i is installed. */
  function Before(from: string, p: seq<Image>, i: nat): string
    requires i <= |p|
  {
    if i == 0 then from else p[i - 1].version
  }

  /** The image at position i is newer than the version before it and can be installed on it. */
  ghost predicate Fits(g: Rules, from: string, p: seq<Image>, i: nat)
    requires i < |p|
  {
    g.compare(p[i].version, Before(from, p, i)) > 0 && g.upgradesFrom(p[i], Before(from, p, i))
  }

  /** Compatible images of the repository that lead from one version to another, each fitting the one before. */
  ghost predicate Upgrade(g: Rules, list: seq<Image>, from: string, target: string, p: seq<Image>) {
    && p != [] && p[|p| - 1].version == target
    && (forall i :: 0 <= i < |p| ==> p[i] in list && p[i].fits)
    && (forall i :: 0 <= i < |p| ==> Fits(g, from, p, i))
  }

  lemma {:induction false} ChainIff(g: Rules, from: string, p: seq<Image>)
    ensures Chain(g, from, p) <==> forall i :: 0 <= i < |p| ==> Fits(g, from, p, i)
    decreases |p|
  {
    if p != [] {
      var last := |p| - 1;
      var q := p[..last];
      ChainIff(g, from, q);
      forall i: nat | i < last ensures Fits(g, from, q, i) <==> Fits(g, from, p, i) {
        assert q[i] == p[i] && Before(from, q, i) == Before(from, p, i);
      }
      assert End(from, q) == Before(from, p, last);
      assert Fits(g, from, p, last) <==> g.Step(End(from, q), p[last]);
    }
  }

  function Versions(p: seq<Image>): seq<string> {
    seq(|p|, i requires 0 <= i < |p| => p[i].version)
  }

  /** a is b or has the newer version where they first differ. */
  ghost predicate LexNewest(g: Rules, a: seq<string>, b: seq<string>) {
    && |a| == |b|
    && (a == b || exists k :: 0 <= k < |a| && a[..k] == b[..k] && g.Newer(a[k], b[k]))
  }

  lemma LexTrans(g: Rules, a: seq<string>, b: seq<string>, c: seq<string>)
    requires TotalPreorder(g) && LexNewest(g, a, b) && LexNewest(g, b, c)
    ensures LexNewest(g, a, c)
  {
    if a != b && b != c {
      var i :| 0 <= i < |a| && a[..i] == b[..i] && g.Newer(a[i], b[i]);
      var j :| 0 <= j < |b| && b[..j] == c[..j] && g.Newer(b[j], c[j]);
      var k := if i < j then i else j;
      assert a[..k] == a[..i][..k] && b[..k] == b[..i][..k] == b[..j][..k] && c[..k] == c[..j][..k];
      StrictTrans(g, a[k], b[k], c[k]);
      if i < j {
        assert b[..j][i] == c[..j][i];
      } else if j < i {
        assert a[..i][j] == b[..i][j];
      }
      assert a[..k] == c[..k] && g.Newer(a[k], c[k]);
    }
  }

  lemma LexAppend(g: Rules, a: seq<string>, b: seq<string>, x: string, y: string)
    requires LexNewest(g, a, b)
    requires a != b || x == y || g.Newer(x, y)
    ensures LexNewest(g, a + [x], b + [y])
  {
    if a != b {
      var k :| 0 <= k < |a| && a[..k] == b[..k] && g.Newer(a[k], b[k]);
      assert (a + [x])[..k] == a[..k] && (b + [y])[..k] == b[..k];
      assert (a + [x])[..k] == (b + [y])[..k] && g.Newer((a + [x])[k], (b + [y])[k]);
    } else if x != y {
      assert (a + [x])[..|a|] == (b + [y])[..|a|] && g.Newer((a + [x])[|a|], (b + [y])[|a|]);
    }
  }

  // ----- the version range filter

  /** Along a chain every version is newer than the start and not newer than the end. */
  lemma {:induction false} ChainRange(g: Rules, from: string, p: seq<Image>, i: nat)
    requires TotalPreorder(g) && Chain(g, from, p) && i < |p|
    ensures g.Newer(p[i].version, from) && g.compare(p[i].version, End(from, p)) <= 0
    decreases |p|
  {
    var q, last := p[..|p| - 1], p[|p| - 1];
    if i < |q| {
      ChainRange(g, from, q, i);
      assert q[i] == p[i];
      StrictTrans(g, last.version, End(from, q), p[i].version);
    } else if q != [] {
      ChainRange(g, from, q, |q| - 1);
      StrictTrans(g, last.version, End(from, q), from);
      assert g.compare(last.version, last.version) == 0;
    } else {
      assert g.compare(last.version, last.version) == 0;
    }
  }

  predicate InRange(g: Rules, from: string, target: string, img: Image) {
    img.fits && g.Newer(img.version, from) && g.compare(img.version, target) <= 0
  }

  /** The images worth searching; no chain to the target uses any other. */
  method Prefilter(g: Rules, list: seq<Image>, from: string, target: string) returns (images: seq<Image>)
    ensures forall img :: img in images <==>
      img in list && img.fits && g.compare(img.version, from) > 0 && g.compare(img.version, target) <= 0
  {
    images := [];
    for i := 0 to |list|
      invariant forall img :: img in images <==> img in list[..i] && InRange(g, from, target, img)
    {
      assert list[..i + 1] == list[..i] + [list[i]];
      if InRange(g, from, target, list[i]) {
        images := images + [list[i]];
      }
    }
    assert list[..|list|] == list;
  }

  // ----- the exchange sort

  ghost predicate NewestFirst(g: Rules, s: seq<Image>) {
    forall i, j :: 0 <= i < j < |s| ==> g.compare(s[i].version, s[j].version) >= 0
  }

  /** Positions before i are settled and s[i] is no older than what follows it up to j. */
  ghost predicate Sorting(g: Rules, s: seq<Image>, i: nat, j: nat) {
    && (forall x, y :: 0 <= x < i && x < y < |s| ==> g.compare(s[x].version, s[y].version) >= 0)
    && (forall y :: i < y < j && y < |s| ==> g.compare(s[i].version, s[y].version) >= 0)
  }

  function Swapped(s: seq<Image>, i: nat, j: nat): seq<Image>
    requires i < |s| && j < |s|
  {
    s[i := s[j]][j := s[i]]
  }

  lemma SwapKeepsImages(s: seq<Image>, i: nat, j: nat)
    requires i < j < |s|
    ensures multiset(Swapped(s, i, j)) == multiset(s)
  {
    assert s == s[..i] + [s[i]] + s[i + 1..j] + [s[j]] + s[j + 1..];
    assert Swapped(s, i, j) == s[..i] + [s[j]] + s[i + 1..j] + [s[i]] + s[j + 1..];
  }

  lemma SwapSorts(g: Rules, s: seq<Image>, i: nat, j: nat)
    requires TotalPreorder(g) && i < j < |s| && Sorting(g, s, i, j) && g.Newer(s[j].version, s[i].version)
    ensures Sorting(g, Swapped(s, i, j), i, j + 1)
  {
    var s' := Swapped(s, i, j);
    forall y | i < y < j + 1 ensures g.compare(s'[i].version, s'[y].version) >= 0 {
      if y < j {
        assert g.compare(s[i].version, s[y].version) >= 0;
      }
    }
  }

  /** One comparison of the sort: the newer of the two images moves to position i. */
  method Exchange(g: Rules, next: array<Image>, i: nat, j: nat)
    requires TotalPreorder(g) && i < j < next.Length && Sorting(g, next[..], i, j)
    modifies next
    ensures Sorting(g, next[..], i, j + 1) && multiset(next[..]) == multiset(old(next[..]))
  {
    if g.compare(next[j].version, next[i].version) > 0 {
      SwapSorts(g, next[..], i, j);
      SwapKeepsImages(next[..], i, j);
      next[i], next[j] := next[j], next[i];
      assert next[..] == Swapped(old(next[..]), i, j);
    }
  }

  lemma NextPosition(g: Rules, s: seq<Image>, i: nat)
    requires i < |s| && Sorting(g, s, i, |s|)
    ensures Sorting(g, s, i + 1, i + 2)
  {}

  lemma AllSorted(g: Rules, s: seq<Image>)
    requires Sorting(g, s, |s|, |s| + 1)
    ensures NewestFirst(g, s)
  {}

  method SortNewestFirst(g: Rules, next: array<Image>)
    requires TotalPreorder(g)
    modifies next
    ensures NewestFirst(g, next[..])
    ensures multiset(next[..]) == multiset(old(next[..]))
  {
    ghost var images := multiset(next[..]);
    for i := 0 to next.Length
      invariant Sorting(g, next[..], i, i + 1) && multiset(next[..]) == images
    {
      for j := i + 1 to next.Length
        invariant Sorting(g, next[..], i, j) && multiset(next[..]) == images
      {
        Exchange(g, next, i, j);
      }
      NextPosition(g, next[..], i);
    }
    AllSorted(g, next[..]);
  }

  // ----- the search

  /** A queue entry: how a version was first reached. */
  datatype Node = Root(start: string) | Via(img: Image, prev: Node)
  {
    function Version(): string { if Root? then start else img.version }

    function Trail(): seq<Image> { if Root? then [] else prev.Trail() + [img] }
  }

  function Steps(n: Node): seq<string> { Versions(n.Trail()) }

  function Depth(n: Node): nat { |n.Trail()| }

  ghost predicate IsNode(g: Rules, from: string, images: seq<Image>, n: Node) {
    match n
    case Root(v) => v == from
    case Via(img, prev) => IsNode(g, from, images, prev) && img in images && g.Step(prev.Version(), img)
  }

  lemma {:induction false} NodeChain(g: Rules, from: string, images: seq<Image>, n: Node)
    requires IsNode(g, from, images, n)
    ensures Chain(g, from, n.Trail()) && End(from, n.Trail()) == n.Version()
    ensures forall i :: 0 <= i < Depth(n) ==> n.Trail()[i] in images
  {
    if n.Via? {
      NodeChain(g, from, images, n.prev);
      assert n.Trail()[..Depth(n) - 1] == n.prev.Trail();
    }
  }

  /** z reaches img's version at least as well as stepping to img from y does. */
  ghost predicate AsGood(g: Rules, images: seq<Image>, z: Node, y: Node, img: Image) {
    && z.Version() == img.version
    && Depth(z) <= Depth(y) + 1
    && (TieFree(g, images) && Depth(z) == Depth(y) + 1 ==> LexNewest(g, Steps(z), Steps(y) + [img.version]))
  }

  ghost predicate Reaches(all: seq<Node>, v: string) {
    exists i :: 0 <= i < |all| && all[i].Version() == v
  }

  ghost predicate Covers(g: Rules, images: seq<Image>, all: seq<Node>, y: Node, img: Image) {
    exists i :: 0 <= i < |all| && AsGood(g, images, all[i], y, img)
  }

  ghost predicate Nodes(g: Rules, from: string, images: seq<Image>, all: seq<Node>, done: nat) {
    && done <= |all| && |all| > 0 && all[0] == Root(from)
    && (forall i :: 0 <= i < |all| ==> IsNode(g, from, images, all[i]))
    && (forall i :: 0 <= i < |all| && all[i].Via? ==> exists j :: 0 <= j < done && all[j] == all[i].prev)
  }

  ghost predicate Layered(all: seq<Node>, done: nat) {
    && (forall i, j :: 0 <= i < j < |all| ==> Depth(all[i]) <= Depth(all[j]))
    && (forall i :: 0 <= i < |all| && done < |all| ==> Depth(all[i]) <= Depth(all[done]) + 1)
  }

  ghost predicate LexOrdered(g: Rules, all: seq<Node>) {
    forall i, j :: 0 <= i < j < |all| && Depth(all[i]) == Depth(all[j]) ==> LexNewest(g, Steps(all[i]), Steps(all[j]))
  }

  ghost predicate Expanded(g: Rules, images: seq<Image>, all: seq<Node>, done: nat)
    requires done <= |all|
  {
    forall i, img :: 0 <= i < done && img in images && g.Step(all[i].Version(), img) ==> Covers(g, images, all, all[i], img)
  }

  /**
   What holds before each round. `all` is everything ever queued in order; its first
   `done` entries have been taken from the queue.
   */
  ghost predicate Searching(g: Rules, from: string, images: seq<Image>, all: seq<Node>, done: nat) {
    && Nodes(g, from, images, all, done)
    && Layered(all, done)
    && (TieFree(g, images) ==> LexOrdered(g, all))
    && Expanded(g, images, all, done)
  }

  function Children(n: Node, next: seq<Image>): seq<Node> {
    seq(|next|, i requires 0 <= i < |next| => Via(next[i], n))
  }

  /** The images enqueued for n: the steps from it to versions not seen yet, newest first. */
  ghost predicate Fresh(g: Rules, images: seq<Image>, all: seq<Node>, n: Node, next: seq<Image>) {
    && NewestFirst(g, next)
    && forall img :: img in next <==> img in images && !Reaches(all, img.version) && g.Step(n.Version(), img)
  }

  lemma ChildPath(n: Node, img: Image)
    ensures Depth(Via(img, n)) == Depth(n) + 1 && Steps(Via(img, n)) == Steps(n) + [img.version]
  {}

  lemma ExpandNodes(g: Rules, from: string, images: seq<Image>, all: seq<Node>, done: nat, next: seq<Image>)
    requires Nodes(g, from, images, all, done) && done < |all| && Fresh(g, images, all, all[done], next)
    ensures Nodes(g, from, images, all + Children(all[done], next), done + 1)
  {
    var all' := all + Children(all[done], next);
    forall i | 0 <= i < |all'|
      ensures IsNode(g, from, images, all'[i])
      ensures all'[i].Via? ==> exists j :: 0 <= j < done + 1 && all'[j] == all'[i].prev
    {
      if i >= |all| {
        assert next[i - |all|] in next;
        assert all'[done] == all'[i].prev;
      } else if all[i].Via? {
        var j :| 0 <= j < done && all[j] == all[i].prev;
        assert all'[j] == all'[i].prev;
      }
    }
  }

  lemma ExpandLayered(all: seq<Node>, done: nat, next: seq<Image>)
    requires Layered(all, done) && done < |all|
    ensures Layered(all + Children(all[done], next), done + 1)
  {
    var all' := all + Children(all[done], next);
    forall i | |all| <= i < |all'| ensures Depth(all'[i]) == Depth(all[done]) + 1 {
      ChildPath(all[done], next[i - |all|]);
    }
  }

  /** An earlier entry one layer below n came from a parent no worse than n. */
  lemma ParentAhead(g: Rules, from: string, images: seq<Image>, all: seq<Node>, done: nat, i: nat) returns (j: nat)
    requires Nodes(g, from, images, all, done) && Layered(all, done) && LexOrdered(g, all) && done < |all| && i < |all|
    requires Depth(all[i]) == Depth(all[done]) + 1
    ensures j < done && all[i].Via? && all[j] == all[i].prev && Depth(all[j]) == Depth(all[done])
    ensures LexNewest(g, Steps(all[j]), Steps(all[done]))
  {
    j :| 0 <= j < done && all[j] == all[i].prev;
    ChildPath(all[j], all[i].img);
  }

  lemma ExpandCovers(g: Rules, from: string, images: seq<Image>, all: seq<Node>, done: nat, next: seq<Image>, img: Image)
    requires Searching(g, from, images, all, done) && done < |all| && Fresh(g, images, all, all[done], next)
    requires img in images && g.Step(all[done].Version(), img)
    ensures Covers(g, images, all + Children(all[done], next), all[done], img)
  {
    var n := all[done];
    var all' := all + Children(n, next);
    if Reaches(all, img.version) {
      var i :| 0 <= i < |all| && all[i].Version() == img.version;
      assert all'[i] == all[i];
      if TieFree(g, images) && Depth(all[i]) == Depth(n) + 1 {
        var j := ParentAhead(g, from, images, all, done, i);
        ChildPath(all[j], all[i].img);
        LexAppend(g, Steps(all[j]), Steps(n), img.version, img.version);
      }
      assert AsGood(g, images, all'[i], n, img);
    } else {
      assert img in next;
      var k :| 0 <= k < |next| && next[k] == img;
      ChildPath(n, img);
      assert all'[|all| + k] == Via(img, n);
      assert AsGood(g, images, all'[|all| + k], n, img);
    }
  }

  lemma ExpandExpanded(g: Rules, from: string, images: seq<Image>, all: seq<Node>, done: nat, next: seq<Image>)
    requires Searching(g, from, images, all, done) && done < |all| && Fresh(g, images, all, all[done], next)
    ensures Expanded(g, images, all + Children(all[done], next), done + 1)
  {
    var all' := all + Children(all[done], next);
    forall i, img | 0 <= i < done + 1 && img in images && g.Step(all'[i].Version(), img)
      ensures Covers(g, images, all', all'[i], img)
    {
      if i == done {
        ExpandCovers(g, from, images, all, done, next, img);
      } else {
        assert Covers(g, images, all, all[i], img);
        var z :| 0 <= z < |all| && AsGood(g, images, all[z], all[i], img);
        assert AsGood(g, images, all'[z], all'[i], img);
      }
    }
  }

  /** A new child comes after every earlier entry of its layer, and so does its path. */
  lemma ChildLast(g: Rules, from: string, images: seq<Image>, all: seq<Node>, done: nat, next: seq<Image>, i: nat, img: Image)
    requires Searching(g, from, images, all, done) && TieFree(g, images) && done < |all| && Fresh(g, images, all, all[done], next)
    requires i < |all| && img in next && Depth(all[i]) == Depth(all[done]) + 1
    ensures LexNewest(g, Steps(all[i]), Steps(all[done]) + [img.version])
  {
    var n := all[done];
    var j := ParentAhead(g, from, images, all, done, i);
    ChildPath(all[j], all[i].img);
    if Steps(all[j]) == Steps(n) {
      SameEnd(g, from, images, all[j], n);
      assert false;
    }
    LexAppend(g, Steps(all[j]), Steps(n), all[i].img.version, img.version);
  }

  lemma SameEnd(g: Rules, from: string, images: seq<Image>, a: Node, b: Node)
    requires IsNode(g, from, images, a) && IsNode(g, from, images, b) && Steps(a) == Steps(b)
    ensures a.Version() == b.Version()
  {
    NodeChain(g, from, images, a);
    NodeChain(g, from, images, b);
    assert Depth(a) == |Steps(a)| == |Steps(b)| == Depth(b);
    if Depth(a) > 0 {
      assert Steps(a)[Depth(a) - 1] == Steps(b)[Depth(a) - 1];
    }
  }

  /** Children are queued newest first. */
  lemma SiblingsOrdered(g: Rules, images: seq<Image>, n: Node, next: seq<Image>, i: nat, j: nat)
    requires TieFree(g, images) && i < j < |next| && NewestFirst(g, next) && next[i] in images && next[j] in images
    ensures LexNewest(g, Steps(n) + [next[i].version], Steps(n) + [next[j].version])
  {
    assert g.compare(next[i].version, next[j].version) >= 0;
    LexAppend(g, Steps(n), Steps(n), next[i].version, next[j].version);
  }

  ghost predicate Ahead(g: Rules, a: Node, b: Node) {
    Depth(a) == Depth(b) ==> LexNewest(g, Steps(a), Steps(b))
  }

  lemma OrderedConcat(g: Rules, all: seq<Node>, more: seq<Node>)
    requires LexOrdered(g, all)
    requires forall i, j :: 0 <= i < |all| && 0 <= j < |more| ==> Ahead(g, all[i], more[j])
    requires forall i, j :: 0 <= i < j < |more| ==> Ahead(g, more[i], more[j])
    ensures LexOrdered(g, all + more)
  {
    var both := all + more;
    forall i, j | 0 <= i < j < |both| ensures Ahead(g, both[i], both[j]) {
      if j < |all| {
        assert both[i] == all[i] && both[j] == all[j];
      } else if i < |all| {
        assert Ahead(g, all[i], more[j - |all|]);
      } else {
        assert Ahead(g, more[i - |all|], more[j - |all|]);
      }
    }
  }

  /** A new child against an entry queued earlier. */
  lemma ChildAfterOld(g: Rules, from: string, images: seq<Image>, all: seq<Node>, done: nat, next: seq<Image>, i: nat, j: nat)
    requires Searching(g, from, images, all, done) && TieFree(g, images)
    requires done < |all| && Fresh(g, images, all, all[done], next) && i < |all| && j < |next|
    ensures Ahead(g, all[i], Via(next[j], all[done]))
  {
    ChildPath(all[done], next[j]);
    if Depth(all[i]) == Depth(all[done]) + 1 {
      assert next[j] in next;
      ChildLast(g, from, images, all, done, next, i, next[j]);
    }
  }

  lemma ChildAfterChild(g: Rules, images: seq<Image>, n: Node, next: seq<Image>, i: nat, j: nat)
    requires TieFree(g, images) && i < j < |next| && NewestFirst(g, next) && next[i] in images && next[j] in images
    ensures Ahead(g, Via(next[i], n), Via(next[j], n))
  {
    ChildPath(n, next[i]);
    ChildPath(n, next[j]);
    SiblingsOrdered(g, images, n, next, i, j);
  }

  lemma ExpandOrdered(g: Rules, from: string, images: seq<Image>, all: seq<Node>, done: nat, next: seq<Image>)
    requires Searching(g, from, images, all, done) && TieFree(g, images)
    requires done < |all| && Fresh(g, images, all, all[done], next)
    ensures LexOrdered(g, all + Children(all[done], next))
  {
    var more := Children(all[done], next);
    forall i: nat, j: nat | i < |all| && j < |more| ensures Ahead(g, all[i], more[j]) {
      ChildAfterOld(g, from, images, all, done, next, i, j);
    }
    forall i: nat, j: nat | i < j < |more| ensures Ahead(g, more[i], more[j]) {
      assert next[i] in next && next[j] in next;
      ChildAfterChild(g, images, all[done], next, i, j);
    }
    OrderedConcat(g, all, more);
  }

  lemma Expand(g: Rules, from: string, images: seq<Image>, all: seq<Node>, done: nat, next: seq<Image>)
    requires Searching(g, from, images, all, done) && TotalPreorder(g)
    requires done < |all| && Fresh(g, images, all, all[done], next)
    ensures Searching(g, from, images, all + Children(all[done], next), done + 1)
  {
    ExpandNodes(g, from, images, all, done, next);
    ExpandLayered(all, done, next);
    ExpandExpanded(g, from, images, all, done, next);
    if TieFree(g, images) {
      ExpandOrdered(g, from, images, all, done, next);
    }
  }

  /** z reaches the end of p in at most as many steps, and by newer images when in as many. */
  ghost predicate NoWorse(g: Rules, images: seq<Image>, z: Node, from: string, p: seq<Image>) {
    && z.Version() == End(from, p)
    && Depth(z) <= |p|
    && (TieFree(g, images) && Depth(z) == |p| ==> LexNewest(g, Steps(z), Versions(p)))
  }

  lemma StepNoWorse(g: Rules, images: seq<Image>, y: Node, z: Node, img: Image, from: string, p: seq<Image>)
    requires TotalPreorder(g) && p != [] && img == p[|p| - 1]
    requires NoWorse(g, images, y, from, p[..|p| - 1]) && AsGood(g, images, z, y, img)
    ensures NoWorse(g, images, z, from, p)
  {
    var q := p[..|p| - 1];
    if TieFree(g, images) && Depth(z) == |p| {
      assert Versions(p) == Versions(q) + [img.version];
      LexAppend(g, Steps(y), Versions(q), img.version, img.version);
      LexTrans(g, Steps(z), Steps(y) + [img.version], Versions(p));
    }
  }

  /** Every chain no longer than the current layer ends at a version reached no worse. */
  lemma {:induction false} ChainsReached(g: Rules, from: string, images: seq<Image>, all: seq<Node>, done: nat, p: seq<Image>)
    returns (z: nat)
    requires Searching(g, from, images, all, done) && TotalPreorder(g)
    requires Chain(g, from, p) && (forall i :: 0 <= i < |p| ==> p[i] in images)
    requires done < |all| ==> |p| <= Depth(all[done])
    ensures z < |all| && NoWorse(g, images, all[z], from, p)
    decreases |p|
  {
    if p == [] {
      z := 0;
    } else {
      var q, img := p[..|p| - 1], p[|p| - 1];
      var y := ChainsReached(g, from, images, all, done, q);
      z := NextReached(g, images, all, done, y, img);
      StepNoWorse(g, images, all[y], all[z], img, from, p);
    }
  }

  /** An entry above the current layer has been expanded. */
  lemma NextReached(g: Rules, images: seq<Image>, all: seq<Node>, done: nat, y: nat, img: Image) returns (z: nat)
    requires Layered(all, done) && done <= |all| && Expanded(g, images, all, done)
    requires y < |all| && (done < |all| ==> Depth(all[y]) < Depth(all[done]))
    requires img in images && g.Step(all[y].Version(), img)
    ensures z < |all| && AsGood(g, images, all[z], all[y], img)
  {
    assert y < done;
    assert Covers(g, images, all, all[y], img);
    z :| z < |all| && AsGood(g, images, all[z], all[y], img);
  }

  // ----- the candidates of one round

  predicate Candidate(g: Rules, seen: set<string>, version: string, img: Image) {
    img.version !in seen && g.Step(version, img)
  }

  function Filter(g: Rules, images: seq<Image>, seen: set<string>, version: string): seq<Image> {
    if images == [] then []
    else
      var rest, last := Filter(g, images[..|images| - 1], seen, version), images[|images| - 1];
      if Candidate(g, seen, version, last) then rest + [last] else rest
  }

  lemma {:induction false} FilterMembers(g: Rules, images: seq<Image>, seen: set<string>, version: string, img: Image)
    ensures img in Filter(g, images, seen, version) <==> img in images && Candidate(g, seen, version, img)
  {
    if images != [] {
      var init := images[..|images| - 1];
      FilterMembers(g, init, seen, version, img);
      assert images == init + [images[|images| - 1]];
    }
  }

  /** Places in the repository list whose version is not seen yet. */
  function Unseen(images: seq<Image>, seen: set<string>): nat {
    if images == [] then 0
    else Unseen(images[..|images| - 1], seen) + (if images[|images| - 1].version in seen then 0 else 1)
  }

  /** Each image is enqueued at most once: what a round enqueues it also marks as seen. */
  lemma {:induction false} FilterUnseen(g: Rules, images: seq<Image>, seen: set<string>, version: string, seen': set<string>)
    requires seen <= seen'
    requires forall img :: img in Filter(g, images, seen, version) ==> img.version in seen'
    ensures |Filter(g, images, seen, version)| + Unseen(images, seen') <= Unseen(images, seen)
  {
    if images != [] {
      var init, last := images[..|images| - 1], images[|images| - 1];
      var rest := Filter(g, init, seen, version);
      assert forall img :: img in rest ==> img in Filter(g, images, seen, version);
      FilterUnseen(g, init, seen, version, seen');
      if Candidate(g, seen, version, last) {
        assert last in Filter(g, images, seen, version);
      }
    }
  }

  method Candidates(g: Rules, images: seq<Image>, seen: set<string>, version: string) returns (next: array<Image>)
    requires TotalPreorder(g)
    ensures fresh(next) && NewestFirst(g, next[..])
    ensures multiset(next[..]) == multiset(Filter(g, images, seen, version))
  {
    var found: seq<Image> := [];
    for i := 0 to |images|
      invariant found == Filter(g, images[..i], seen, version)
    {
      assert images[..i + 1][..i] == images[..i];
      if Candidate(g, seen, version, images[i]) {
        found := found + [images[i]];
      }
    }
    assert images[..|images|] == images;
    next := new Image[|found|](k requires 0 <= k < |found| => found[k]);
    assert next[..] == found;
    SortNewestFirst(g, next);
  }

  /** The images from the device's version to n, rebuilt through prev. */
  method Rebuild(n: Node) returns (path: seq<Image>)
    ensures path == n.Trail()
  {
    path := [];
    var x := n;
    while x.Via?
      invariant x.Trail() + path == n.Trail()
      decreases x
    {
      path := [x.img] + path;
      x := x.prev;
    }
  }

  // ----- the result

  datatype PathError = UnknownFirmware | NotAnUpgrade | NoPath

  ghost predicate Shortest(g: Rules, list: seq<Image>, from: string, target: string, path: seq<Image>) {
    forall p :: Upgrade(g, list, from, target, p) ==> |path| <= |p|
  }

  /** Among the shortest upgrades, the one with the newest versions first. */
  ghost predicate Newest(g: Rules, list: seq<Image>, from: string, target: string, path: seq<Image>) {
    forall p :: Upgrade(g, list, from, target, p) && |p| == |path| ==> LexNewest(g, Versions(path), Versions(p))
  }

  ghost predicate OutOfQueue(all: seq<Node>, done: nat, target: string) {
    forall i :: 0 <= i < done && i < |all| ==> all[i].Version() != target
  }

  /** Every upgrade in the repository is made of images that pass the version filter. */
  lemma FilterLosesNothing(g: Rules, list: seq<Image>, images: seq<Image>, from: string, target: string, p: seq<Image>)
    requires TotalPreorder(g) && Upgrade(g, list, from, target, p)
    requires forall img :: img in images <==> img in list && InRange(g, from, target, img)
    ensures forall i :: 0 <= i < |p| ==> p[i] in images
  {
    ChainIff(g, from, p);
    forall i | 0 <= i < |p| ensures p[i] in images {
      ChainRange(g, from, p, i);
      var img := p[i];
      assert img in list && InRange(g, from, target, img);
    }
  }

  /** No chain of filtered images reaches the target in fewer steps or by newer images. */
  lemma NoBetter(g: Rules, images: seq<Image>, from: string, target: string, all: seq<Node>, done: nat, p: seq<Image>)
    requires TotalPreorder(g) && Searching(g, from, images, all, done) && OutOfQueue(all, done, target)
    requires done < |all| && all[done].Version() == target
    requires Chain(g, from, p) && End(from, p) == target && (forall i :: 0 <= i < |p| ==> p[i] in images)
    requires |p| <= Depth(all[done])
    ensures |p| == Depth(all[done]) && (TieFree(g, images) ==> LexNewest(g, Steps(all[done]), Versions(p)))
  {
    var z := ChainsReached(g, from, images, all, done, p);
    assert z >= done;
    if TieFree(g, images) && z > done {
      LexTrans(g, Steps(all[done]), Steps(all[z]), Versions(p));
    }
  }

  lemma FoundUpgrade(g: Rules, list: seq<Image>, images: seq<Image>, from: string, target: string, n: Node)
    requires forall img :: img in images <==> img in list && InRange(g, from, target, img)
    requires IsNode(g, from, images, n) && n.Version() == target && target != from
    ensures Upgrade(g, list, from, target, n.Trail())
  {
    NodeChain(g, from, images, n);
    ChainIff(g, from, n.Trail());
    forall i | 0 <= i < Depth(n) ensures n.Trail()[i] in list && n.Trail()[i].fits {
      var img := n.Trail()[i];
      assert img in images;
    }
  }

  lemma Found(g: Rules, list: seq<Image>, images: seq<Image>, from: string, target: string, all: seq<Node>, done: nat)
    requires TotalPreorder(g) && forall img :: img in images <==> img in list && InRange(g, from, target, img)
    requires Searching(g, from, images, all, done) && OutOfQueue(all, done, target)
    requires done < |all| && all[done].Version() == target && target != from
    ensures Upgrade(g, list, from, target, all[done].Trail())
    ensures Shortest(g, list, from, target, all[done].Trail())
    ensures TieFree(g, images) ==> Newest(g, list, from, target, all[done].Trail())
  {
    var n := all[done];
    assert IsNode(g, from, images, n);
    FoundUpgrade(g, list, images, from, target, n);
    forall p | Upgrade(g, list, from, target, p) && |p| <= Depth(n)
      ensures |p| == Depth(n) && (TieFree(g, images) ==> LexNewest(g, Steps(n), Versions(p)))
    {
      FilterLosesNothing(g, list, images, from, target, p);
      ChainIff(g, from, p);
      NoBetter(g, images, from, target, all, done, p);
    }
  }

  lemma Exhausted(g: Rules, list: seq<Image>, images: seq<Image>, from: string, target: string, all: seq<Node>, p: seq<Image>)
    requires TotalPreorder(g) && forall img :: img in images <==> img in list && InRange(g, from, target, img)
    requires Searching(g, from, images, all, |all|) && OutOfQueue(all, |all|, target)
    ensures !Upgrade(g, list, from, target, p)
  {
    if Upgrade(g, list, from, target, p) {
      FilterLosesNothing(g, list, images, from, target, p);
      ChainIff(g, from, p);
      var z := ChainsReached(g, from, images, all, |all|, p);
      assert false;
    }
  }

  /** A target that is not newer than the device's version cannot be reached. */
  lemma OnlyUpgrades(g: Rules, list: seq<Image>, from: string, target: string, p: seq<Image>)
    requires TotalPreorder(g) && Upgrade(g, list, from, target, p)
    ensures g.Newer(target, from)
  {
    ChainIff(g, from, p);
    ChainRange(g, from, p, |p| - 1);
  }

  /** After a round the entries are those before plus the children, and seen is up to date. */
  lemma Enqueued(g: Rules, from: string, images: seq<Image>, all: seq<Node>, done: nat, seen: set<string>, next: seq<Image>)
    requires TotalPreorder(g) && Searching(g, from, images, all, done) && done < |all|
    requires forall v :: v in seen <==> Reaches(all, v)
    requires NewestFirst(g, next) && multiset(next) == multiset(Filter(g, images, seen, all[done].Version()))
    ensures Searching(g, from, images, all + Children(all[done], next), done + 1)
    ensures forall img :: img in next <==> img in Filter(g, images, seen, all[done].Version())
  {
    forall img
      ensures img in next <==> img in Filter(g, images, seen, all[done].Version())
      ensures img in next <==> img in images && !Reaches(all, img.version) && g.Step(all[done].Version(), img)
    {
      FilterMembers(g, images, seen, all[done].Version(), img);
      assert img in next <==> img in multiset(next);
      assert img.version in seen <==> Reaches(all, img.version);
    }
    Expand(g, from, images, all, done, next);
  }

  lemma SeenGrows(all: seq<Node>, n: Node, next: seq<Image>, v: string)
    ensures Reaches(all + Children(n, next), v) <==> Reaches(all, v) || exists i :: 0 <= i < |next| && next[i].version == v
  {
    var all' := all + Children(n, next);
    if Reaches(all', v) {
      var i :| 0 <= i < |all'| && all'[i].Version() == v;
      assert i >= |all| ==> next[i - |all|].version == v;
    }
    if Reaches(all, v) {
      var i :| 0 <= i < |all| && all[i].Version() == v;
      assert all'[i].Version() == v;
    }
    if i :| 0 <= i < |next| && next[i].version == v {
      assert all'[|all| + i].Version() == v;
    }
  }

  /** Marks the next versions as seen and queues their images behind n. */
  method Enqueue(n: Node, next: array<Image>, queue: seq<Node>, seen: set<string>)
    returns (queue': seq<Node>, seen': set<string>)
    ensures queue' == queue + Children(n, next[..])
    ensures forall v :: v in seen' <==> v in seen || exists k :: 0 <= k < |next[..]| && next[..][k].version == v
  {
    queue', seen' := queue, seen;
    for i := 0 to next.Length
      invariant queue' == queue + Children(n, next[..i])
      invariant forall v :: v in seen' <==> v in seen || exists k :: 0 <= k < i && next[..][k].version == v
    {
      assert Children(n, next[..i + 1]) == Children(n, next[..i]) + [Via(next[i], n)];
      assert next[..][i] == next[i];
      seen' := seen' + {next[i].version};
      queue' := queue' + [Via(next[i], n)];
    }
    assert next[..next.Length] == next[..];
  }

  /** One round keeps what the search relies on and uses up an entry or an unseen image. */
  lemma Round(g: Rules, from: string, images: seq<Image>, all: seq<Node>, done: nat,
              seen: set<string>, next: seq<Image>, seen': set<string>)
    requires TotalPreorder(g) && Searching(g, from, images, all, done) && done < |all|
    requires forall v :: v in seen <==> Reaches(all, v)
    requires NewestFirst(g, next) && multiset(next) == multiset(Filter(g, images, seen, all[done].Version()))
    requires forall v :: v in seen' <==> v in seen || exists k :: 0 <= k < |next| && next[k].version == v
    ensures Searching(g, from, images, all + Children(all[done], next), done + 1)
    ensures forall v :: v in seen' <==> Reaches(all + Children(all[done], next), v)
    ensures Unseen(images, seen') + |next| <= Unseen(images, seen)
  {
    var found := Filter(g, images, seen, all[done].Version());
    Enqueued(g, from, images, all, done, seen, next);
    forall v ensures v in seen' <==> Reaches(all + Children(all[done], next), v) {
      SeenGrows(all, all[done], next, v);
    }
    forall img | img in found ensures img.version in seen' {
      assert img in next;
      var k :| 0 <= k < |next| && next[k] == img;
    }
    FilterUnseen(g, images, seen, all[done].Version(), seen');
    assert |next| == |multiset(next)| == |found|;
  }

  lemma NoUpgrade(g: Rules, list: seq<Image>, from: string, target: string)
    requires TotalPreorder(g) && !g.Newer(target, from)
    ensures forall p :: !Upgrade(g, list, from, target, p)
  {
    forall p ensures !Upgrade(g, list, from, target, p) {
      if Upgrade(g, list, from, target, p) {
        OnlyUpgrades(g, list, from, target, p);
      }
    }
  }

  /** The loop invariant of the search. */
  ghost predicate Looping(g: Rules, from: string, images: seq<Image>, target: string,
                          queue: seq<Node>, seen: set<string>, all: seq<Node>, done: nat) {
    && done <= |all| && queue == all[done..]
    && (forall v :: v in seen <==> Reaches(all, v))
    && Searching(g, from, images, all, done) && OutOfQueue(all, done, target)
  }

  lemma StartLooping(g: Rules, from: string, images: seq<Image>, target: string)
    ensures Looping(g, from, images, target, [Root(from)], {from}, [Root(from)], 0)
  {
    assert [Root(from)][0].Version() == from;
  }

  lemma KeepLooping(g: Rules, from: string, images: seq<Image>, target: string,
                    queue: seq<Node>, seen: set<string>, all: seq<Node>, done: nat,
                    next: seq<Image>, queue': seq<Node>, seen': set<string>)
    requires TotalPreorder(g) && Looping(g, from, images, target, queue, seen, all, done)
    requires queue != [] && queue[0].Version() != target
    requires NewestFirst(g, next) && multiset(next) == multiset(Filter(g, images, seen, queue[0].Version()))
    requires queue' == queue[1..] + Children(queue[0], next)
    requires forall v :: v in seen' <==> v in seen || exists k :: 0 <= k < |next| && next[k].version == v
    ensures Looping(g, from, images, target, queue', seen', all + Children(queue[0], next), done + 1)
    ensures Unseen(images, seen') + |queue'| < Unseen(images, seen) + |queue|
  {
    QueueMoves(queue, all, done, Children(queue[0], next), target);
    Round(g, from, images, all, done, seen, next, seen');
  }

  lemma QueueMoves(queue: seq<Node>, all: seq<Node>, done: nat, more: seq<Node>, target: string)
    requires done <= |all| && queue == all[done..] && queue != [] && queue[0].Version() != target
    requires OutOfQueue(all, done, target)
    ensures done < |all| && all[done] == queue[0]
    ensures queue[1..] + more == (all + more)[done + 1..] && OutOfQueue(all + more, done + 1, target)
  {}

  lemma {:induction false} UnseenAtMostAll(images: seq<Image>, seen: set<string>)
    ensures Unseen(images, seen) <= |images|
  {
    if images != [] {
      UnseenAtMostAll(images[..|images| - 1], seen);
    }
  }

  /**
   Breadth-first search from the device's version; None when the queue runs out. A
   version may be queued twice, yet there are no more rounds than images and one.
   */
  method Search(g: Rules, from: string, target: string, list: seq<Image>, images: seq<Image>)
    returns (path: Option<seq<Image>>, ghost rounds: nat)
    requires TotalPreorder(g) && target != from
    requires forall img :: img in images <==> img in list && InRange(g, from, target, img)
    ensures path.None? ==> forall p :: !Upgrade(g, list, from, target, p)
    ensures path.Some? ==> Upgrade(g, list, from, target, path.value) && Shortest(g, list, from, target, path.value)
    ensures path.Some? && TieFree(g, images) ==> Newest(g, list, from, target, path.value)
    ensures rounds <= |images| + 1
  {
    var queue := [Root(from)];
    var seen := {from};
    ghost var all := queue;
    ghost var done := 0;
    rounds := 0;
    StartLooping(g, from, images, target);
    UnseenAtMostAll(images, seen);
    while queue != []
      invariant Looping(g, from, images, target, queue, seen, all, done)
      invariant rounds == done && rounds + Unseen(images, seen) + |queue| <= |images| + 1
      decreases Unseen(images, seen) + |queue|
    {
      var n := queue[0];
      rounds := done + 1;
      if n.Version() == target {
        Found(g, list, images, from, target, all, done);
        var found := Rebuild(n);
        return Some(found), rounds;
      }
      var next := Candidates(g, images, seen, n.Version());
      ghost var queue0, seen0 := queue, seen;
      queue, seen := Enqueue(n, next, queue[1..], seen);
      KeepLooping(g, from, images, target, queue0, seen0, all, done, next[..], queue, seen);
      all, done := all + Children(n, next[..]), done + 1;
    }
    forall p ensures !Upgrade(g, list, from, target, p) {
      Exhausted(g, list, images, from, target, all, p);
    }
    return None, rounds;
  }

  /**
   The images that take a device from its firmware to the target: an upgrade whenever the
   repository has one, with the fewest steps and, when versions never tie, the newest
   images among those.
   */
  method Path(g: Rules, firmware: string, target: string, list: seq<Image>) returns (r: Result<seq<Image>, PathError>)
    requires TotalPreorder(g)
    ensures r == Err(UnknownFirmware) <==> firmware == ""
    ensures r == Err(NotAnUpgrade) <==> firmware != "" && g.compare(target, firmware) <= 0
    ensures r.Err? ==> firmware == "" || forall p :: !Upgrade(g, list, firmware, target, p)
    ensures r.Ok? ==> Upgrade(g, list, firmware, target, r.value) && Shortest(g, list, firmware, target, r.value)
    ensures r.Ok? && TieFree(g, list) ==> Newest(g, list, firmware, target, r.value)
  {
    if firmware == "" {
      return Err(UnknownFirmware);
    }
    if g.compare(target, firmware) <= 0 {
      NoUpgrade(g, list, firmware, target);
      return Err(NotAnUpgrade);
    }
    assert g.compare(firmware, firmware) == 0;
    var images := Prefilter(g, list, firmware, target);
    var path, _ := Search(g, firmware, target, list, images);
    if path.None? {
      return Err(NoPath);
    }
    return Ok(path.value);
  }
}
