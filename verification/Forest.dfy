/**
 Copying a forest of files between two endpoints running this code.
 */
module Forest {
  import opened Wire
  import opened Paths
  import opened FileWalk
  import opened Serving

  // ---- what is copied -------------------------------------------------------------------

  ghost predicate GoodTree(node: Node)
    decreases node
  {
    node.Dir? ==>
      && (forall i | 0 <= i < |node.children| :: PlainName(node.children[i].name) && GoodTree(node.children[i]))
      && (forall i, j | 0 <= i < j < |node.children| :: node.children[i].name != node.children[j].name)
  }

  // The roots: real names without backslash or drive, no two alike, none inside another.
  ghost predicate GoodForest(roots: seq<Entry>) {
    && (forall i | 0 <= i < |roots| ::
          roots[i].at != [] && roots[i].at[|roots[i].at| - 1] == roots[i].node.name &&
          PlainName(roots[i].node.name) && !HasDrive(roots[i].node.name) && GoodTree(roots[i].node))
    && (forall i, j | 0 <= i < |roots| && 0 <= j < |roots| && i != j ::
          roots[i].node.name != roots[j].node.name && !(roots[i].at <= roots[j].at))
  }

  // A listed node, with the root it was found under.
  datatype Item = Item(root: Path, entry: Entry)

  ghost predicate IsUnder(x: Item) { x.root != [] && x.root <= x.entry.at }

  function ItemsOf(r: Entry): (xs: seq<Item>)
    ensures |xs| == |Preorder(r.at, r.node)|
    ensures forall i | 0 <= i < |xs| :: xs[i] == Item(r.at, Preorder(r.at, r.node)[i])
  {
    seq(|Preorder(r.at, r.node)|, i requires 0 <= i < |Preorder(r.at, r.node)| => Item(r.at, Preorder(r.at, r.node)[i]))
  }

  function Items(roots: seq<Entry>): seq<Item> {
    if roots == [] then [] else ItemsOf(roots[0]) + Items(roots[1..])
  }

  // The components of the destination, below the batch root.
  function Rel(x: Item): seq<QString>
    requires IsUnder(x)
  {
    [x.root[|x.root| - 1]] + x.entry.at[|x.root|..]
  }

  function InfoOfItem(x: Item): Info
    requires IsUnder(x)
  {
    InfoOf(x.root, x.entry)
  }

  function ServedOf(x: Item): Served {
    if x.entry.node.Dir? then Served(true, []) else Served(false, x.entry.node.data)
  }

  // ---- names survive ------------------------------------------------------------------------

  ghost predicate PlainBelow(at: Path, p: Path) {
    at <= p && forall k | |at| <= k < |p| :: PlainName(p[k])
  }

  lemma {:induction false} TreeNames(at: Path, node: Node)
    requires GoodTree(node)
    ensures forall i | 0 <= i < |Preorder(at, node)| :: PlainBelow(at, Preorder(at, node)[i].at)
    decreases node, 1
  {
    if node.Dir? {
      ForestNames(at, node.children);
      var rest := PreorderAll(at, node.children);
      assert forall i | 0 < i < |Preorder(at, node)| :: Preorder(at, node)[i] == rest[i - 1];
    }
  }

  lemma {:induction false} ForestNames(at: Path, nodes: seq<Node>)
    requires forall i | 0 <= i < |nodes| :: PlainName(nodes[i].name) && GoodTree(nodes[i])
    ensures forall i | 0 <= i < |PreorderAll(at, nodes)| :: PlainBelow(at, PreorderAll(at, nodes)[i].at)
    decreases nodes, 0
  {
    if nodes != [] {
      var child := at + [nodes[0].name];
      TreeNames(child, nodes[0]);
      ForestNames(at, nodes[1..]);
      forall p: Path | PlainBelow(child, p)
        ensures PlainBelow(at, p)
      {
        assert p[|at|] == child[|at|];
      }
    }
  }

  /** The display name of a listed node is its components joined by backslashes, and the
      receiver reads it back as the same components joined by slashes. */
  lemma NameSurvives(x: Item)
    requires IsUnder(x) && PlainBelow(x.root, x.entry.at)
    requires PlainName(x.root[|x.root| - 1]) && !HasDrive(x.root[|x.root| - 1])
    ensures PlainNames(Rel(x))
    ensures SafeRelativePath(DisplayName(x.root, x.entry.at)) == Join(Rel(x), SLASH)
  {
    var rel, name, below := Rel(x), x.root[|x.root| - 1], x.entry.at[|x.root|..];
    forall i | 0 <= i < |rel|
      ensures PlainName(rel[i])
    {
      assert i > 0 ==> rel[i] == x.entry.at[|x.root| + i - 1];
    }
    if below == [] {
      assert x.entry.at == x.root && rel == [name];
    } else {
      assert rel[1..] == below;
      assert Join(rel, SLASH) == name + [SLASH] + Join(below, SLASH);
      assert name + [SLASH] + Join(below, SLASH) == Join(rel, SLASH);
    }
    JoinReplace(rel, SLASH, BACKSLASH);
    SafeOfPlain(rel);
  }

  // ---- no two items meet ------------------------------------------------------------------------

  ghost predicate Apart(es: seq<Entry>) {
    forall i, j | 0 <= i < j < |es| :: es[i].at != es[j].at
  }

  lemma {:induction false} TreeApart(at: Path, node: Node)
    requires GoodTree(node)
    ensures Apart(Preorder(at, node))
    decreases node, 1
  {
    if node.Dir? {
      ForestApart(at, node.children);
      BelowStrictly(at, node.children);
      var rest := PreorderAll(at, node.children);
      assert forall i | 0 < i < |Preorder(at, node)| :: Preorder(at, node)[i] == rest[i - 1];
    }
  }

  // Everything a directory lists carries the name of one of its children.
  lemma {:induction false} BelowStrictly(at: Path, nodes: seq<Node>)
    ensures forall i | 0 <= i < |PreorderAll(at, nodes)| ::
      |PreorderAll(at, nodes)[i].at| > |at| &&
      exists k | 0 <= k < |nodes| :: nodes[k].name == PreorderAll(at, nodes)[i].at[|at|]
    decreases nodes
  {
    if nodes != [] {
      BelowStrictly(at, nodes[1..]);
      var first, rest := Preorder(at + [nodes[0].name], nodes[0]), PreorderAll(at, nodes[1..]);
      forall i | 0 <= i < |first| + |rest|
        ensures var e: Entry := (first + rest)[i];
          |e.at| > |at| && exists k | 0 <= k < |nodes| :: nodes[k].name == e.at[|at|]
      {
        if i < |first| {
          assert (at + [nodes[0].name])[|at|] == first[i].at[|at|];
        } else {
          var k :| 0 <= k < |nodes| - 1 && nodes[1..][k].name == rest[i - |first|].at[|at|];
          assert nodes[k + 1].name == (first + rest)[i].at[|at|];
        }
      }
    }
  }

  lemma {:induction false} ForestApart(at: Path, nodes: seq<Node>)
    requires forall i | 0 <= i < |nodes| :: GoodTree(nodes[i])
    requires forall i, j | 0 <= i < j < |nodes| :: nodes[i].name != nodes[j].name
    ensures Apart(PreorderAll(at, nodes))
    decreases nodes, 0
  {
    if nodes != [] {
      var first, rest := Preorder(at + [nodes[0].name], nodes[0]), PreorderAll(at, nodes[1..]);
      TreeApart(at + [nodes[0].name], nodes[0]);
      ForestApart(at, nodes[1..]);
      BelowStrictly(at, nodes[1..]);
      forall i, j | 0 <= i < |first| && 0 <= j < |rest|
        ensures first[i].at != rest[j].at
      {
        assert (at + [nodes[0].name])[|at|] == first[i].at[|at|];
        var k :| 0 <= k < |nodes| - 1 && nodes[1..][k].name == rest[j].at[|at|];
        assert nodes[1..][k] == nodes[k + 1];
      }
    }
  }

  // What every item of a good forest satisfies.
  ghost predicate GoodItem(x: Item) {
    IsUnder(x) && PlainBelow(x.root, x.entry.at) &&
    PlainName(x.root[|x.root| - 1]) && !HasDrive(x.root[|x.root| - 1])
  }

  ghost predicate ItemsApart(xs: seq<Item>) {
    && (forall i | 0 <= i < |xs| :: GoodItem(xs[i]))
    && (forall i, j | 0 <= i < j < |xs| :: xs[i].entry.at != xs[j].entry.at && Rel(xs[i]) != Rel(xs[j]))
  }

  lemma RelEqual(x: Item, y: Item)
    requires IsUnder(x) && IsUnder(y) && x.root == y.root
    ensures Rel(x) == Rel(y) ==> x.entry.at == y.entry.at
  {
    assert x.entry.at == x.root + Rel(x)[1..] && y.entry.at == y.root + Rel(y)[1..];
  }

  lemma RootItems(r: Entry)
    requires GoodForest([r])
    ensures ItemsApart(ItemsOf(r))
  {
    assert [r][0] == r;
    TreeNames(r.at, r.node);
    TreeApart(r.at, r.node);
    var xs := ItemsOf(r);
    forall i, j | 0 <= i < j < |xs|
      ensures xs[i].entry.at != xs[j].entry.at && Rel(xs[i]) != Rel(xs[j])
    {
      RelEqual(xs[i], xs[j]);
    }
  }

  ghost predicate ListedUnder(roots: seq<Entry>, x: Item) {
    exists k | 0 <= k < |roots| :: x in ItemsOf(roots[k])
  }

  lemma ListedUnderRest(roots: seq<Entry>, x: Item)
    requires roots != [] && ListedUnder(roots[1..], x)
    ensures ListedUnder(roots, x)
  {
    var k :| 0 <= k < |roots| - 1 && x in ItemsOf(roots[1..][k]);
    assert x in ItemsOf(roots[k + 1]);
  }

  // Every item was listed under one of the roots.
  lemma {:induction false} ItemRoots(roots: seq<Entry>)
    ensures forall x | x in Items(roots) :: ListedUnder(roots, x)
  {
    hide ItemsOf, ListedUnder;
    if roots != [] {
      ItemRoots(roots[1..]);
      forall x | x in Items(roots)
        ensures ListedUnder(roots, x)
      {
        if x in ItemsOf(roots[0]) {
          ListedFirst(roots, x);
        } else {
          ListedUnderRest(roots, x);
        }
      }
    }
  }

  lemma ListedFirst(roots: seq<Entry>, x: Item)
    requires roots != [] && x in ItemsOf(roots[0])
    ensures ListedUnder(roots, x)
  {
  }

  lemma {:induction false} RootsAreListed(roots: seq<Entry>, k: nat, x: Item)
    requires k < |roots| && x in ItemsOf(roots[k])
    ensures x in Items(roots)
  {
    hide ItemsOf;
    if k > 0 {
      assert roots[k] == roots[1..][k - 1];
      RootsAreListed(roots[1..], k - 1, x);
    }
  }

  lemma PrefixesOfOne(a: Path, b: Path, p: Path)
    ensures a <= p && b <= p ==> a <= b || b <= a
  {
    if a <= p && b <= p {
      assert a == p[..|a|] && b == p[..|b|];
    }
  }

  lemma RootsKeepApart(r: Entry, q: Entry, x: Item, y: Item)
    requires GoodForest([r, q]) && GoodItem(x) && GoodItem(y) && x.root == r.at && y.root == q.at
    ensures x.entry.at != y.entry.at && Rel(x) != Rel(y)
  {
    assert [r, q][0] == r && [r, q][1] == q;
    assert Rel(x)[0] == r.node.name && Rel(y)[0] == q.node.name;
    PrefixesOfOne(r.at, q.at, x.entry.at);
  }

  lemma GoodParts(roots: seq<Entry>, k: nat)
    requires GoodForest(roots) && 0 < k < |roots|
    ensures GoodForest([roots[0], roots[k]])
  {
    hide GoodTree, PlainName, HasDrive;
  }

  lemma GoodRest(roots: seq<Entry>)
    requires GoodForest(roots) && roots != []
    ensures GoodForest([roots[0]]) && GoodForest(roots[1..])
  {
    hide GoodTree, PlainName, HasDrive;
  }

  lemma ApartAppend(xs: seq<Item>, ys: seq<Item>)
    requires ItemsApart(xs) && ItemsApart(ys)
    requires forall i, j | 0 <= i < |xs| && 0 <= j < |ys| ::
      xs[i].entry.at != ys[j].entry.at && Rel(xs[i]) != Rel(ys[j])
    ensures ItemsApart(xs + ys)
  {
    hide PlainBelow, PlainName, HasDrive, Rel;
  }

  /** In a good forest all listed nodes have good names, distinct paths and distinct destinations. */
  lemma {:induction false} ForestItemsApart(roots: seq<Entry>)
    requires GoodForest(roots)
    ensures ItemsApart(Items(roots))
  {
    hide Rel, GoodForest, PlainBelow, PlainName, HasDrive;
    if roots != [] {
      var r := roots[0];
      GoodRest(roots);
      RootItems(r);
      ForestItemsApart(roots[1..]);
      ItemRoots(roots[1..]);
      var first, rest := ItemsOf(r), Items(roots[1..]);
      forall i, j | 0 <= i < |first| && 0 <= j < |rest|
        ensures first[i].entry.at != rest[j].entry.at && Rel(first[i]) != Rel(rest[j])
      {
        assert rest[j] in rest && ListedUnder(roots[1..], rest[j]);
        var k :| 0 <= k < |roots| - 1 && rest[j] in ItemsOf(roots[1..][k]);
        assert roots[1..][k] == roots[k + 1];
        GoodParts(roots, k + 1);
        RootsKeepApart(r, roots[k + 1], first[i], rest[j]);
      }
      ApartAppend(first, rest);
    }
  }
}
