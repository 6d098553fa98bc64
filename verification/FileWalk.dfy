/**
 Copied files on the sending side: the recursive walk that lists them, and the
 descriptors that carry the list to the peer.
 */
module FileWalk {
  import opened Wire
  import opened Paths

  // An absolute path, as its components.
  type Path = seq<QString>

  // File sizes are signed 64-bit numbers.
  type Contents = d: bytes | |d| < 0x8000_0000_0000_0000 witness []

  datatype Node =
    | File(name: QString, data: Contents)
    | Dir(name: QString, statSize: u64, children: seq<Node>)

  datatype Info = Info(displayName: QString, localPath: Path, total: u64, isDir: bool)

  datatype Entry = Entry(at: Path, node: Node)

  // ---- what the walk lists ---------------------------------------------------------

  function Preorder(at: Path, node: Node): (es: seq<Entry>)
    ensures es != [] && es[0] == Entry(at, node)
    ensures forall i | 0 <= i < |es| :: at <= es[i].at
    decreases node, 1
  {
    [Entry(at, node)] + if node.Dir? then PreorderAll(at, node.children) else []
  }

  function PreorderAll(at: Path, nodes: seq<Node>): (es: seq<Entry>)
    ensures forall i | 0 <= i < |es| :: at <= es[i].at
    decreases nodes, 0
  {
    if nodes == [] then []
    else Preorder(at + [nodes[0].name], nodes[0]) + PreorderAll(at, nodes[1..])
  }

  // The file system root has no component, and no name.
  function FileName(path: Path): QString { if path == [] then [] else path[|path| - 1] }

  function DisplayName(root: Path, at: Path): QString
    requires root <= at
  {
    var name := FileName(root);
    Replace(if at == root then name else name + [SLASH] + Join(at[|root|..], SLASH), SLASH, BACKSLASH)
  }

  function InfoOf(root: Path, e: Entry): Info
    requires root <= e.at
  {
    Info(DisplayName(root, e.at), e.at, if e.node.Dir? then e.node.statSize else |e.node.data|, e.node.Dir?)
  }

  function Infos(root: Path, es: seq<Entry>): (infos: seq<Info>)
    requires forall i | 0 <= i < |es| :: root <= es[i].at
    ensures |infos| == |es| && forall i | 0 <= i < |es| :: infos[i] == InfoOf(root, es[i])
  {
    seq(|es|, i requires 0 <= i < |es| => InfoOf(root, es[i]))
  }

  function Push(files: seq<Info>, f: Info): seq<Info> {
    if exists i | 0 <= i < |files| :: files[i].localPath == f.localPath then files else files + [f]
  }

  function PushAll(files: seq<Info>, fs: seq<Info>): seq<Info>
    decreases |fs|
  {
    if fs == [] then files else PushAll(Push(files, fs[0]), fs[1..])
  }

  lemma {:induction false} PushAllAppend(files: seq<Info>, a: seq<Info>, b: seq<Info>)
    ensures PushAll(files, a + b) == PushAll(PushAll(files, a), b)
    decreases |a|
  {
    hide Push;
    if a == [] {
      assert a + b == b;
    } else {
      assert (a + b)[1..] == a[1..] + b;
      PushAllAppend(Push(files, a[0]), a[1..], b);
    }
  }

  // A copied URL: only local files and directories are accepted.
  datatype Url = Remote | Unsupported | Local(at: Path, node: Node)

  function OfUrl(u: Url): seq<Info>
  {
    if u.Local? then Infos(u.at, Preorder(u.at, u.node)) else []
  }

  function Offered(urls: seq<Url>): seq<Info>
  {
    if urls == [] then [] else OfUrl(urls[0]) + Offered(urls[1..])
  }

  lemma {:induction false} OfferedAppend(urls: seq<Url>, u: Url)
    ensures Offered(urls + [u]) == Offered(urls) + OfUrl(u)
  {
    hide OfUrl;
    var all := urls + [u];
    if urls == [] {
      assert all == [u] && all[1..] == [];
      assert Offered(all) == OfUrl(u) + [];
    } else {
      assert all[1..] == urls[1..] + [u];
      OfferedAppend(urls[1..], u);
    }
  }

  lemma PushAllOne(files: seq<Info>, f: Info)
    ensures PushAll(files, [f]) == Push(files, f)
  {
    assert [f][1..] == [];
    assert PushAll(Push(files, f), []) == Push(files, f);
  }

  lemma {:induction false} PreorderAllAppend(at: Path, nodes: seq<Node>, n: Node)
    ensures PreorderAll(at, nodes + [n]) == PreorderAll(at, nodes) + Preorder(at + [n.name], n)
    decreases |nodes|
  {
    hide Preorder;
    var all := nodes + [n];
    if nodes == [] {
      assert all == [n] && all[1..] == [];
      assert PreorderAll(at, all) == Preorder(at + [n.name], n) + [];
    } else {
      assert all[1..] == nodes[1..] + [n];
      PreorderAllAppend(at, nodes[1..], n);
    }
  }

  lemma WalkOneMore(files: seq<Info>, root: Path, at: Path, nodes: seq<Node>, i: nat)
    requires root <= at && i < |nodes|
    ensures PushAll(PushAll(files, Infos(root, PreorderAll(at, nodes[..i]))),
                    Infos(root, Preorder(at + [nodes[i].name], nodes[i]))) ==
      PushAll(files, Infos(root, PreorderAll(at, nodes[..i + 1])))
  {
    hide Push, InfoOf, PushAll;
    var done, child := PreorderAll(at, nodes[..i]), Preorder(at + [nodes[i].name], nodes[i]);
    assert nodes[..i + 1] == nodes[..i] + [nodes[i]];
    PreorderAllAppend(at, nodes[..i], nodes[i]);
    PushAllAppend(files, Infos(root, done), Infos(root, child));
    assert Infos(root, done + child) == Infos(root, done) + Infos(root, child);
  }

  // A node pushes itself, then, if it is a directory, what its children list.
  lemma PushNode(files: seq<Info>, root: Path, at: Path, node: Node)
    requires root <= at
    ensures PushAll(files, Infos(root, Preorder(at, node))) ==
      var pushed := Push(files, InfoOf(root, Entry(at, node)));
      if node.File? then pushed else PushAll(pushed, Infos(root, PreorderAll(at, node.children)))
  {
    hide Push, InfoOf;
    var self := InfoOf(root, Entry(at, node));
    PushAllOne(files, self);
    if node.File? {
      assert Infos(root, Preorder(at, node)) == [self];
    } else {
      var rest := PreorderAll(at, node.children);
      assert Infos(root, Preorder(at, node)) == [self] + Infos(root, rest);
      PushAllAppend(files, [self], Infos(root, rest));
    }
  }

  lemma PushNoChild(files: seq<Info>, root: Path, at: Path)
    requires root <= at
    ensures PushAll(files, Infos(root, PreorderAll(at, []))) == files
  {
  }

  class ViewItem {
    var clipboardInfoFiles: seq<Info>

    constructor ()
      ensures clipboardInfoFiles == []
    {
      clipboardInfoFiles := [];
    }

    // Adds an entry unless its path is listed already.
    method PushInfo(info: Info)
      modifies this
      ensures clipboardInfoFiles == Push(old(clipboardInfoFiles), info)
    {
      var contained := false;
      for i := 0 to |clipboardInfoFiles|
        invariant clipboardInfoFiles == old(clipboardInfoFiles)
        invariant contained <==> exists k | 0 <= k < i :: clipboardInfoFiles[k].localPath == info.localPath
      {
        if clipboardInfoFiles[i].localPath == info.localPath {
          contained := true;
        }
      }
      if !contained {
        clipboardInfoFiles := clipboardInfoFiles + [info];
      }
    }

    method AppendClipboardInfoFile(root: Path, at: Path, node: Node)
      requires root <= at
      modifies this
      ensures clipboardInfoFiles == PushAll(old(clipboardInfoFiles), Infos(root, Preorder(at, node)))
      decreases node
    {
      hide Push, InfoOf, PushAll, Preorder, PreorderAll, Infos;
      PushInfo(InfoOf(root, Entry(at, node)));
      PushNode(old(clipboardInfoFiles), root, at, node);
      if node.File? {
        return;
      }
      ghost var pushed := clipboardInfoFiles;
      assert PushAll(pushed, Infos(root, PreorderAll(at, node.children[..0]))) == pushed by {
        assert node.children[..0] == [];
        PushNoChild(pushed, root, at);
      }
      for i := 0 to |node.children|
        invariant clipboardInfoFiles == PushAll(pushed, Infos(root, PreorderAll(at, node.children[..i])))
      {
        var child := node.children[i];
        AppendClipboardInfoFile(root, at + [child.name], child);
        WalkOneMore(pushed, root, at, node.children, i);
      }
      assert node.children[..|node.children|] == node.children;
    }

    // A change of the clipboard: the list is cleared and filled from the URLs.
    method CaptureUrls(urls: seq<Url>)
        modifies this
      ensures clipboardInfoFiles == PushAll([], Offered(urls))
    {
      hide Push, InfoOf, Preorder, Infos;
      clipboardInfoFiles := [];
      for i := 0 to |urls|
        invariant clipboardInfoFiles == PushAll([], Offered(urls[..i]))
      {
        OfferedAppend(urls[..i], urls[i]);
        assert urls[..i + 1] == urls[..i] + [urls[i]];
        var u := urls[i];
        if u.Local? {
          PushAllAppend([], Offered(urls[..i]), Infos(u.at, Preorder(u.at, u.node)));
          AppendClipboardInfoFile(u.at, u.at, u.node);
        } else {
          assert Offered(urls[..i]) + [] == Offered(urls[..i]);
        }
      }
      assert urls[..|urls|] == urls;
    }
  }

  // ---- first occurrences and coverage ------------------------------------------------

  ghost predicate Distinct(fs: seq<Info>) {
    forall i, j | 0 <= i < j < |fs| :: fs[i].localPath != fs[j].localPath
  }

  ghost predicate Lists(fs: seq<Info>, p: Path) { exists i | 0 <= i < |fs| :: fs[i].localPath == p }

  // The entries whose path does not occur earlier, in order.
  ghost function Firsts(fs: seq<Info>): seq<Info>
    decreases |fs|
  {
    if fs == [] then []
    else
      var before, f := fs[..|fs| - 1], fs[|fs| - 1];
      Firsts(before) + if Lists(before, f.localPath) then [] else [f]
  }

  lemma {:induction false} FirstsList(fs: seq<Info>, p: Path)
    ensures Lists(Firsts(fs), p) <==> Lists(fs, p)
    decreases |fs|
  {
    if fs != [] {
      var before, f := fs[..|fs| - 1], fs[|fs| - 1];
      FirstsList(before, p);
      FirstsList(before, f.localPath);
      assert fs == before + [f];
      ListsAppend(before, f, p);
      ListsAppend(Firsts(before), f, p);
      assert Firsts(before) + [] == Firsts(before);
    }
  }

  lemma ListsAppend(fs: seq<Info>, f: Info, p: Path)
    ensures Lists(fs + [f], p) <==> Lists(fs, p) || f.localPath == p
  {
    if Lists(fs, p) {
      var i :| 0 <= i < |fs| && fs[i].localPath == p;
      assert (fs + [f])[i].localPath == p;
    } else if f.localPath == p {
      assert (fs + [f])[|fs|].localPath == p;
    }
  }

  /** The shared list ends up with the first occurrence of each path, in order: entries are
      distinct and no path is missed. */
  lemma {:induction false} WalkKeepsFirsts(fs: seq<Info>)
    ensures PushAll([], fs) == Firsts(fs) && Distinct(Firsts(fs))
    ensures forall p :: Lists(PushAll([], fs), p) <==> Lists(fs, p)
    decreases |fs|
  {
    hide PushAll, Lists;
    if fs == [] {
      assert PushAll([], []) == [] by { PushNone(); }
    } else {
      var before, f := fs[..|fs| - 1], fs[|fs| - 1];
      assert fs == before + [f];
      WalkKeepsFirsts(before);
      PushAllAppend([], before, [f]);
      PushAllOne(Firsts(before), f);
      FirstsList(before, f.localPath);
      PushIsLists(Firsts(before), f);
      assert Firsts(before) + [] == Firsts(before);
    }
    forall p
      ensures Lists(Firsts(fs), p) <==> Lists(fs, p)
    {
      FirstsList(fs, p);
    }
  }

  lemma PushNone()
    ensures PushAll([], []) == []
  {
  }

  lemma PushIsLists(fs: seq<Info>, f: Info)
    requires Distinct(fs)
    ensures Push(fs, f) == if Lists(fs, f.localPath) then fs else fs + [f]
    ensures Distinct(Push(fs, f))
  {
  }

  lemma {:induction false} FirstsOfDistinct(fs: seq<Info>)
    requires Distinct(fs)
    ensures Firsts(fs) == fs
    decreases |fs|
  {
    if fs != [] {
      FirstsOfDistinct(fs[..|fs| - 1]);
      assert fs == fs[..|fs| - 1] + [fs[|fs| - 1]];
    }
  }

  // Node `n` sits at path `p` in the tree `node` rooted at `at`.
  ghost predicate Within(at: Path, node: Node, p: Path, n: Node)
    decreases node
  {
    || (p == at && n == node)
    || (node.Dir? && exists i | 0 <= i < |node.children| ::
          Within(at + [node.children[i].name], node.children[i], p, n))
  }

  /** The listing of a tree holds exactly its nodes, each at its path. */
  lemma {:induction false} PreorderCovers(at: Path, node: Node, p: Path, n: Node)
    ensures Entry(p, n) in Preorder(at, node) <==> Within(at, node, p, n)
    decreases node, 1
  {
    if node.Dir? {
      PreorderAllCovers(at, node.children, p, n);
    }
  }

  lemma {:induction false} PreorderAllCovers(at: Path, nodes: seq<Node>, p: Path, n: Node)
    ensures Entry(p, n) in PreorderAll(at, nodes) <==>
      exists i | 0 <= i < |nodes| :: Within(at + [nodes[i].name], nodes[i], p, n)
    decreases nodes, 0
  {
    if nodes != [] {
      PreorderCovers(at + [nodes[0].name], nodes[0], p, n);
      PreorderAllCovers(at, nodes[1..], p, n);
      if i :| 0 <= i < |nodes| && Within(at + [nodes[i].name], nodes[i], p, n) {
        assert i > 0 ==> nodes[i] == nodes[1..][i - 1];
      }
      if i :| 0 <= i < |nodes| - 1 && Within(at + [nodes[1..][i].name], nodes[1..][i], p, n) {
        assert nodes[1..][i] == nodes[i + 1];
      }
    }
  }

  // ---- descriptors ---------------------------------------------------------------------

  const MAX_PATH := 260

  datatype Descriptor = Descriptor(sizeLow: u32, sizeHigh: u32, isDirectory: bool, fileName: QString)

  function Clip(name: QString): QString { name[..Min(|name|, MAX_PATH - 1)] }

  // The name array: the clipped name, then NULs to the end.
  function NameField(name: QString): (f: QString)
    ensures |f| == MAX_PATH
  {
    Clip(name) + seq(MAX_PATH - |Clip(name)|, _ => NUL)
  }

  function UntilZero(s: QString): (r: QString)
    ensures |r| <= |s| && r == s[..|r|] && NUL !in r && (|r| < |s| ==> s[|r|] == NUL)
  {
    if s == [] || s[0] == NUL then [] else [s[0]] + UntilZero(s[1..])
  }

  lemma {:induction false} UntilZeroIs(s: QString, n: nat)
    requires n <= |s| && NUL !in s[..n] && (n < |s| ==> s[n] == NUL)
    ensures UntilZero(s) == s[..n]
  {
    if n > 0 {
      assert s[0] == s[..n][0] && s[1..][..n - 1] == s[..n][1..];
      UntilZeroIs(s[1..], n - 1);
    }
  }

  lemma {:induction false} UntilZeroStops(s: QString, n: nat)
    requires n < |s| && s[n] == NUL
    ensures |UntilZero(s)| <= n
  {
    if s[0] != NUL {
      UntilZeroStops(s[1..], n - 1);
    }
  }

  function SizeOf(f: Info): u64 { if f.isDir then 0 else f.total }

  function FillDescriptor(f: Info): Descriptor {
    Descriptor(Low32(SizeOf(f)), High32(SizeOf(f)), f.isDir, NameField(f.displayName))
  }

  datatype Incoming = Incoming(displayName: QString, total: u64, isDir: bool)

  function ReadDescriptor(d: Descriptor): Incoming {
    Incoming(UntilZero(d.fileName), Join64(d.sizeLow, d.sizeHigh), d.isDirectory)
  }

  method CopyFileDescriptorName(field: array<u16>, name: QString)
    requires field.Length == MAX_PATH && forall k | 0 <= k < MAX_PATH :: field[k] == NUL
    modifies field
    ensures field[..] == NameField(name)
  {
    var clipped := name[..Min(|name|, MAX_PATH - 1)];
    for i := 0 to |clipped|
      invariant forall k | 0 <= k < i :: field[k] == clipped[k]
      invariant forall k | i <= k < MAX_PATH :: field[k] == NUL
    {
      field[i] := clipped[i];
    }
    field[|clipped|] := NUL;
  }

  method FillDescriptors(files: seq<Info>) returns (ds: seq<Descriptor>)
    ensures |ds| == |files| && forall i | 0 <= i < |files| :: ds[i] == FillDescriptor(files[i])
  {
    ds := [];
    for i := 0 to |files|
      invariant |ds| == i && forall k | 0 <= k < i :: ds[k] == FillDescriptor(files[k])
    {
      var f := files[i];
      var fileSize: u64 := if f.isDir then 0 else f.total;
      var field := new u16[MAX_PATH](_ => NUL);
      CopyFileDescriptorName(field, f.displayName);
      ds := ds + [Descriptor(fileSize % 0x1_0000_0000, fileSize / 0x1_0000_0000, f.isDir, field[..])];
    }
  }

  method ReadDescriptors(ds: seq<Descriptor>) returns (files: seq<Incoming>)
    ensures |files| == |ds| && forall i | 0 <= i < |ds| :: files[i] == ReadDescriptor(ds[i])
  {
    files := [];
    for i := 0 to |ds|
      invariant |files| == i && forall k | 0 <= k < i :: files[k] == ReadDescriptor(ds[k])
    {
      files := files + [Incoming(UntilZero(ds[i].fileName), Join64(ds[i].sizeLow, ds[i].sizeHigh), ds[i].isDirectory)];
    }
  }

  ghost predicate NameFits(name: QString) { |name| < MAX_PATH && NUL !in name }

  /** Size and kind always survive the descriptor; the name does exactly when it has at most
      259 units and no NUL. */
  lemma DescriptorRoundTrip(f: Info)
    ensures var r := ReadDescriptor(FillDescriptor(f));
      r.total == SizeOf(f) && r.isDir == f.isDir &&
      (r.displayName == f.displayName <==> NameFits(f.displayName))
  {
    var name, field := f.displayName, NameField(f.displayName);
    if NameFits(name) {
      assert field[..|name|] == name && field[|name|] == NUL;
      UntilZeroIs(field, |name|);
    } else if |name| >= MAX_PATH {
      UntilZeroStops(field, MAX_PATH - 1);
    }
  }

  // The first NUL of a string, or its end.
  ghost predicate EndsAt(s: QString, n: nat) { n <= |s| && NUL !in s[..n] && (n < |s| ==> s[n] == NUL) }

  /** What any name becomes on the other side: its first 259 units, or what comes before a NUL among
      them. */
  lemma NameComesBack(f: Info, n: nat)
    requires EndsAt(f.displayName, n)
    ensures ReadDescriptor(FillDescriptor(f)).displayName == f.displayName[..if n < 259 then n else 259]
  {
    var name, field, k := f.displayName, NameField(f.displayName), Min(n, 259);
    assert forall i | 0 <= i < k :: field[i] == name[i] && name[i] == name[..n][i];
    assert field[..k] == name[..k];
    UntilZeroIs(field, k);
  }

  /** Names listed from the file system root begin with a separator, or are empty, so a receiver
      running this code accepts none of them. */
  lemma RootNamesRefused(at: Path)
    ensures SafeRelativePath(DisplayName([], at)) == []
  {
    var name := DisplayName([], at);
    if at == [] {
      assert name == [];
    } else {
      assert name[0] == BACKSLASH;
      AcceptedExactly(name);
    }
  }
}
