/**
 * An abstract filesystem: a tree whose directories list named entries in
 * directory order. It stands in for what the command observes through
 * `file_exists`, `find` and `RecursiveDirectoryIterator`.
 */
module FileSystem {
  import opened Wrappers
  import Text
  import Php

  /**
   * A regular file (or a link to one: `isFile()` holds), any other leaf (a
   * device, a socket, a link to a directory, a dangling link), or a
   * directory with its entries and whether it can be listed.
   */
  datatype Node =
    | File
    | Special
    | Dir(entries: seq<Entry>, readable: bool)

  datatype Entry = Entry(name: string, node: Node)

  /** Names are non-empty, free of '/', and distinct within each directory. */
  predicate WellFormed(n: Node)
  {
    match n
    case Dir(es, _) => WellFormedEntries(es)
    case _ => true
  }

  predicate WellFormedEntries(es: seq<Entry>)
  {
    if es == [] then true
    else
      Text.Plain(es[0].name, '/')
      && (forall j :: 1 <= j < |es| ==> es[j].name != es[0].name)
      && WellFormed(es[0].node)
      && WellFormedEntries(es[1..])
  }

  /** The components of a path string; empty components do not count. */
  function Components(path: string): seq<string>
  {
    Text.Split(path, '/')
  }

  /** Index of the first entry called `name`. */
  function ChildIndex(es: seq<Entry>, name: string): (r: Option<nat>)
    ensures r.Some? ==> r.value < |es| && es[r.value].name == name
    ensures r.Some? ==> forall j :: 0 <= j < r.value ==> es[j].name != name
    ensures r.None? ==> forall j :: 0 <= j < |es| ==> es[j].name != name
  {
    if es == [] then None
    else if es[0].name == name then Some(0)
    else match ChildIndex(es[1..], name)
      case None => None
      case Some(i) => Some(i + 1)
  }

  /** The node reached from `n` by following the names in `path`. */
  function Lookup(n: Node, path: seq<string>): Option<Node>
    decreases path
  {
    if path == [] then Some(n)
    else match n
      case Dir(es, _) =>
        (match ChildIndex(es, path[0])
         case None => None
         case Some(i) => Lookup(es[i].node, path[1..]))
      case _ => None
  }

  /** The node a path string names in the tree rooted at "/". */
  function Resolve(fs: Node, path: string): Option<Node>
  {
    Lookup(fs, Components(path))
  }

  /** PHP's `file_exists`. */
  predicate FileExists(fs: Node, path: string)
  {
    path != "" && Resolve(fs, path).Some?
  }

  lemma {:induction false} LookupAppend(n: Node, a: seq<string>, b: seq<string>)
    ensures Lookup(n, a + b) == (match Lookup(n, a) case None => None case Some(m) => Lookup(m, b))
    decreases a
  {
    if a != [] {
      assert (a + b)[0] == a[0] && (a + b)[1..] == a[1..] + b;
      match n {
        case Dir(es, _) =>
          match ChildIndex(es, a[0]) {
            case None =>
            case Some(i) => LookupAppend(es[i].node, a[1..], b);
          }
        case File =>
        case Special =>
      }
    } else {
      assert a + b == b;
    }
  }

  // ---------------------------------------------------------------------
  // Regular-file counts and the directory iterator

  /** Number of regular files in the tree: the reference count. */
  function RegularFiles(n: Node): nat
  {
    match n
    case File => 1
    case Special => 0
    case Dir(es, _) => RegularFilesIn(es)
  }

  function RegularFilesIn(es: seq<Entry>): nat
  {
    if es == [] then 0 else RegularFiles(es[0].node) + RegularFilesIn(es[1..])
  }

  /**
   * The leaves `RecursiveIteratorIterator` visits below a directory, as the
   * value of `isFile()` on each: its "." and ".." entries, then each entry in
   * order, descending into subdirectories. Listing a directory that cannot
   * be read throws, and so does the whole walk (None).
   */
  function WalkEntries(es: seq<Entry>): Option<seq<bool>>
    decreases es, 1
  {
    match WalkEach(es)
    case None => None
    case Some(flags) => Some([false, false] + flags)
  }

  function WalkEach(es: seq<Entry>): Option<seq<bool>>
    decreases es, 0
  {
    if es == [] then Some([])
    else
      var head := match es[0].node
        case File => Some([true])
        case Special => Some([false])
        case Dir(sub, readable) => if readable then WalkEntries(sub) else None;
      match head
      case None => None
      case Some(h) =>
        (match WalkEach(es[1..])
         case None => None
         case Some(t) => Some(h + t))
  }

  /** What iterating over `dir` yields, or None when it throws. */
  function Iteration(fs: Node, dir: string): Option<seq<bool>>
  {
    if dir == "" then None
    else match Resolve(fs, dir)
      case Some(Dir(es, true)) => WalkEntries(es)
      case _ => None
  }

  /** Number of true flags, counted from the back as a loop over a prefix does. */
  function CountTrue(flags: seq<bool>): nat
  {
    if flags == [] then 0
    else CountTrue(flags[..|flags| - 1]) + (if flags[|flags| - 1] then 1 else 0)
  }

  lemma {:induction false} CountTrueAppend(a: seq<bool>, b: seq<bool>)
    ensures CountTrue(a + b) == CountTrue(a) + CountTrue(b)
    decreases |b|
  {
    if b == [] {
      assert a + b == a;
    } else {
      assert (a + b)[..|a + b| - 1] == a + b[..|b| - 1];
      CountTrueAppend(a, b[..|b| - 1]);
    }
  }

  /** Counting the files the walk yields gives the reference count. */
  lemma {:induction false} WalkCounts(es: seq<Entry>)
    ensures WalkEntries(es).Some? ==> CountTrue(WalkEntries(es).value) == RegularFilesIn(es)
    decreases es, 1
  {
    if WalkEach(es).Some? {
      WalkEachCounts(es);
      CountTrueAppend([false, false], WalkEach(es).value);
      assert CountTrue([false, false]) == 0 by {
        assert [false, false][..1] == [false];
        assert [false][..0] == [];
      }
    }
  }

  lemma {:induction false} WalkEachCounts(es: seq<Entry>)
    ensures WalkEach(es).Some? ==> CountTrue(WalkEach(es).value) == RegularFilesIn(es)
    decreases es, 0
  {
    if es != [] && WalkEach(es).Some? {
      var h: seq<bool> := match es[0].node
        case File => [true]
        case Special => [false]
        case Dir(sub, _) => WalkEntries(sub).value;
      match es[0].node {
        case File => assert [true][..0] == [];
        case Special => assert [false][..0] == [];
        case Dir(sub, _) => WalkCounts(sub);
      }
      assert CountTrue(h) == RegularFiles(es[0].node);
      WalkEachCounts(es[1..]);
      CountTrueAppend(h, WalkEach(es[1..]).value);
    }
  }

  // ---------------------------------------------------------------------
  // Pruning a subtree, to say what a count that leaves it out is counting

  /** The tree with the node at `path` replaced by a leaf without files. */
  function Prune(n: Node, path: seq<string>): Node
    decreases path
  {
    if path == [] then Special
    else match n
      case Dir(es, r) =>
        (match ChildIndex(es, path[0])
         case None => n
         case Some(i) => Dir(es[i := Entry(es[i].name, Prune(es[i].node, path[1..]))], r))
      case _ => n
  }

  /** Prune each path in turn. */
  function PruneAll(n: Node, paths: seq<seq<string>>): Node
    decreases |paths|
  {
    if paths == [] then n else PruneAll(Prune(n, paths[0]), paths[1..])
  }

  /** Two paths that part at some component: neither lies inside the other. */
  predicate Diverge(p: seq<string>, q: seq<string>)
    decreases |p|
  {
    p != [] && q != [] && (p[0] != q[0] || Diverge(p[1..], q[1..]))
  }

  lemma {:induction false} RegularFilesUpdate(es: seq<Entry>, i: nat, e: Entry)
    requires i < |es|
    ensures RegularFilesIn(es[i := e]) + RegularFiles(es[i].node) == RegularFilesIn(es) + RegularFiles(e.node)
    decreases |es|
  {
    if i > 0 {
      assert es[i := e][1..] == es[1..][i - 1 := e];
      RegularFilesUpdate(es[1..], i - 1, e);
    } else {
      assert es[i := e][1..] == es[1..];
    }
  }

  /** Pruning a subtree takes away exactly its files. */
  lemma {:induction false} PruneCount(n: Node, path: seq<string>)
    requires Lookup(n, path).Some?
    ensures RegularFiles(Prune(n, path)) + RegularFiles(Lookup(n, path).value) == RegularFiles(n)
    decreases path
  {
    if path != [] {
      var i := ChildIndex(n.entries, path[0]).value;
      var es := n.entries;
      PruneCount(es[i].node, path[1..]);
      RegularFilesUpdate(es, i, Entry(es[i].name, Prune(es[i].node, path[1..])));
    }
  }

  lemma {:induction false} ChildIndexSameNames(es: seq<Entry>, es': seq<Entry>, name: string)
    requires |es| == |es'| && forall j :: 0 <= j < |es| ==> es[j].name == es'[j].name
    ensures ChildIndex(es, name) == ChildIndex(es', name)
    decreases |es|
  {
    if es != [] {
      ChildIndexSameNames(es[1..], es'[1..], name);
    }
  }

  /** Pruning one path leaves every path that parts from it unchanged. */
  lemma {:induction false} PruneElsewhere(n: Node, p: seq<string>, q: seq<string>)
    requires Diverge(p, q)
    ensures Lookup(Prune(n, p), q) == Lookup(n, q)
    decreases |p|
  {
    match n {
      case Dir(es, r) =>
        match ChildIndex(es, p[0]) {
          case None =>
          case Some(i) =>
            var es' := es[i := Entry(es[i].name, Prune(es[i].node, p[1..]))];
            ChildIndexSameNames(es, es', q[0]);
            if p[0] == q[0] {
              PruneElsewhere(es[i].node, p[1..], q[1..]);
            }
        }
      case File =>
      case Special =>
    }
  }

  /** Sum of the files the given subtrees hold. */
  function SubtreeFiles(n: Node, paths: seq<seq<string>>): nat
    requires forall k :: 0 <= k < |paths| ==> Lookup(n, paths[k]).Some?
  {
    if paths == [] then 0
    else RegularFiles(Lookup(n, paths[0]).value) + SubtreeFiles(n, paths[1..])
  }

  predicate PairwiseDiverge(paths: seq<seq<string>>)
  {
    forall i, j :: 0 <= i < j < |paths| ==> Diverge(paths[i], paths[j])
  }

  lemma {:induction false} SubtreeFilesAfterPrune(n: Node, p: seq<string>, paths: seq<seq<string>>)
    requires forall k :: 0 <= k < |paths| ==> Diverge(p, paths[k]) && Lookup(n, paths[k]).Some?
    ensures forall k :: 0 <= k < |paths| ==> Lookup(Prune(n, p), paths[k]) == Lookup(n, paths[k])
    ensures SubtreeFiles(Prune(n, p), paths) == SubtreeFiles(n, paths)
    decreases |paths|
  {
    forall k | 0 <= k < |paths| ensures Lookup(Prune(n, p), paths[k]) == Lookup(n, paths[k]) {
      PruneElsewhere(n, p, paths[k]);
    }
    if paths != [] {
      SubtreeFilesAfterPrune(n, p, paths[1..]);
    }
  }

  /** Pruning disjoint subtrees takes away exactly the sum of their files. */
  lemma {:induction false} PruneAllCount(n: Node, paths: seq<seq<string>>)
    requires PairwiseDiverge(paths)
    requires forall k :: 0 <= k < |paths| ==> Lookup(n, paths[k]).Some?
    ensures RegularFiles(PruneAll(n, paths)) + SubtreeFiles(n, paths) == RegularFiles(n)
    decreases |paths|
  {
    if paths != [] {
      PruneCount(n, paths[0]);
      var rest := paths[1..];
      assert forall k :: 0 <= k < |rest| ==> Diverge(paths[0], rest[k]) by {
        forall k | 0 <= k < |rest| ensures Diverge(paths[0], rest[k]) {
          assert rest[k] == paths[k + 1];
        }
      }
      SubtreeFilesAfterPrune(n, paths[0], rest);
      PruneAllCount(Prune(n, paths[0]), rest);
    }
  }

  // ---------------------------------------------------------------------
  // `find <start> -maxdepth <maxDepth> -name <name> -print -quit`

  /**
   * The names leading from a directory to the first entry called `name`,
   * visiting entries in directory order and each directory before its
   * contents (pre-order), where `depth` is the depth of the entries `es`
   * below the start point and directories are entered only above
   * `maxDepth`. Unreadable directories are skipped, as `find` reports them
   * and carries on; symbolic links are not followed.
   */
  function FindIn(es: seq<Entry>, name: string, depth: nat, maxDepth: nat): Option<seq<string>>
    decreases es
  {
    if es == [] || depth > maxDepth then None
    else if es[0].name == name then Some([es[0].name])
    else
      var below := match es[0].node
        case Dir(sub, readable) =>
          if readable && depth < maxDepth then FindIn(sub, name, depth + 1, maxDepth) else None
        case _ => None;
      match below
      case Some(rel) => Some([es[0].name] + rel)
      case None => FindIn(es[1..], name, depth, maxDepth)
  }

  /** "/n1/n2/..." for the names in `rel`. */
  function Slashed(rel: seq<string>): string
  {
    if rel == [] then "" else Slashed(rel[..|rel| - 1]) + "/" + rel[|rel| - 1]
  }

  /**
   * What `find` writes on standard output: the first match, as the start
   * path followed by the names below it, and a newline; nothing when the
   * start point is missing, not a directory, unreadable, or holds no match.
   */
  function FindOutput(fs: Node, start: string, name: string, maxDepth: nat): string
  {
    match Resolve(fs, start)
    case Some(Dir(es, true)) =>
      (match FindIn(es, name, 1, maxDepth)
       case Some(rel) => start + Slashed(rel) + "\n"
       case None => "")
    case _ => ""
  }

  /** A directory with an entry called `name`. */
  predicate Holds(n: Node, name: string)
  {
    n.Dir? && ChildIndex(n.entries, name).Some?
  }

  /** `rel` names an entry called `name` inside a directory the names before it reach, within the depth limit. */
  predicate FoundAt(es: seq<Entry>, name: string, depth: nat, maxDepth: nat, rel: seq<string>)
  {
    1 <= |rel| && depth + |rel| <= maxDepth + 1 && rel[|rel| - 1] == name
    && (forall k :: 0 <= k < |rel| ==> Text.Plain(rel[k], '/'))
    && Lookup(Dir(es, true), rel[..|rel| - 1]).Some?
    && Holds(Lookup(Dir(es, true), rel[..|rel| - 1]).value, name)
  }

  lemma {:induction false} FindInLocates(es: seq<Entry>, name: string, depth: nat, maxDepth: nat)
    requires WellFormedEntries(es)
    requires FindIn(es, name, depth, maxDepth).Some?
    ensures FoundAt(es, name, depth, maxDepth, FindIn(es, name, depth, maxDepth).value)
    decreases es, 1
  {
    var rel := FindIn(es, name, depth, maxDepth).value;
    if es[0].name == name {
      assert rel[..|rel| - 1] == [];
    } else if es[0].node.Dir? && es[0].node.readable && depth < maxDepth
              && FindIn(es[0].node.entries, name, depth + 1, maxDepth).Some? {
      FindBelow(es, name, depth, maxDepth);
    } else {
      FindLater(es, name, depth, maxDepth);
    }
  }

  /** The match lies below the first entry, a directory. */
  lemma {:induction false} FindBelow(es: seq<Entry>, name: string, depth: nat, maxDepth: nat)
    requires WellFormedEntries(es) && es != [] && depth <= maxDepth && es[0].name != name
    requires es[0].node.Dir? && es[0].node.readable && depth < maxDepth
    requires FindIn(es[0].node.entries, name, depth + 1, maxDepth).Some?
    ensures FindIn(es, name, depth, maxDepth).Some?
    ensures FoundAt(es, name, depth, maxDepth, FindIn(es, name, depth, maxDepth).value)
    decreases es, 0
  {
    var rel := FindIn(es, name, depth, maxDepth).value;
    var sub := es[0].node.entries;
    var r := FindIn(sub, name, depth + 1, maxDepth).value;
    FindInLocates(sub, name, depth + 1, maxDepth);
    assert rel == [es[0].name] + r;
    assert rel[..|rel| - 1] == [es[0].name] + r[..|r| - 1];
    assert ChildIndex(es, es[0].name) == Some(0);
    assert Lookup(Dir(es, true), rel[..|rel| - 1]) == Lookup(Dir(sub, true), r[..|r| - 1]);
  }

  /** Nothing matches at or below the first entry: the match is among the later entries. */
  lemma {:induction false} FindLater(es: seq<Entry>, name: string, depth: nat, maxDepth: nat)
    requires WellFormedEntries(es) && es != [] && es[0].name != name
    requires FindIn(es, name, depth, maxDepth).Some?
    requires !(es[0].node.Dir? && es[0].node.readable && depth < maxDepth
               && FindIn(es[0].node.entries, name, depth + 1, maxDepth).Some?)
    ensures FoundAt(es, name, depth, maxDepth, FindIn(es, name, depth, maxDepth).value)
    decreases es, 0
  {
    var rel := FindIn(es, name, depth, maxDepth).value;
    var tail := es[1..];
    assert rel == FindIn(tail, name, depth, maxDepth).value;
    FindInLocates(tail, name, depth, maxDepth);
    var init := rel[..|rel| - 1];
    if init == [] {
      assert ChildIndex(es, name).Some? by {
        assert ChildIndex(tail, name).Some?;
      }
    } else {
      var i := ChildIndex(tail, init[0]).value;
      assert es[0].name != init[0] by {
        assert tail[i] == es[1 + i];
      }
      assert ChildIndex(es, init[0]) == Some(i + 1);
      assert Lookup(Dir(es, true), init) == Lookup(Dir(tail, true), init);
    }
  }

  lemma {:induction false} ComponentsSlashed(start: string, rel: seq<string>)
    requires forall k :: 0 <= k < |rel| ==> Text.Plain(rel[k], '/')
    ensures Components(start + Slashed(rel)) == Components(start) + rel
    ensures rel != [] ==> (start + Slashed(rel))[|start + Slashed(rel)| - 1] != '/'
    decreases |rel|
  {
    if rel == [] {
      assert start + Slashed(rel) == start;
    } else {
      var init, last := rel[..|rel| - 1], rel[|rel| - 1];
      var p := start + Slashed(init);
      assert forall k :: 0 <= k < |init| ==> Text.Plain(init[k], '/') by {
        forall k | 0 <= k < |init| ensures init[k] == rel[k] {
        }
      }
      ComponentsSlashed(start, init);
      SlashedStep(start, rel);
      ComponentsStep(p, last);
      SplitLast(Components(start), rel);
    }
  }

  lemma SplitLast<T>(c: seq<T>, rel: seq<T>)
    requires rel != []
    ensures c + rel == c + rel[..|rel| - 1] + [rel[|rel| - 1]]
  {
    assert rel == rel[..|rel| - 1] + [rel[|rel| - 1]];
  }

  lemma SlashedStep(start: string, rel: seq<string>)
    requires rel != []
    ensures start + Slashed(rel) == start + Slashed(rel[..|rel| - 1]) + ['/'] + rel[|rel| - 1]
  {
    var x, last := Slashed(rel[..|rel| - 1]), rel[|rel| - 1];
    assert Slashed(rel) == x + "/" + last;
    ConcatAssociates(start, x, "/", last);
  }

  lemma ConcatAssociates<T>(a: seq<T>, b: seq<T>, c: seq<T>, d: seq<T>)
    ensures a + (b + c + d) == a + b + c + d
  {
  }

  /** One more plain name after a slash adds one component and does not end in a slash. */
  lemma ComponentsStep(p: string, last: string)
    requires Text.Plain(last, '/')
    ensures Components(p + ['/'] + last) == Components(p) + [last]
    ensures (p + ['/'] + last)[|p + ['/'] + last| - 1] != '/'
  {
    Text.SplitAround(p, last, '/');
    Text.SplitPlain(last, '/');
    assert (p + ['/'] + last)[|p + ['/'] + last| - 1] == last[|last| - 1];
  }

  /**
   * When `find` prints a path, its `dirname` is a directory below the start
   * point, at most `maxDepth - 1` levels down, that holds an entry called
   * `name`, and the printed path is that directory, "/", `name` and a newline.
   */
  lemma FindOutputLocates(fs: Node, start: string, name: string, maxDepth: nat)
    requires WellFormed(fs)
    requires start != "" && start[|start| - 1] != '/'
    requires FindOutput(fs, start, name, maxDepth) != ""
    ensures var folder := Php.Dirname(FindOutput(fs, start, name, maxDepth));
      FindOutput(fs, start, name, maxDepth) == folder + "/" + name + "\n"
      && Components(start) <= Components(folder)
      && |Components(folder)| < |Components(start)| + maxDepth
      && Resolve(fs, folder).Some? && Holds(Resolve(fs, folder).value, name)
  {
    var out := FindOutput(fs, start, name, maxDepth);
    var top := Resolve(fs, start).value;
    assert top.Dir? && top.readable;
    var es := top.entries;
    assert top == Dir(es, true);
    var rel := FindIn(es, name, 1, maxDepth).value;
    assert out == start + Slashed(rel) + "\n";
    WellFormedResolves(fs, Components(start));
    FindInLocates(es, name, 1, maxDepth);
    var folder := FolderOf(start, rel, name);
    assert out == folder + "/" + name + "\n";
    LookupAppend(fs, Components(start), rel[..|rel| - 1]);
    assert Resolve(fs, folder) == Lookup(top, rel[..|rel| - 1]);
  }

  /** The directory part of a path `find` printed, with the properties the lemma above needs. */
  lemma FolderOf(start: string, rel: seq<string>, name: string) returns (folder: string)
    requires start != "" && start[|start| - 1] != '/'
    requires 1 <= |rel| && rel[|rel| - 1] == name
    requires forall k :: 0 <= k < |rel| ==> Text.Plain(rel[k], '/')
    ensures folder == start + Slashed(rel[..|rel| - 1])
    ensures start + Slashed(rel) + "\n" == folder + "/" + name + "\n"
    ensures Php.Dirname(start + Slashed(rel) + "\n") == folder
    ensures Components(folder) == Components(start) + rel[..|rel| - 1]
  {
    var init := rel[..|rel| - 1];
    folder := start + Slashed(init);
    ComponentsSlashed(start, init);
    assert init + [name] == rel;
    assert Slashed(rel) == Slashed(init) + "/" + name;
    assert start + Slashed(rel) + "\n" == folder + "/" + (name + "\n");
    assert '/' !in name + "\n" by {
      assert Text.Plain(rel[|rel| - 1], '/');
    }
    Php.DirnameOfChild(folder, name + "\n");
  }

  /** Every node reached in a well-formed tree is well formed. */
  lemma {:induction false} WellFormedResolves(n: Node, path: seq<string>)
    requires WellFormed(n) && Lookup(n, path).Some?
    ensures WellFormed(Lookup(n, path).value)
    decreases path
  {
    if path != [] {
      var i := ChildIndex(n.entries, path[0]).value;
      WellFormedEntry(n.entries, i);
      WellFormedResolves(n.entries[i].node, path[1..]);
    }
  }

  lemma {:induction false} WellFormedEntry(es: seq<Entry>, i: nat)
    requires WellFormedEntries(es) && i < |es|
    ensures WellFormed(es[i].node) && Text.Plain(es[i].name, '/')
    decreases i
  {
    if i > 0 {
      WellFormedEntry(es[1..], i - 1);
    }
  }
}
