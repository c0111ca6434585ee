/**
 * Aligning a workspace's skill tree to the versions a snapshot names (src/app/broker/skill.py, SkillStore.align).
 * SHA-256 is taken as injective, so comparing digests is comparing contents.
 */
module SkillAlign {
  import opened Common
  import Utf8

  /** A path below the skill root, as its components. */
  type Path = seq<string>

  datatype Kind = Socket | Fifo | Device

  datatype Node = File(content: seq<Utf8.Byte>) | Directory | Link(target: string) | Special(kind: Kind)

  type Tree = map<Path, Node>

  type Files = map<Path, seq<Utf8.Byte>>

  datatype Reference = Reference(name: string, skill: string, version: int)

  /** `Hung` stands for a call that does not return. */
  datatype Error = BadName | Duplicate | BadVersion | NoVersion | Obstructed | Hung

  datatype Result<+T> = Ok(value: T) | Err(error: Error)

  /** What stands at workspace/skill. */
  datatype Root = NoRoot | OtherRoot | SpecialRoot | TreeRoot(tree: Tree)

  /** The version trees kept on the host. */
  type Versions = map<(string, int), Tree>

  /** Entries have non-empty paths, and what has entries below it is a directory. */
  ghost predicate WellFormed(tree: Tree) {
    && [] !in tree
    && forall p, q :: p in tree && q < p && q != [] ==> q in tree && tree[q].Directory?
  }

  ghost predicate AllWellFormed(versions: Versions) {
    forall v :: v in versions ==> WellFormed(versions[v])
  }

  ghost predicate WellFormedRoot(root: Root) {
    root.TreeRoot? ==> WellFormed(root.tree)
  }

  // ---- The desired files ----

  predicate IsComponent(s: string) {
    s != "" && s != "." && s != ".." && '/' !in s && '\\' !in s
  }

  predicate Separator(c: char) { c == '/' || c == '\\' }

  /** A name as a file system reads it: cut at the separators of either convention. */
  function Parts(s: string): (parts: seq<string>)
    ensures parts != []
  {
    if s == "" then [""]
    else
      var init, c := Parts(s[..|s| - 1]), s[|s| - 1];
      if Separator(c) then init + [""] else init[..|init| - 1] + [init[|init| - 1] + [c]]
  }

  lemma {:induction false} PartsUncut(s: string)
    requires forall i :: 0 <= i < |s| ==> !Separator(s[i])
    ensures Parts(s) == [s]
  {
    if s == "" {
    } else {
      PartsUncut(s[..|s| - 1]);
      assert s == s[..|s| - 1] + [s[|s| - 1]];
    }
  }

  lemma {:induction false} PartsCut(s: string, i: nat)
    requires i < |s| && Separator(s[i])
    ensures |Parts(s)| > 1
  {
    if i < |s| - 1 {
      PartsCut(s[..|s| - 1], i);
    }
  }

  /** A name is accepted exactly when it names one entry of a directory: one part, not empty, not a dot name. */
  lemma ComponentIff(s: string)
    ensures IsComponent(s) <==> Parts(s) == [s] && s != "" && s != "." && s != ".."
  {
    if i :| 0 <= i < |s| && Separator(s[i]) {
      PartsCut(s, i);
    } else {
      PartsUncut(s);
      assert forall i :: 0 <= i < |s| ==> s[i] != '/' && s[i] != '\\';
    }
  }

  function FilesUnder(name: string, tree: Tree): Files {
    map p | p in Under(name, tree) && tree[p[1..]].File? :: tree[p[1..]].content
  }

  function Under(name: string, tree: Tree): (r: set<Path>)
    ensures forall p :: p in r <==> p != [] && p[0] == name && p[1..] in tree
  {
    var r := set q | q in tree :: [name] + q;
    assert forall p: Path :: p != [] && p[0] == name ==> p == [name] + p[1..];
    r
  }

  function Check(versions: Versions, names: set<string>, ref: Reference): Result<Tree> {
    if !IsComponent(ref.name) then Err(BadName)
    else if ref.name in names then Err(Duplicate)
    else if !IsComponent(ref.skill) then Err(BadName)
    else if ref.version < 1 then Err(BadVersion)
    else if (ref.skill, ref.version) !in versions then Err(NoVersion)
    else Ok(versions[(ref.skill, ref.version)])
  }

  function NamesOf(refs: seq<Reference>): set<string> {
    set i | 0 <= i < |refs| :: refs[i].name
  }

  /** One more reference. */
  function DesiredOne(versions: Versions, files: Files, names: set<string>, ref: Reference): Result<Files> {
    match Check(versions, names, ref)
    case Err(e) => Err(e)
    case Ok(tree) => Ok(files + FilesUnder(ref.name, tree))
  }

  function Desired(versions: Versions, refs: seq<Reference>): Result<Files> {
    if refs == [] then Ok(map[])
    else
      var init := refs[..|refs| - 1];
      match Desired(versions, init)
      case Err(e) => Err(e)
      case Ok(files) => DesiredOne(versions, files, NamesOf(init), refs[|refs| - 1])
  }

  lemma {:induction false} DesiredErrorStays(versions: Versions, refs: seq<Reference>, i: nat)
    requires i <= |refs| && Desired(versions, refs[..i]).Err?
    ensures Desired(versions, refs) == Desired(versions, refs[..i])
  {
    if i == |refs| {
      assert refs[..i] == refs;
    } else {
      assert refs[..|refs| - 1][..i] == refs[..i];
      DesiredErrorStays(versions, refs[..|refs| - 1], i);
    }
  }

  /** What each error says of the references. */
  ghost predicate Blames(versions: Versions, refs: seq<Reference>, i: nat, e: Error) {
    && i < |refs|
    && match e
       case BadName => !IsComponent(refs[i].name) || !IsComponent(refs[i].skill)
       case Duplicate => exists j :: 0 <= j < i && refs[j].name == refs[i].name
       case BadVersion => refs[i].version < 1
       case NoVersion => refs[i].version >= 1 && (refs[i].skill, refs[i].version) !in versions
       case _ => false
  }

  /** The error is that of the first reference the list is refused for. */
  lemma {:induction false} DesiredBlames(versions: Versions, refs: seq<Reference>) returns (i: nat)
    requires Desired(versions, refs).Err?
    ensures Blames(versions, refs, i, Desired(versions, refs).error) && Desired(versions, refs[..i]).Ok?
  {
    var init := refs[..|refs| - 1];
    if Desired(versions, init).Err? {
      i := DesiredBlames(versions, init);
      assert init[..i] == refs[..i] && init[i] == refs[i];
      assert forall j :: 0 <= j < i ==> init[j] == refs[j];
    } else {
      i := |refs| - 1;
      if Desired(versions, refs).error.Duplicate? {
        var j :| 0 <= j < |init| && init[j].name == refs[i].name;
        assert refs[j].name == refs[i].name;
      }
    }
  }

  /** _desired_files: any bad reference fails the whole call. */
  method DesiredFiles(versions: Versions, refs: seq<Reference>) returns (r: Result<Files>)
    ensures r == Desired(versions, refs)
  {
    r := Ok(map[]);
    var names: set<string> := {};
    var i := 0;
    while i < |refs|
      invariant 0 <= i <= |refs| && r.Ok?
      invariant names == NamesOf(refs[..i]) && r == Desired(versions, refs[..i])
    {
      DesiredStep(versions, refs, i);
      NamesStep(refs, i);
      r := DesiredOne(versions, r.value, names, refs[i]);
      names := names + {refs[i].name};
      i := i + 1;
      if r.Err? {
        DesiredErrorStays(versions, refs, i);
        return;
      }
    }
    assert refs[..i] == refs;
  }

  lemma DesiredStep(versions: Versions, refs: seq<Reference>, i: nat)
    requires i < |refs| && Desired(versions, refs[..i]).Ok?
    ensures Desired(versions, refs[..i + 1]) ==
            DesiredOne(versions, Desired(versions, refs[..i]).value, NamesOf(refs[..i]), refs[i])
  {
    assert refs[..i + 1][..i] == refs[..i];
  }

  lemma NamesStep(refs: seq<Reference>, i: nat)
    requires i < |refs|
    ensures NamesOf(refs[..i + 1]) == NamesOf(refs[..i]) + {refs[i].name}
  {
    var a, b := refs[..i], refs[..i + 1];
    forall n | n in NamesOf(b) ensures n in NamesOf(a) + {refs[i].name} {
      var k :| 0 <= k < |b| && b[k].name == n;
      assert k < i ==> a[k].name == n;
    }
    forall n | n in NamesOf(a) ensures n in NamesOf(b) {
      var k :| 0 <= k < |a| && a[k].name == n;
      assert b[k].name == n;
    }
    assert b[i].name == refs[i].name;
  }

  ghost predicate Named(files: Files, names: set<string>) {
    forall p :: p in files ==> p != [] && p[0] in names
  }

  /** Every desired path starts with a name of a reference. */
  lemma {:induction false} DesiredNames(versions: Versions, refs: seq<Reference>)
    requires Desired(versions, refs).Ok?
    ensures Named(Desired(versions, refs).value, NamesOf(refs))
  {
    if refs == [] {
    } else {
      DesiredNames(versions, refs[..|refs| - 1]);
      NamesStep(refs, |refs| - 1);
      assert refs[..|refs| - 1 + 1] == refs;
    }
  }

  ghost predicate Sound(versions: Versions, ref: Reference) {
    IsComponent(ref.name) && IsComponent(ref.skill) && ref.version >= 1 && (ref.skill, ref.version) in versions
  }

  ghost predicate AllSound(versions: Versions, refs: seq<Reference>) {
    && (forall i :: 0 <= i < |refs| ==> Sound(versions, refs[i]))
    && (forall i, j :: 0 <= i < j < |refs| ==> refs[i].name != refs[j].name)
  }

  lemma AllSoundLast(versions: Versions, refs: seq<Reference>)
    requires refs != []
    ensures var init, ref := refs[..|refs| - 1], refs[|refs| - 1];
            AllSound(versions, refs) <==> AllSound(versions, init) && Sound(versions, ref) && ref.name !in NamesOf(init)
  {}

  /** The references are accepted exactly when each names an existing version and no name is used twice. */
  lemma {:induction false} DesiredOkIff(versions: Versions, refs: seq<Reference>)
    ensures Desired(versions, refs).Ok? <==> AllSound(versions, refs)
  {
    if refs == [] {
    } else {
      DesiredOkIff(versions, refs[..|refs| - 1]);
      AllSoundLast(versions, refs);
    }
  }

  /** The version file behind a desired path. */
  ghost predicate ComesFrom(versions: Versions, ref: Reference, p: Path, content: seq<Utf8.Byte>) {
    && Sound(versions, ref) && p != [] && p[0] == ref.name
    && p[1..] in versions[(ref.skill, ref.version)] && versions[(ref.skill, ref.version)][p[1..]] == File(content)
  }

  /** The desired files are exactly the regular files of the versions, each under its skill's name. */
  lemma {:induction false} DesiredIff(versions: Versions, refs: seq<Reference>, p: Path, content: seq<Utf8.Byte>)
    requires Desired(versions, refs).Ok?
    ensures var files := Desired(versions, refs).value;
            p in files && files[p] == content <==>
            exists i :: 0 <= i < |refs| && ComesFrom(versions, refs[i], p, content)
  {
    if refs == [] {
    } else {
      var init, ref := refs[..|refs| - 1], refs[|refs| - 1];
      DesiredIff(versions, init, p, content);
      DesiredNames(versions, init);
      LastOrEarlier(versions, refs, p, content);
      NamesHold(versions, init, p, content);
    }
  }

  lemma LastOrEarlier(versions: Versions, refs: seq<Reference>, p: Path, content: seq<Utf8.Byte>)
    requires refs != []
    ensures var init := refs[..|refs| - 1];
            (exists i :: 0 <= i < |refs| && ComesFrom(versions, refs[i], p, content)) <==>
            || (exists i :: 0 <= i < |init| && ComesFrom(versions, init[i], p, content))
            || ComesFrom(versions, refs[|refs| - 1], p, content)
  {
    var init := refs[..|refs| - 1];
    if i :| 0 <= i < |refs| && ComesFrom(versions, refs[i], p, content) {
      if i < |init| {
        assert init[i] == refs[i];
      }
    }
    if i :| 0 <= i < |init| && ComesFrom(versions, init[i], p, content) {
      assert refs[i] == init[i];
    }
  }

  lemma NamesHold(versions: Versions, refs: seq<Reference>, p: Path, content: seq<Utf8.Byte>)
    ensures (exists i :: 0 <= i < |refs| && ComesFrom(versions, refs[i], p, content)) ==>
              p != [] && p[0] in NamesOf(refs)
  {}

  ghost predicate PrefixFree(files: Files) {
    [] !in files && forall p, q :: p in files && q in files ==> !(p < q)
  }

  lemma PrefixTail(p: Path, q: Path)
    requires p != []
    ensures p < q ==> q != [] && p[0] == q[0] && p[1..] < q[1..]
  {
    if p < q {
      assert q[..|p|] == p;
    }
  }

  lemma UnderPrefixFree(name: string, tree: Tree)
    requires WellFormed(tree)
    ensures PrefixFree(FilesUnder(name, tree)) && Named(FilesUnder(name, tree), {name})
  {
    var files := FilesUnder(name, tree);
    forall p, q | p in files && q in files ensures !(p < q) {
      PrefixTail(p, q);
      assert p[1..] in tree && q[1..] in tree;
    }
  }

  lemma PrefixFreeUnion(a: Files, b: Files, names: set<string>, name: string)
    requires PrefixFree(a) && PrefixFree(b) && name !in names && Named(a, names) && Named(b, {name})
    ensures PrefixFree(a + b)
  {
    forall p, q | p in a + b && q in a + b ensures !(p < q) {
      PrefixTail(p, q);
    }
  }

  lemma JoinedPrefixFree(files: Files, tree: Tree, names: set<string>, name: string)
    requires PrefixFree(files) && WellFormed(tree) && name !in names && Named(files, names)
    ensures PrefixFree(files + FilesUnder(name, tree))
  {
    UnderPrefixFree(name, tree);
    PrefixFreeUnion(files, FilesUnder(name, tree), names, name);
  }

  /** No desired file is also a parent of one: each version is a tree and names differ. */
  lemma {:induction false} DesiredPrefixFree(versions: Versions, refs: seq<Reference>)
    requires AllWellFormed(versions) && Desired(versions, refs).Ok?
    ensures PrefixFree(Desired(versions, refs).value)
  {
    if refs == [] {
    } else {
      var init, ref := refs[..|refs| - 1], refs[|refs| - 1];
      DesiredPrefixFree(versions, init);
      DesiredNames(versions, init);
      JoinedPrefixFree(Desired(versions, init).value, versions[(ref.skill, ref.version)], NamesOf(init), ref.name);
    }
  }

  // ---- The target ----

  function Parents(files: Files): (r: set<Path>)
    ensures forall d :: d in r <==> d != [] && exists p :: p in files && d < p
  {
    var r := set p, k | p in files && 1 <= k < |p| :: p[..k];
    assert forall d, p :: p in files && d != [] && d < p ==> d == p[..|d|];
    r
  }

  /** Exactly the desired files and their parent directories. */
  function Target(files: Files): Tree {
    (map d | d in Parents(files) :: Directory) + (map p | p in files :: File(files[p]))
  }

  /** What the removal pass leaves in place when it looks at an entry; it cannot remove a special file. */
  predicate Keeps(files: Files, dirs: set<Path>, p: Path, node: Node) {
    match node
    case File(_) => p in files
    case Directory => p in dirs
    case Link(_) => false
    case Special(_) => true
  }

  ghost predicate AllKept(tree: Tree, files: Files, dirs: set<Path>) {
    forall p :: p in tree ==> Keeps(files, dirs, p, tree[p])
  }

  lemma KeptAt(tree: Tree, files: Files, dirs: set<Path>, p: Path)
    ensures AllKept(tree, files, dirs) && p in tree ==> Keeps(files, dirs, p, tree[p])
  {}

  function Subtree(tree: Tree, p: Path): set<Path> {
    set q | q in tree && p <= q
  }

  /** The tree once the entries `done` have been looked at. */
  function Pruned(tree: Tree, files: Files, dirs: set<Path>, done: set<Path>): Tree {
    map p | p in tree && forall q :: q in done && q in tree && q <= p ==> Keeps(files, dirs, q, tree[q]) :: tree[p]
  }

  lemma PruneKept(tree: Tree, files: Files, dirs: set<Path>, done: set<Path>, p: Path)
    requires p in tree && Keeps(files, dirs, p, tree[p])
    ensures Pruned(tree, files, dirs, done + {p}) == Pruned(tree, files, dirs, done)
  {}

  lemma PruneRemoved(tree: Tree, files: Files, dirs: set<Path>, done: set<Path>, p: Path)
    requires p in tree && !Keeps(files, dirs, p, tree[p])
    ensures var before := Pruned(tree, files, dirs, done);
            Pruned(tree, files, dirs, done + {p}) == before - Subtree(before, p)
  {}

  /** Special files all of whose ancestors are wanted: nothing removes them. */
  function Stuck(tree: Tree, dirs: set<Path>): set<Path> {
    set p | p in tree && tree[p].Special? && forall q :: q in tree && q < p ==> q in dirs
  }

  function Specials(tree: Tree, paths: set<Path>): Tree {
    map p | p in paths && p in tree :: tree[p]
  }

  // ---- Orders ----

  /** Every path once, nothing before what lies below it. */
  ghost predicate BottomUpOrder(order: seq<Path>, paths: set<Path>) {
    && Set(order) == paths
    && forall i, j :: 0 <= i < j < |order| ==> !(order[i] <= order[j])
  }

  lemma {:induction false} LongestExists(paths: set<Path>) returns (p: Path)
    requires paths != {}
    ensures p in paths && forall q :: q in paths ==> |q| <= |p|
  {
    var x :| x in paths;
    p := x;
    if paths - {x} != {} {
      var y := LongestExists(paths - {x});
      p := if |x| >= |y| then x else y;
      assert forall q :: q in paths ==> q == x || q in paths - {x};
    } else {
      assert forall q :: q in paths ==> q == x || q in paths - {x};
    }
  }

  lemma DeepestExists(paths: set<Path>)
    requires paths != {}
    ensures exists p :: p in paths && forall q :: q in paths ==> !(p < q)
  {
    var p := LongestExists(paths);
    assert p in paths && forall q :: q in paths ==> !(p < q);
  }

  /** os.walk with topdown=False: any order that puts the contents of a directory before it. */
  method BottomUp(paths: set<Path>) returns (order: seq<Path>)
    ensures BottomUpOrder(order, paths)
  {
    order := [];
    var rest := paths;
    while rest != {}
      invariant PartOrder(order, rest, paths)
      decreases |rest|
    {
      DeepestExists(rest);
      var p :| p in rest && forall q :: q in rest ==> !(p < q);
      ExtendOrder(order, rest, paths, p);
      order := order + [p];
      rest := rest - {p};
    }
  }

  ghost predicate PartOrder(order: seq<Path>, rest: set<Path>, paths: set<Path>) {
    && BottomUpOrder(order, paths - rest) && rest <= paths
    && forall i, q :: 0 <= i < |order| && q in rest ==> !(order[i] <= q)
  }

  lemma ExtendOrder(order: seq<Path>, rest: set<Path>, paths: set<Path>, p: Path)
    requires PartOrder(order, rest, paths) && p in rest && forall q :: q in rest ==> !(p < q)
    ensures PartOrder(order + [p], rest - {p}, paths)
  {
    assert Set(order + [p]) == Set(order) + {p};
    assert paths - (rest - {p}) == (paths - rest) + {p};
    forall q | q in rest - {p} ensures !(p <= q) {
      PrefixCases(p, q);
    }
  }

  lemma PrefixCases(p: Path, q: Path)
    ensures p <= q <==> p == q || p < q
  {}

  lemma NextPath(order: seq<Path>, i: nat)
    requires i < |order|
    ensures Set(order[..i + 1]) == Set(order[..i]) + {order[i]}
  {}

  lemma AllPaths(order: seq<Path>)
    ensures Set(order[..0]) == {} && Set(order[..|order|]) == Set(order)
  {}

  /** Going bottom up, an entry is still there when its turn comes. */
  lemma StillThere(tree: Tree, files: Files, dirs: set<Path>, order: seq<Path>, i: nat)
    requires BottomUpOrder(order, tree.Keys) && i < |order|
    ensures order[i] in tree && order[i] in Pruned(tree, files, dirs, Set(order[..i]))
  {
    assert order[i] in Set(order);
    forall q | q in Set(order[..i]) ensures !(q <= order[i]) {
      var k :| 0 <= k < i && order[k] == q;
    }
  }

  lemma PrunedNone(tree: Tree, files: Files, dirs: set<Path>)
    ensures Pruned(tree, files, dirs, {}) == tree
  {}

  // ---- The directory and file passes ----

  function Made(tree: Tree, done: set<Path>): Tree {
    tree + map d | d in done && d !in tree :: Directory
  }

  /** The files written, but for the rest. */
  function Written(tree: Tree, files: Files, rest: set<Path>): Tree {
    tree + map p | p in files && p !in rest && !SpecialAt(tree, p) :: File(files[p])
  }

  predicate SpecialAt(tree: Tree, p: Path) {
    p in tree && tree[p].Special?
  }

  /** Opening a special file for writing goes through for a device, and for a FIFO somebody reads. */
  predicate Swallows(node: Node, read: bool) {
    node.Special? && (node.kind.Device? || (node.kind.Fifo? && read))
  }

  lemma MadeOne(tree: Tree, done: set<Path>, d: Path)
    requires d !in done
    ensures d in Made(tree, done) <==> d in tree
    ensures d in tree ==> Made(tree, done)[d] == tree[d] && Made(tree, done + {d}) == Made(tree, done)
    ensures d !in tree ==> Made(tree, done + {d}) == Made(tree, done)[d := Directory]
  {}

  lemma WrittenOne(tree: Tree, files: Files, rest: set<Path>, p: Path)
    requires p in files && p in rest
    ensures p in Written(tree, files, rest) <==> p in tree
    ensures p in tree ==> Written(tree, files, rest)[p] == tree[p]
    ensures Written(tree, files, rest - {p}) ==
            if SpecialAt(tree, p) then Written(tree, files, rest) else Written(tree, files, rest)[p := File(files[p])]
  {}

  lemma WrittenNone(tree: Tree, files: Files)
    ensures Written(tree, files, files.Keys) == tree
  {}

  lemma MadeNone(tree: Tree)
    ensures Made(tree, {}) == tree
  {}

  class Workspace {
    var root: Root
    /** Entries removed, created or written so far. */
    var changes: nat

    constructor (root: Root)
      ensures this.root == root && changes == 0
    {
      this.root, changes := root, 0;
    }

    /** _remove: links and files are unlinked, directories go with all below them, anything else stays. */
    method Remove(p: Path)
      requires root.TreeRoot? && p in root.tree
      modifies this
      ensures old(root.tree[p]).Special? ==> root == old(root) && changes == old(changes)
      ensures !old(root.tree[p]).Special? ==> root == TreeRoot(old(root.tree) - Subtree(old(root.tree), p))
    {
      if !root.tree[p].Special? {
        root := TreeRoot(root.tree - Subtree(root.tree, p));
        changes := changes + 1;
      }
    }

    /** Look at every existing entry, bottom up, and remove what does not belong. */
    method Prune(files: Files, dirs: set<Path>)
      requires root.TreeRoot? && files.Keys !! dirs
      modifies this
      ensures root == TreeRoot(Pruned(old(root.tree), files, dirs, old(root.tree).Keys))
      ensures AllKept(old(root.tree), files, dirs) ==> changes == old(changes)
    {
      ghost var tree := root.tree;
      var order := BottomUp(root.tree.Keys);
      PrunedNone(tree, files, dirs);
      PruneInTurn(order, tree, files, dirs, AllKept(tree, files, dirs));
    }

    method PruneInTurn(order: seq<Path>, ghost tree: Tree, files: Files, dirs: set<Path>, ghost kept: bool)
      requires BottomUpOrder(order, tree.Keys) && files.Keys !! dirs && (kept ==> AllKept(tree, files, dirs))
      requires root == TreeRoot(Pruned(tree, files, dirs, {}))
      modifies this
      ensures root == TreeRoot(Pruned(tree, files, dirs, Set(order)))
      ensures kept ==> changes == old(changes)
    {
      AllPaths(order);
      var i := 0;
      while i < |order|
        invariant 0 <= i <= |order|
        invariant root == TreeRoot(Pruned(tree, files, dirs, Set(order[..i])))
        invariant kept ==> changes == old(changes)
      {
        PruneNext(order, i, tree, files, dirs);
        KeptAt(tree, files, dirs, order[i]);
        i := i + 1;
      }
    }

    method PruneNext(order: seq<Path>, i: nat, ghost tree: Tree, files: Files, dirs: set<Path>)
      requires BottomUpOrder(order, tree.Keys) && i < |order| && files.Keys !! dirs
      requires root == TreeRoot(Pruned(tree, files, dirs, Set(order[..i])))
      modifies this
      ensures order[i] in tree && root == TreeRoot(Pruned(tree, files, dirs, Set(order[..i + 1])))
      ensures Keeps(files, dirs, order[i], tree[order[i]]) ==> changes == old(changes)
    {
      StillThere(tree, files, dirs, order, i);
      NextPath(order, i);
      PruneEntry(order[i], tree, files, dirs, Set(order[..i]));
    }

    method PruneEntry(p: Path, ghost tree: Tree, files: Files, dirs: set<Path>, ghost done: set<Path>)
      requires root == TreeRoot(Pruned(tree, files, dirs, done)) && p in root.tree && files.Keys !! dirs
      modifies this
      ensures root == TreeRoot(Pruned(tree, files, dirs, done + {p}))
      ensures Keeps(files, dirs, p, tree[p]) ==> changes == old(changes)
    {
      var node := root.tree[p];
      if Keeps(files, dirs, p, tree[p]) {
        PruneKept(tree, files, dirs, done, p);
      } else {
        PruneRemoved(tree, files, dirs, done, p);
      }
      if node.Link? || (p in files && !node.File?) || (p in dirs && !node.Directory?) {
        Remove(p);
      } else if p !in files && p !in dirs {
        Remove(p);
      }
    }

    /** Create the wanted directories, parents first; something else in the way raises. */
    method MakeDirectories(dirs: set<Path>) returns (ok: bool)
      requires root.TreeRoot?
      modifies this
      ensures root.TreeRoot?
      ensures ok <==> forall d :: d in dirs && d in old(root.tree) ==> old(root.tree)[d].Directory?
      ensures ok ==> root == TreeRoot(Made(old(root.tree), dirs))
      ensures dirs <= old(root.tree).Keys ==> changes == old(changes)
    {
      ghost var tree := root.tree;
      var order := BottomUp(dirs);
      AllPaths(order);
      MadeNone(tree);
      var i := |order|;
      ghost var done: set<Path> := {};
      while i > 0
        invariant 0 <= i <= |order|
        invariant done + Set(order[..i]) == dirs && done !! Set(order[..i])
        invariant root == TreeRoot(Made(tree, done))
        invariant forall d :: d in done && d in tree ==> tree[d].Directory?
        invariant dirs <= tree.Keys ==> changes == old(changes)
      {
        i := i - 1;
        NextPath(order, i);
        OnceOnly(order, dirs, i);
        MadeOne(tree, done, order[i]);
        if order[i] in root.tree {
          if !root.tree[order[i]].Directory? {
            return false;
          }
        } else {
          root, changes := TreeRoot(root.tree[order[i] := Directory]), changes + 1;
        }
        done := done + {order[i]};
      }
      return true;
    }

    /** Write the files whose content differs. `readers` are the FIFOs that have a reader. */
    method WriteFiles(files: Files, readers: set<Path>) returns (r: Result<()>)
      requires root.TreeRoot? && Open(root.tree, files)
      modifies this
      ensures root.TreeRoot?
      ensures r.Ok? <==> Free(old(root.tree), files, {}, readers)
      ensures r.Ok? ==> root == TreeRoot(Written(old(root.tree), files, {}))
      ensures r == Err(Hung) ==> exists p :: p in files && WaitsAt(old(root.tree), p, readers)
      ensures r.Err? && r != Err(Hung) ==> r == Err(Obstructed) && exists p :: p in files && SocketAt(old(root.tree), p)
      ensures Complete(old(root.tree), files) ==> changes == old(changes)
    {
      ghost var tree := root.tree;
      WrittenNone(tree, files);
      var rest := files.Keys;
      while rest != {}
        invariant rest <= files.Keys && root == TreeRoot(Written(tree, files, rest))
        invariant Free(tree, files, rest, readers)
        invariant Complete(tree, files) ==> changes == old(changes)
        decreases |rest|
      {
        var p :| p in rest;
        StepFacts(tree, files, rest, p, readers);
        r := WriteFile(p, files[p], p in readers);
        if r.Err? {
          return;
        }
        rest := rest - {p};
      }
      return Ok(());
    }

    /**
     * One file: kept if its content is right, otherwise removed and written. A special file cannot be removed: what is
     * written then goes into it, or the call raises (a socket), or it waits for a reader (a FIFO).
     */
    method WriteFile(p: Path, content: seq<Utf8.Byte>, read: bool) returns (r: Result<()>)
      requires root.TreeRoot? && Subtree(root.tree, p) <= {p} && (p in root.tree ==> !root.tree[p].Directory?)
      modifies this
      ensures !SpecialAt(old(root.tree), p) ==> r.Ok? && root == TreeRoot(old(root.tree)[p := File(content)])
      ensures SpecialAt(old(root.tree), p) ==>
                && root == old(root)
                && r == if Swallows(root.tree[p], read) then Ok(())
                        else if root.tree[p].kind.Socket? then Err(Obstructed) else Err(Hung)
      ensures p in old(root.tree) && old(root.tree)[p] == File(content) ==> changes == old(changes)
    {
      r := Ok(());
      if p in root.tree && root.tree[p] == File(content) {
        assert root.tree[p := File(content)] == root.tree;
        return;
      }
      if p in root.tree {
        Remove(p);
      }
      changes := changes + 1;
      if p !in root.tree {
        assert root.tree[p := File(content)] == old(root.tree)[p := File(content)];
        root := TreeRoot(root.tree[p := File(content)]);
      } else if !Swallows(root.tree[p], read) {
        r := if root.tree[p].kind.Socket? then Err(Obstructed) else Err(Hung);
      }
    }

    /** The root itself: a link or a file gives way to a directory, a special file cannot. */
    method MakeRoot() returns (ok: bool)
      modifies this
      ensures ok <==> !old(root).SpecialRoot?
      ensures ok ==> root == TreeRoot(Entries(old(root)))
      ensures !ok ==> root == old(root)
      ensures old(root).TreeRoot? ==> changes == old(changes)
    {
      if root.OtherRoot? {
        root, changes := NoRoot, changes + 1;
      }
      if root.NoRoot? {
        root, changes := TreeRoot(map[]), changes + 1;
      }
      return root.TreeRoot?;
    }

    /**
     * align. A bad reference changes nothing. Otherwise the tree becomes exactly the desired files and their parent
     * directories, but for the special files nothing could remove; the call does not get to its end exactly when one
     * of those stands where a directory must go, or is a socket or an unread FIFO where a file must go. Aligning a tree
     * that is already right changes nothing.
     */
    method Align(versions: Versions, refs: seq<Reference>, readers: set<Path>) returns (r: Result<()>)
      requires WellFormedRoot(root) && AllWellFormed(versions)
      modifies this
      ensures Desired(versions, refs).Err? ==>
                r == Err(Desired(versions, refs).error) && root == old(root) && changes == old(changes)
      ensures Desired(versions, refs).Ok? ==>
                (r.Ok? <==>
                 !old(root).SpecialRoot? && !Blocked(Entries(old(root)), Desired(versions, refs).value, readers))
      ensures r.Ok? ==> Desired(versions, refs).Ok?
                        && root == TreeRoot(Aligned(Entries(old(root)), Desired(versions, refs).value))
      ensures Desired(versions, refs).Ok? && Settled(old(root), Desired(versions, refs).value) ==>
                changes == old(changes)
    {
      var desired := DesiredFiles(versions, refs);
      if desired.Err? {
        return Err(desired.error);
      }
      DesiredPrefixFree(versions, refs);
      var ok := MakeRoot();
      if !ok {
        return Err(Obstructed);
      }
      r := AlignTree(desired.value, readers);
    }

    method AlignTree(files: Files, readers: set<Path>) returns (r: Result<()>)
      requires root.TreeRoot? && WellFormed(root.tree) && PrefixFree(files)
      modifies this
      ensures r.Ok? <==> !Blocked(old(root.tree), files, readers)
      ensures r.Ok? ==> root == TreeRoot(Aligned(old(root.tree), files))
      ensures Settled(old(root), files) ==> changes == old(changes)
    {
      ghost var tree := root.tree;
      var dirs := Parents(files);
      FilesAreNotParents(files);
      Prune(files, dirs);
      SettledSurvives(tree, files);
      r := Place(files, tree, readers);
    }

    method Place(files: Files, ghost tree: Tree, readers: set<Path>) returns (r: Result<()>)
      requires WellFormed(tree) && PrefixFree(files) && root == TreeRoot(Survivors(tree, files))
      modifies this
      ensures r.Ok? <==> !Blocked(tree, files, readers)
      ensures r.Ok? ==> root == TreeRoot(Aligned(tree, files))
      ensures Complete(Survivors(tree, files), files) && Parents(files) <= Survivors(tree, files).Keys ==>
                changes == old(changes)
    {
      BlockedByDirectory(tree, files);
      var ok := MakeDirectories(Parents(files));
      if !ok {
        return Err(Obstructed);
      }
      MadeIsOpen(tree, files);
      MadeIsFreeIff(tree, files, readers);
      r := WriteFiles(files, readers);
      if r.Ok? {
        AlignedAtLast(tree, files);
      }
    }
  }

  /** What one step of the file pass needs and gives. */
  lemma StepFacts(tree: Tree, files: Files, rest: set<Path>, p: Path, readers: set<Path>)
    requires Open(tree, files) && p in rest && p in files
    ensures var w := Written(tree, files, rest);
            && Subtree(w, p) <= {p}
            && (p in w ==> !w[p].Directory?)
            && (SpecialAt(w, p) <==> SpecialAt(tree, p)) && (SpecialAt(w, p) ==> w[p] == tree[p])
            && Written(tree, files, rest - {p}) == (if SpecialAt(w, p) then w else w[p := File(files[p])])
            && (Complete(tree, files) ==> p in w && w[p] == File(files[p]))
            && (if SpecialAt(w, p) && !Swallows(w[p], p in readers) then !Free(tree, files, {}, readers)
                else Free(tree, files, rest, readers) ==> Free(tree, files, rest - {p}, readers))
  {
    assert OpenAt(tree, p);
    WrittenOne(tree, files, rest, p);
    NothingBelow(tree, files, rest, p);
  }

  lemma NothingBelow(tree: Tree, files: Files, rest: set<Path>, p: Path)
    requires p in files && PrefixFree(files) && OpenAt(tree, p)
    ensures Subtree(Written(tree, files, rest), p) <= {p}
  {
    var w := Written(tree, files, rest);
    forall q | q in Subtree(w, p) ensures q == p {
      PrefixCases(p, q);
    }
  }

  /** Nothing but files or special files where files go, and nothing below those. */
  ghost predicate Open(tree: Tree, files: Files) {
    && PrefixFree(files)
    && forall p :: p in files ==> OpenAt(tree, p)
  }

  ghost predicate OpenAt(tree: Tree, p: Path) {
    (p in tree ==> tree[p].File? || tree[p].Special?) && forall q :: q in tree ==> !(p < q)
  }

  /** Nothing where files go, but for the rest, that writing would not get past. */
  ghost predicate Free(tree: Tree, files: Files, rest: set<Path>, readers: set<Path>) {
    forall p :: p in files && p !in rest && SpecialAt(tree, p) ==> Swallows(tree[p], p in readers)
  }

  predicate SocketAt(tree: Tree, p: Path) {
    SpecialAt(tree, p) && tree[p].kind.Socket?
  }

  /** A FIFO that nobody reads. */
  predicate WaitsAt(tree: Tree, p: Path, readers: set<Path>) {
    SpecialAt(tree, p) && tree[p].kind.Fifo? && p !in readers
  }

  /** Every file is there already. */
  ghost predicate Complete(tree: Tree, files: Files) {
    forall p :: p in files ==> p in tree && tree[p] == File(files[p])
  }

  lemma OnceOnly(order: seq<Path>, paths: set<Path>, i: nat)
    requires BottomUpOrder(order, paths) && i < |order|
    ensures order[i] !in Set(order[..i])
  {}

  // ---- What align ends with ----

  function Entries(root: Root): Tree {
    if root.TreeRoot? then root.tree else map[]
  }

  function Survivors(tree: Tree, files: Files): Tree {
    Pruned(tree, files, Parents(files), tree.Keys)
  }

  /** A special file stays where a directory must go, or one that cannot be written to where a file must go. */
  ghost predicate Blocked(tree: Tree, files: Files, readers: set<Path>) {
    exists p :: p in Stuck(tree, Parents(files)) &&
                (p in Parents(files) || (p in files && !Swallows(tree[p], p in readers)))
  }

  ghost predicate DirectoriesFree(tree: Tree, files: Files) {
    forall p :: p in Stuck(tree, Parents(files)) ==> p !in Parents(files)
  }

  /** The target, but for the special files nothing can remove. */
  function Aligned(tree: Tree, files: Files): Tree {
    Target(files) + Specials(tree, Stuck(tree, Parents(files)))
  }

  /** Nothing for align to do. */
  ghost predicate Settled(root: Root, files: Files) {
    && root.TreeRoot? && Complete(root.tree, files)
    && (forall d :: d in Parents(files) ==> d in root.tree)
    && AllKept(root.tree, files, Parents(files))
  }

  lemma FilesAreNotParents(files: Files)
    requires PrefixFree(files)
    ensures files.Keys !! Parents(files)
  {}

  /** An ancestor of a wanted entry is a wanted directory. */
  lemma AncestorsWanted(files: Files, p: Path, q: Path)
    requires q < p && q != [] && (p in files || p in Parents(files))
    ensures q in Parents(files)
  {}

  lemma SurvivorIs(tree: Tree, files: Files, p: Path)
    requires WellFormed(tree) && p in Survivors(tree, files)
    ensures p in tree && Survivors(tree, files)[p] == tree[p]
    ensures || (tree[p].File? && p in files) || (tree[p].Directory? && p in Parents(files))
            || p in Stuck(tree, Parents(files))
  {}

  lemma Survives(tree: Tree, files: Files, p: Path)
    requires WellFormed(tree) && p in tree
    requires || (tree[p].File? && p in files) || (tree[p].Directory? && p in Parents(files))
             || p in Stuck(tree, Parents(files))
    ensures p in Survivors(tree, files) && Survivors(tree, files)[p] == tree[p]
  {
    forall q | q in tree && q <= p ensures Keeps(files, Parents(files), q, tree[q]) {
      PrefixCases(q, p);
      if q < p && !tree[p].Special? {
        AncestorsWanted(files, p, q);
      }
    }
  }

  lemma BlockedByDirectory(tree: Tree, files: Files)
    requires WellFormed(tree) && PrefixFree(files)
    ensures var left := Survivors(tree, files);
            (forall d :: d in Parents(files) && d in left ==> left[d].Directory?) <==> DirectoriesFree(tree, files)
  {
    var left := Survivors(tree, files);
    FilesAreNotParents(files);
    forall d | d in Parents(files) && d in left && !left[d].Directory? ensures d in Stuck(tree, Parents(files)) {
      SurvivorIs(tree, files, d);
    }
    forall d | d in Stuck(tree, Parents(files)) ensures d in left && !left[d].Directory? {
      Survives(tree, files, d);
    }
  }

  lemma MadeIs(tree: Tree, files: Files, p: Path)
    requires WellFormed(tree) && p in Made(Survivors(tree, files), Parents(files))
    ensures p in files || p in Parents(files) || p in Stuck(tree, Parents(files))
  {}

  lemma NothingUnderFile(tree: Tree, files: Files, p: Path, q: Path)
    requires WellFormed(tree) && PrefixFree(files) && p in files
    requires q in files || q in Parents(files) || q in Stuck(tree, Parents(files))
    ensures !(p < q)
  {
    FilesAreNotParents(files);
    if q in Parents(files) {
      var r :| r in files && q < r;
      assert p < q ==> p < r;
    }
    if q in Stuck(tree, Parents(files)) {
      AboveStuck(tree, files, p, q);
    }
  }

  lemma AboveStuck(tree: Tree, files: Files, p: Path, q: Path)
    requires WellFormed(tree) && q in Stuck(tree, Parents(files)) && p != []
    ensures p < q ==> p in Parents(files)
  {
    if p < q {
      assert p in tree;
    }
  }

  lemma MadeIsOpen(tree: Tree, files: Files)
    requires WellFormed(tree) && PrefixFree(files)
    ensures Open(Made(Survivors(tree, files), Parents(files)), files)
  {
    var made := Made(Survivors(tree, files), Parents(files));
    forall p | p in files ensures OpenAt(made, p) {
      MadeAtFile(tree, files, p);
      forall q | q in made ensures !(p < q) {
        MadeIs(tree, files, q);
        NothingUnderFile(tree, files, p, q);
      }
    }
  }

  lemma MadeIsFreeIff(tree: Tree, files: Files, readers: set<Path>)
    requires WellFormed(tree) && PrefixFree(files) && DirectoriesFree(tree, files)
    ensures Free(Made(Survivors(tree, files), Parents(files)), files, {}, readers) <==> !Blocked(tree, files, readers)
  {
    var made := Made(Survivors(tree, files), Parents(files));
    forall p | p in files
      ensures SpecialAt(made, p) <==> p in Stuck(tree, Parents(files))
      ensures SpecialAt(made, p) ==> made[p] == tree[p] {
      MadeAtFile(tree, files, p);
    }
  }

  lemma MadeAtFile(tree: Tree, files: Files, p: Path)
    requires WellFormed(tree) && PrefixFree(files) && p in files
    ensures var made := Made(Survivors(tree, files), Parents(files));
            && (p in made ==> made[p].File? || made[p].Special?)
            && (SpecialAt(made, p) <==> p in Stuck(tree, Parents(files)))
            && (SpecialAt(made, p) ==> made[p] == tree[p])
  {
    FilesAreNotParents(files);
    if p in Survivors(tree, files) {
      SurvivorIs(tree, files, p);
    }
    if p in Stuck(tree, Parents(files)) {
      Survives(tree, files, p);
    }
  }

  lemma AlignedAt(tree: Tree, files: Files, p: Path)
    requires WellFormed(tree) && PrefixFree(files) && DirectoriesFree(tree, files)
    ensures SameAt(Written(Made(Survivors(tree, files), Parents(files)), files, {}), Aligned(tree, files), p)
  {
    FilesAreNotParents(files);
    if p in files {
      MadeAtFile(tree, files, p);
    } else if p in Parents(files) {
      MadeAtDirectory(tree, files, p);
    } else {
      MadeElsewhere(tree, files, p);
    }
  }

  lemma MadeAtDirectory(tree: Tree, files: Files, p: Path)
    requires WellFormed(tree) && PrefixFree(files) && DirectoriesFree(tree, files) && p in Parents(files)
    ensures var made := Made(Survivors(tree, files), Parents(files)); p in made && made[p].Directory?
  {
    FilesAreNotParents(files);
    if p in Survivors(tree, files) {
      SurvivorIs(tree, files, p);
    }
  }

  lemma MadeElsewhere(tree: Tree, files: Files, p: Path)
    requires WellFormed(tree) && p !in files && p !in Parents(files)
    ensures var made := Made(Survivors(tree, files), Parents(files));
            (p in made <==> p in Stuck(tree, Parents(files))) && (p in made ==> made[p] == tree[p])
  {
    if p in Survivors(tree, files) {
      SurvivorIs(tree, files, p);
    }
    if p in Stuck(tree, Parents(files)) {
      Survives(tree, files, p);
    }
  }

  lemma AlignedAtLast(tree: Tree, files: Files)
    requires WellFormed(tree) && PrefixFree(files) && DirectoriesFree(tree, files)
    ensures Written(Made(Survivors(tree, files), Parents(files)), files, {}) == Aligned(tree, files)
  {
    forall p ensures SameAt(Written(Made(Survivors(tree, files), Parents(files)), files, {}), Aligned(tree, files), p) {
      AlignedAt(tree, files, p);
    }
    SameTrees(Written(Made(Survivors(tree, files), Parents(files)), files, {}), Aligned(tree, files));
  }

  ghost predicate SameAt(a: Tree, b: Tree, p: Path) {
    (p in a <==> p in b) && (p in a ==> a[p] == b[p])
  }

  lemma SameTrees(a: Tree, b: Tree)
    requires forall p :: SameAt(a, b, p)
    ensures a == b
  {
    assert forall p :: SameAt(a, b, p) ==> (p in a <==> p in b);
    forall p | p in a ensures a[p] == b[p] {
      assert SameAt(a, b, p);
    }
  }

  lemma SettledSurvives(tree: Tree, files: Files)
    ensures Settled(TreeRoot(tree), files) ==> Survivors(tree, files) == tree
  {}

  /** The result is exactly the target if and only if nothing was stuck. */
  lemma AlignedExactIff(tree: Tree, files: Files)
    ensures Aligned(tree, files) == Target(files) <==> Stuck(tree, Parents(files)) == {}
  {
    var stuck := Stuck(tree, Parents(files));
    if stuck == {} {
      assert Specials(tree, stuck) == map[];
    } else {
      var p :| p in stuck;
      assert p in Aligned(tree, files) && Aligned(tree, files)[p].Special?;
      assert p in Target(files) ==> !Target(files)[p].Special?;
    }
  }

  ghost predicate AlignedFits(tree: Tree, files: Files, t: Tree, p: Path) {
    && (p in files ==> p in t && (t[p] == File(files[p]) <==> p !in Stuck(tree, Parents(files))))
    && (p in Parents(files) ==> p in t)
    && (p in t ==> Keeps(files, Parents(files), p, t[p]))
  }

  lemma AlignedKeeps(tree: Tree, files: Files, p: Path)
    requires PrefixFree(files) && DirectoriesFree(tree, files)
    ensures AlignedFits(tree, files, Aligned(tree, files), p)
  {
    FilesAreNotParents(files);
  }

  /** After an align a second one has nothing to do, if and only if no special file stands where a file must go. */
  lemma AlignedIsSettledIff(tree: Tree, files: Files)
    requires PrefixFree(files) && DirectoriesFree(tree, files)
    ensures Settled(TreeRoot(Aligned(tree, files)), files) <==>
            forall p :: p in Stuck(tree, Parents(files)) ==> p !in files
  {
    var t := Aligned(tree, files);
    forall p ensures AlignedFits(tree, files, t, p) {
      AlignedKeeps(tree, files, p);
    }
    assert forall p :: p in files ==> AlignedFits(tree, files, t, p);
    SettledIff(tree, files, t);
  }

  lemma SettledIff(tree: Tree, files: Files, t: Tree)
    requires forall p :: AlignedFits(tree, files, t, p)
    ensures Settled(TreeRoot(t), files) <==> forall p :: p in Stuck(tree, Parents(files)) ==> p !in files
  {
    forall p | p in files ensures p in t && (t[p] == File(files[p]) <==> p !in Stuck(tree, Parents(files))) {
      assert AlignedFits(tree, files, t, p);
    }
    forall d | d in Parents(files) ensures d in t {
      assert AlignedFits(tree, files, t, d);
    }
    forall p | p in t ensures Keeps(files, Parents(files), p, t[p]) {
      assert AlignedFits(tree, files, t, p);
    }
  }
}
