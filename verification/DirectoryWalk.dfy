/**
 * Packaging a directory: the walk that prunes hidden and excluded directories and turns every file
 * it keeps into a layer.
 */
module DirectoryWalk {
  import opened Prelude
  import opened Framing

  datatype FileType = Unknown | Gguf | Safetensors | Dduf | Config | License | ChatTemplate

  predicate IsWeight(t: FileType)
  {
    t == Gguf || t == Safetensors || t == Dduf
  }

  /** A layer: its path annotation, its media type, and the hash of its content. */
  datatype Layer = Layer(path: string, mediaType: string, digest: int)

  /**
   * An entry of a directory as the walk meets it. A file's digest is None when its layer cannot be
   * made; Broken is an entry that cannot be examined.
   */
  datatype Node =
    | File(name: string, link: bool, digest: Option<int>)
    | Dir(name: string, readable: bool, children: seq<Node>)
    | Broken(name: string)

  /** What is decided on: the name, the path below the root, and whether it is a directory. */
  datatype Step = Step(name: string, rel: string, isDir: bool)

  datatype Options = Options(exclusions: seq<string>, cncf: bool)

  /** Functions of the environment: glob matching, classification by name, media types. */
  datatype Env = Env(
    glob: (string, string) -> bool,
    classify: string -> FileType,
    mediaType: FileType -> string,
    remap: (string, string) -> string)

  function Join(parent: string, name: string): string
  {
    if parent == "" then name else parent + "/" + name
  }

  // ---- Exclusions -------------------------------------------------------------------------

  predicate Hidden(name: string)
  {
    HasPrefix(name, ".")
  }

  predicate IsGlob(p: string)
  {
    '*' in p || '?' in p || '[' in p || ']' in p
  }

  /** One pattern: a directory with a trailing slash, a path, a glob on the name, or a name. */
  predicate Matches(glob: (string, string) -> bool, s: Step, p: string)
  {
    if HasSuffix(p, "/") then
      var d := p[..|p| - 1];
      s.isDir && (s.name == d || s.rel == d || HasPrefix(s.rel, d + "/"))
    else if '/' in p then
      s.rel == p || (s.isDir && HasPrefix(s.rel + "/", p + "/")) || HasPrefix(s.rel, p + "/")
    else if IsGlob(p) then glob(p, s.name)
    else s.name == p
  }

  ghost predicate Excluded(glob: (string, string) -> bool, s: Step, patterns: seq<string>)
  {
    exists i :: 0 <= i < |patterns| && Matches(glob, s, patterns[i])
  }

  method ShouldExclude(glob: (string, string) -> bool, s: Step, patterns: seq<string>) returns (excluded: bool)
    ensures excluded <==> Excluded(glob, s, patterns)
  {
    for i := 0 to |patterns|
      invariant forall j :: 0 <= j < i ==> !Matches(glob, s, patterns[j])
    {
      var p := patterns[i];
      if HasSuffix(p, "/") {
        if s.isDir {
          var d := p[..|p| - 1];
          if s.name == d {
            return true;
          }
          if s.rel == d || HasPrefix(s.rel, d + "/") {
            return true;
          }
        }
        continue;
      }
      if '/' in p {
        if s.rel == p {
          return true;
        }
        if s.isDir && HasPrefix(s.rel + "/", p + "/") {
          return true;
        }
        if HasPrefix(s.rel, p + "/") {
          return true;
        }
        continue;
      }
      if IsGlob(p) {
        if glob(p, s.name) {
          return true;
        }
        continue;
      }
      if s.name == p {
        return true;
      }
    }
    return false;
  }

  ghost predicate Skipped(env: Env, s: Step, patterns: seq<string>)
  {
    Hidden(s.name) || Excluded(env.glob, s, patterns)
  }

  // ---- The flat view ----------------------------------------------------------------------

  /** A node of the tree with the decisions on the way to it: its ancestors below the root, then itself. */
  datatype Item = Item(trail: seq<Step>, node: Node)

  function StepTo(trail: seq<Step>, n: Node): Step
  {
    Step(n.name, Join(if trail == [] then "" else trail[|trail| - 1].rel, n.name), n.Dir?)
  }

  /** Every node of the tree, in walk order. */
  function Everything(nodes: seq<Node>, trail: seq<Step>): seq<Item>
    decreases nodes
  {
    if nodes == [] then []
    else
      var n := nodes[0];
      var t := trail + [StepTo(trail, n)];
      [Item(t, n)] + (if n.Dir? then Everything(n.children, t) else []) + Everything(nodes[1..], trail)
  }

  /** None of the first k steps is hidden or excluded. */
  ghost predicate Clear(env: Env, trail: seq<Step>, k: int, patterns: seq<string>)
  {
    forall i :: 0 <= i < |trail| && i < k ==> !Skipped(env, trail[i], patterns)
  }

  /** A file to package: not a link, and nothing on the way to it or itself hidden or excluded. */
  ghost predicate Wanted(env: Env, item: Item, patterns: seq<string>)
  {
    item.node.File? && !item.node.link && Clear(env, item.trail, |item.trail|, patterns)
  }

  /** A node that ends the walk with an error when it is reached. */
  ghost predicate Fatal(env: Env, item: Item, patterns: seq<string>)
  {
    && (item.node.Broken? || (item.node.Dir? && !item.node.readable)
        || (Wanted(env, item, patterns) && item.node.digest == None))
    && Clear(env, item.trail, |item.trail| - 1, patterns)
  }

  function LayerOf(env: Env, item: Item): (l: Layer)
    requires item.node.File? && item.node.digest != None && item.trail != []
  {
    Layer(item.trail[|item.trail| - 1].rel, env.mediaType(env.classify(item.node.name)), item.node.digest.value)
  }

  ghost function Filter(env: Env, items: seq<Item>, patterns: seq<string>): (kept: seq<Item>)
    ensures forall i :: 0 <= i < |kept| ==> kept[i] in items && Wanted(env, kept[i], patterns)
  {
    if items == [] then []
    else (if Wanted(env, items[0], patterns) then [items[0]] else []) + Filter(env, items[1..], patterns)
  }

  lemma {:induction false} FilterAppend(env: Env, a: seq<Item>, b: seq<Item>, patterns: seq<string>)
    ensures Filter(env, a + b, patterns) == Filter(env, a, patterns) + Filter(env, b, patterns)
  {
    hide Wanted;
    if a == [] {
      assert a + b == b;
    } else {
      assert (a + b)[1..] == a[1..] + b;
      FilterAppend(env, a[1..], b, patterns);
    }
  }

  lemma {:induction false} FilterNone(env: Env, items: seq<Item>, patterns: seq<string>)
    requires forall i :: 0 <= i < |items| ==> !Wanted(env, items[i], patterns)
    ensures Filter(env, items, patterns) == []
  {
    hide Wanted;
    if items != [] {
      FilterNone(env, items[1..], patterns);
    }
  }

  /** The walk can go on past all these nodes. */
  ghost predicate Safe(env: Env, items: seq<Item>, patterns: seq<string>)
  {
    forall i :: 0 <= i < |items| ==> !Fatal(env, items[i], patterns)
  }

  lemma SafeAppend(env: Env, a: seq<Item>, b: seq<Item>, patterns: seq<string>)
    ensures Safe(env, a + b, patterns) <==> Safe(env, a, patterns) && Safe(env, b, patterns)
  {
    hide Fatal;
    if Safe(env, a + b, patterns) {
      forall i | 0 <= i < |a| ensures !Fatal(env, a[i], patterns) { assert a[i] == (a + b)[i]; }
      forall i | 0 <= i < |b| ensures !Fatal(env, b[i], patterns) { assert b[i] == (a + b)[|a| + i]; }
    }
  }

  /** Everything below a directory has that directory's step on its trail. */
  lemma {:induction false} TrailsExtend(nodes: seq<Node>, trail: seq<Step>)
    ensures forall i :: 0 <= i < |Everything(nodes, trail)| ==>
      |trail| < |Everything(nodes, trail)[i].trail| && trail <= Everything(nodes, trail)[i].trail
    decreases nodes
  {
    if nodes != [] {
      var t := trail + [StepTo(trail, nodes[0])];
      if nodes[0].Dir? {
        TrailsExtend(nodes[0].children, t);
      }
      TrailsExtend(nodes[1..], trail);
    }
  }

  /** Nothing below a skipped directory is wanted, nor can it end the walk. */
  lemma PrunedSubtree(env: Env, children: seq<Node>, trail: seq<Step>, patterns: seq<string>)
    requires trail != [] && Skipped(env, trail[|trail| - 1], patterns)
    ensures Filter(env, Everything(children, trail), patterns) == []
    ensures Safe(env, Everything(children, trail), patterns)
  {
    hide Skipped, Everything;
    TrailsExtend(children, trail);
    var items, k := Everything(children, trail), |trail| - 1;
    forall i | 0 <= i < |items|
      ensures !Wanted(env, items[i], patterns) && !Fatal(env, items[i], patterns)
    {
      assert items[i].trail[k] == trail[k];
    }
    FilterNone(env, items, patterns);
  }

  // ---- The walk ---------------------------------------------------------------------------

  /** What the walk has gathered. */
  datatype Found = Found(layers: seq<Layer>, diffIDs: seq<int>, weightFiles: seq<string>, format: Option<FileType>)

  function Gather(f: Found, l: Layer, t: FileType): Found
  {
    Found(f.layers + [l], f.diffIDs + [l.digest],
          if IsWeight(t) then f.weightFiles + [l.path] else f.weightFiles,
          if IsWeight(t) && f.format == None then Some(t) else f.format)
  }

  ghost predicate Packable(items: seq<Item>)
  {
    forall i :: 0 <= i < |items| ==> items[i].node.File? && items[i].node.digest != None && items[i].trail != []
  }

  ghost function GatherAll(env: Env, f: Found, items: seq<Item>): Found
    requires Packable(items)
    decreases |items|
  {
    if items == [] then f
    else GatherAll(env, Gather(f, LayerOf(env, items[0]), env.classify(items[0].node.name)), items[1..])
  }

  lemma {:induction false} GatherAppend(env: Env, f: Found, a: seq<Item>, b: seq<Item>)
    requires Packable(a) && Packable(b)
    ensures Packable(a + b)
    ensures GatherAll(env, f, a + b) == GatherAll(env, GatherAll(env, f, a), b)
    decreases |a|
  {
    hide Gather;
    if a == [] {
      assert a + b == b;
    } else {
      assert (a + b)[1..] == a[1..] + b;
      GatherAppend(env, Gather(f, LayerOf(env, a[0]), env.classify(a[0].node.name)), a[1..], b);
    }
  }

  datatype Action = Proceed | SkipDir | Abort

  class Walker {
    const env: Env
    const exclusions: seq<string>
    var layers: seq<Layer>
    var diffIDs: seq<int>
    var weightFiles: seq<string>
    var format: Option<FileType>

    constructor (env: Env, exclusions: seq<string>)
      ensures this.env == env && this.exclusions == exclusions && Abs() == Found([], [], [], None)
    {
      this.env, this.exclusions := env, exclusions;
      layers, diffIDs, weightFiles, format := [], [], [], None;
    }

    ghost function Abs(): Found
      reads this
    {
      Found(layers, diffIDs, weightFiles, format)
    }

    /** The callback for one node below the root. */
    method Visit(n: Node, s: Step) returns (a: Action)
      requires s.isDir == n.Dir? && s.name == n.name
      modifies this
      ensures a.Abort? <==> n.Broken? || (n.Dir? && !n.readable) || (n.File? && !n.link && n.digest == None && !Skipped(env, s, exclusions))
      ensures a.SkipDir? <==> n.Dir? && n.readable && Skipped(env, s, exclusions)
      ensures !a.Abort? ==>
        Abs() == (
          if n.File? && !n.link && n.digest != None && !Skipped(env, s, exclusions)
          then Gather(old(Abs()), Layer(s.rel, env.mediaType(env.classify(n.name)), n.digest.value), env.classify(n.name))
          else old(Abs()))
    {
      hide Excluded;
      if n.Broken? || (n.Dir? && !n.readable) {
        return Abort;
      }
      if Hidden(n.name) {
        return if n.Dir? then SkipDir else Proceed;
      }
      var excluded := ShouldExclude(env.glob, s, exclusions);
      if excluded {
        return if n.Dir? then SkipDir else Proceed;
      }
      if n.Dir? || n.link {
        return Proceed;
      }
      var t := env.classify(n.name);
      if IsWeight(t) {
        if format == None {
          format := Some(t);
        }
        weightFiles := weightFiles + [s.rel];
      }
      if n.digest == None {
        return Abort;
      }
      layers := layers + [Layer(s.rel, env.mediaType(t), n.digest.value)];
      diffIDs := diffIDs + [n.digest.value];
      return Proceed;
    }

    /** The nodes of one directory, each with all that is below it. */
    method Walk(nodes: seq<Node>, trail: seq<Step>) returns (ok: bool)
      requires Clear(env, trail, |trail|, exclusions)
      modifies this
      ensures ok <==> Safe(env, Everything(nodes, trail), exclusions)
      ensures ok ==>
        var kept := Filter(env, Everything(nodes, trail), exclusions);
        Packable(kept) && Abs() == GatherAll(env, old(Abs()), kept)
      decreases nodes
    {
      hide Everything, Filter, Safe, Skipped, GatherAll, Packable;
      NoNodes(env, trail, exclusions, Abs());
      for i := 0 to |nodes|
        invariant Safe(env, Everything(nodes[..i], trail), exclusions)
        invariant
          var kept := Filter(env, Everything(nodes[..i], trail), exclusions);
          Packable(kept) && Abs() == GatherAll(env, old(Abs()), kept)
      {
        var n := nodes[i];
        var s := StepTo(trail, n);
        ghost var before, kept := Abs(), Filter(env, Everything(nodes[..i], trail), exclusions);
        NextNode(env, nodes, i, trail, exclusions);
        NodeDecision(env, n, trail, exclusions);
        var a := Visit(n, s);
        if a.Abort? {
          return false;
        }
        if a.Proceed? && n.Dir? {
          ok := Walk(n.children, trail + [s]);
          if !ok {
            return false;
          }
        }
        GatherMore(env, old(Abs()), before, kept, BlockKept(env, n, trail, exclusions));
      }
      ok := true;
      assert nodes[..|nodes|] == nodes;
    }
  }

  // ---- One node and all below it ----------------------------------------------------------

  function Block(n: Node, trail: seq<Step>): seq<Item>
  {
    var t := trail + [StepTo(trail, n)];
    [Item(t, n)] + if n.Dir? then Everything(n.children, t) else []
  }

  ghost function BlockKept(env: Env, n: Node, trail: seq<Step>, patterns: seq<string>): seq<Item>
  {
    Filter(env, Block(n, trail), patterns)
  }

  lemma {:induction false} EverythingAppend(a: seq<Node>, b: seq<Node>, trail: seq<Step>)
    ensures Everything(a + b, trail) == Everything(a, trail) + Everything(b, trail)
    decreases |a|
  {
    if a == [] {
      assert a + b == b;
    } else {
      assert (a + b)[1..] == a[1..] + b;
      EverythingAppend(a[1..], b, trail);
    }
  }

  lemma EverythingOne(n: Node, trail: seq<Step>)
    ensures Everything([n], trail) == Block(n, trail)
  {
    assert [n][1..] == [];
  }

  lemma NextNode(env: Env, nodes: seq<Node>, i: nat, trail: seq<Step>, patterns: seq<string>)
    requires i < |nodes|
    ensures Safe(env, Everything(nodes[..i + 1], trail), patterns) <==>
      Safe(env, Everything(nodes[..i], trail), patterns) && Safe(env, Block(nodes[i], trail), patterns)
    ensures Filter(env, Everything(nodes[..i + 1], trail), patterns)
      == Filter(env, Everything(nodes[..i], trail), patterns) + BlockKept(env, nodes[i], trail, patterns)
    ensures Safe(env, Everything(nodes, trail), patterns) ==> Safe(env, Block(nodes[i], trail), patterns)
  {
    hide Safe, Filter, Everything, Block;
    var before, block, after := Everything(nodes[..i], trail), Block(nodes[i], trail), Everything(nodes[i + 1..], trail);
    assert nodes[..i + 1] == nodes[..i] + [nodes[i]];
    assert nodes == nodes[..i + 1] + nodes[i + 1..];
    EverythingAppend(nodes[..i], [nodes[i]], trail);
    EverythingAppend(nodes[..i + 1], nodes[i + 1..], trail);
    EverythingOne(nodes[i], trail);
    SafeAppend(env, before, block, patterns);
    SafeAppend(env, before + block, after, patterns);
    FilterAppend(env, before, block, patterns);
  }

  /** What the decision on a node means for everything below it. */
  lemma NodeDecision(env: Env, n: Node, trail: seq<Step>, patterns: seq<string>)
    requires Clear(env, trail, |trail|, patterns)
    ensures var s := StepTo(trail, n);
      var t, skipped := trail + [s], Skipped(env, s, patterns);
      && Clear(env, trail, |trail|, patterns)
      && (!skipped ==> Clear(env, t, |t|, patterns))
      && (Safe(env, Block(n, trail), patterns) <==> (
          && !n.Broken? && (n.Dir? ==> n.readable)
          && (n.File? && !n.link && !skipped ==> n.digest != None)
          && (n.Dir? && !skipped ==> Safe(env, Everything(n.children, t), patterns))))
      && BlockKept(env, n, trail, patterns) == (
          if skipped || n.Broken? then []
          else if n.Dir? then Filter(env, Everything(n.children, t), patterns)
          else if n.link then [] else [Item(t, n)])
  {
    hide Skipped, Everything, Safe, Filter;
    var s := StepTo(trail, n);
    var t := trail + [s];
    var one, below := Item(t, n), if n.Dir? then Everything(n.children, t) else [];
    assert t[|trail|] == s;
    assert forall i :: 0 <= i < |trail| ==> t[i] == trail[i];
    assert Clear(env, t, |t| - 1, patterns);
    OneItem(env, one, patterns);
    NoNodes(env, trail, patterns, Found([], [], [], None));
    SafeAppend(env, [one], below, patterns);
    FilterAppend(env, [one], below, patterns);
    if n.Dir? && Skipped(env, s, patterns) {
      PrunedSubtree(env, n.children, t, patterns);
    }
  }

  lemma OneItem(env: Env, item: Item, patterns: seq<string>)
    ensures Safe(env, [item], patterns) <==> !Fatal(env, item, patterns)
    ensures Filter(env, [item], patterns) == if Wanted(env, item, patterns) then [item] else []
  {
    assert [item][0] == item && [item][1..] == [];
  }

  lemma GatherMore(env: Env, start: Found, before: Found, kept: seq<Item>, more: seq<Item>)
    requires Packable(kept) && before == GatherAll(env, start, kept)
    requires Packable(more)
    ensures Packable(kept + more) && GatherAll(env, start, kept + more) == GatherAll(env, before, more)
    ensures |more| == 1 ==>
      GatherAll(env, before, more) == Gather(before, LayerOf(env, more[0]), env.classify(more[0].node.name))
    ensures more == [] ==> GatherAll(env, before, more) == before
  {
    GatherAppend(env, start, kept, more);
  }

  lemma NoNodes(env: Env, trail: seq<Step>, patterns: seq<string>, f: Found)
    ensures Everything([], trail) == [] && Safe(env, [], patterns) && Filter(env, [], patterns) == []
    ensures Packable([]) && GatherAll(env, f, []) == f
  {
  }

  // ---- The whole build --------------------------------------------------------------------

  /** What the path to package turns out to be. The walk does not follow a link, even at the root. */
  datatype Root = Missing | NotADirectory | LinkToDirectory | Root(readable: bool, children: seq<Node>)

  datatype Result = Failed | Built(layers: seq<Layer>, diffIDs: seq<int>, weightFiles: seq<string>, format: FileType)

  /** The files to package, in walk order. */
  ghost function Packaged(env: Env, children: seq<Node>, patterns: seq<string>): seq<Item>
  {
    Filter(env, Everything(children, []), patterns)
  }

  ghost predicate SomeWeight(env: Env, items: seq<Item>)
  {
    exists i :: 0 <= i < |items| && IsWeight(env.classify(items[i].node.name))
  }

  function Output(env: Env, l: Layer, cncf: bool): Layer
  {
    if cncf then l.(mediaType := env.remap(l.mediaType, l.path)) else l
  }

  /** Hash i belongs to layer i, which was made from the i-th file. */
  ghost predicate InStep(env: Env, layers: seq<Layer>, diffIDs: seq<int>, items: seq<Item>, cncf: bool)
  {
    && |layers| == |diffIDs| == |items| && Packable(items)
    && forall i :: 0 <= i < |items| ==>
      layers[i] == Output(env, LayerOf(env, items[i]), cncf) && diffIDs[i] == items[i].node.digest.value
  }

  lemma {:induction false} GatherInStep(env: Env, f: Found, items: seq<Item>)
    requires Packable(items)
    ensures var g := GatherAll(env, f, items);
      && |g.layers| == |f.layers| + |items| && |g.diffIDs| == |f.diffIDs| + |items|
      && g.layers[..|f.layers|] == f.layers && g.diffIDs[..|f.diffIDs|] == f.diffIDs
      && forall i :: 0 <= i < |items| ==>
        g.layers[|f.layers| + i] == LayerOf(env, items[i]) && g.diffIDs[|f.diffIDs| + i] == items[i].node.digest.value
    decreases |items|
  {
    if items != [] {
      var h := Gather(f, LayerOf(env, items[0]), env.classify(items[0].node.name));
      GatherInStep(env, h, items[1..]);
      var g := GatherAll(env, f, items);
      assert g.layers[..|f.layers|] == g.layers[..|h.layers|][..|f.layers|];
      assert g.diffIDs[..|f.diffIDs|] == g.diffIDs[..|h.diffIDs|][..|f.diffIDs|];
      assert g.layers[|f.layers|] == g.layers[..|h.layers|][|f.layers|];
      assert g.diffIDs[|f.diffIDs|] == g.diffIDs[..|h.diffIDs|][|f.diffIDs|];
      forall i | 0 <= i < |items|
        ensures g.layers[|f.layers| + i] == LayerOf(env, items[i])
        ensures g.diffIDs[|f.diffIDs| + i] == items[i].node.digest.value
      {
        if i > 0 {
          assert items[i] == items[1..][i - 1];
        }
      }
    }
  }

  /** The format is that of the first weight file; there is one exactly when there is a weight file. */
  ghost predicate FirstWeight(env: Env, items: seq<Item>, t: FileType)
  {
    exists i :: 0 <= i < |items| && t == env.classify(items[i].node.name) && IsWeight(t)
      && forall j :: 0 <= j < i ==> !IsWeight(env.classify(items[j].node.name))
  }

  lemma {:induction false} GatherFormat(env: Env, f: Found, items: seq<Item>)
    requires Packable(items) && (f.format == None <==> f.weightFiles == [])
    ensures var g := GatherAll(env, f, items);
      && (g.format == None <==> g.weightFiles == [])
      && (g.format == None <==> f.format == None && !SomeWeight(env, items))
      && (f.format != None ==> g.format == f.format)
      && (f.format == None && g.format != None ==> FirstWeight(env, items, g.format.value))
    decreases |items|
  {
    if items != [] {
      var t := env.classify(items[0].node.name);
      var h := Gather(f, LayerOf(env, items[0]), t);
      GatherFormat(env, h, items[1..]);
      var g := GatherAll(env, f, items);
      if SomeWeight(env, items[1..]) {
        var i :| 0 <= i < |items[1..]| && IsWeight(env.classify(items[1..][i].node.name));
        assert IsWeight(env.classify(items[i + 1].node.name));
      }
      if SomeWeight(env, items) && !IsWeight(t) {
        var i :| 0 <= i < |items| && IsWeight(env.classify(items[i].node.name));
        assert items[1..][i - 1] == items[i];
      }
      if f.format == None && g.format != None && !IsWeight(t) {
        var i :| 0 <= i < |items[1..]| && g.format.value == env.classify(items[1..][i].node.name) && IsWeight(g.format.value)
          && forall j :: 0 <= j < i ==> !IsWeight(env.classify(items[1..][j].node.name));
        forall j | 0 <= j < i + 1 ensures !IsWeight(env.classify(items[j].node.name)) {
          if j > 0 {
            assert items[j] == items[1..][j - 1];
          }
        }
        assert items[i + 1] == items[1..][i];
      }
    }
  }

  /** The weight files among the files, in order. */
  ghost function WeightPaths(env: Env, items: seq<Item>): seq<string>
    requires Packable(items)
  {
    if items == [] then []
    else
      (if IsWeight(env.classify(items[0].node.name)) then [LayerOf(env, items[0]).path] else [])
      + WeightPaths(env, items[1..])
  }

  lemma {:induction false} GatherWeights(env: Env, f: Found, items: seq<Item>)
    requires Packable(items)
    ensures GatherAll(env, f, items).weightFiles == f.weightFiles + WeightPaths(env, items)
    decreases |items|
  {
    if items == [] {
      assert f.weightFiles + [] == f.weightFiles;
    } else {
      var h := Gather(f, LayerOf(env, items[0]), env.classify(items[0].node.name));
      var own := if IsWeight(env.classify(items[0].node.name)) then [LayerOf(env, items[0]).path] else [];
      GatherWeights(env, h, items[1..]);
      assert h.weightFiles == f.weightFiles + own;
      assert f.weightFiles + own + WeightPaths(env, items[1..]) == f.weightFiles + (own + WeightPaths(env, items[1..]));
    }
  }

  /**
   * The build succeeds exactly when the walk meets nothing fatal and keeps at least one weight file;
   * then the model has one layer for each file to package, in walk order, with its hash in step, and
   * the metadata is read from exactly the weight files among them, in the format of the first.
   */
  method FromDirectory(env: Env, root: Root, options: Options) returns (r: Result)
    ensures r.Built? <==>
      root.Root? && root.readable && Safe(env, Everything(root.children, []), options.exclusions)
      && SomeWeight(env, Packaged(env, root.children, options.exclusions))
    ensures r.Built? ==>
      var items := Packaged(env, root.children, options.exclusions);
      InStep(env, r.layers, r.diffIDs, items, options.cncf) && FirstWeight(env, items, r.format)
      && r.weightFiles == WeightPaths(env, items)
  {
    hide Everything, Filter, Safe, GatherAll, SomeWeight, FirstWeight, WeightPaths;
    if !root.Root? || !root.readable {
      return Failed;
    }
    var w := new Walker(env, options.exclusions);
    var ok := w.Walk(root.children, []);
    if !ok {
      return Failed;
    }
    ghost var items := Packaged(env, root.children, options.exclusions);
    GatheredResult(env, items, w.Abs());
    if |w.layers| == 0 {
      return Failed;
    }
    if |w.weightFiles| == 0 {
      return Failed;
    }
    if !options.cncf {
      return Built(w.layers, w.diffIDs, w.weightFiles, w.format.value);
    }
    var layers, diffIDs := Remap(env, w.layers, w.diffIDs);
    return Built(layers, diffIDs, w.weightFiles, w.format.value);
  }

  /** The layers of the other output format: new media types, the hashes still in step. */
  method Remap(env: Env, from: seq<Layer>, hashes: seq<int>) returns (layers: seq<Layer>, diffIDs: seq<int>)
    requires |from| == |hashes|
    ensures |layers| == |diffIDs| == |from|
    ensures forall j :: 0 <= j < |from| ==> layers[j] == Output(env, from[j], true) && diffIDs[j] == hashes[j]
  {
    layers, diffIDs := [], [];
    for i := 0 to |from|
      invariant |layers| == |diffIDs| == i
      invariant forall j :: 0 <= j < i ==> layers[j] == Output(env, from[j], true) && diffIDs[j] == hashes[j]
    {
      var l := from[i];
      layers := layers + [l.(mediaType := env.remap(l.mediaType, l.path))];
      diffIDs := diffIDs + [hashes[i]];
    }
  }

  lemma GatheredResult(env: Env, items: seq<Item>, f: Found)
    requires Packable(items) && f == GatherAll(env, Found([], [], [], None), items)
    ensures |f.layers| == |f.diffIDs| == |items|
    ensures forall i :: 0 <= i < |items| ==> f.layers[i] == LayerOf(env, items[i]) && f.diffIDs[i] == items[i].node.digest.value
    ensures f.weightFiles == WeightPaths(env, items)
    ensures f.weightFiles == [] <==> !SomeWeight(env, items)
    ensures f.layers == [] ==> f.weightFiles == []
    ensures f.weightFiles != [] ==> f.format != None && FirstWeight(env, items, f.format.value)
  {
    hide *;
    GatherFresh(env, items, f);
    GatherFormat(env, Found([], [], [], None), items);
    GatherWeights(env, Found([], [], [], None), items);
    assert [] + WeightPaths(env, items) == WeightPaths(env, items);
  }

  lemma GatherFresh(env: Env, items: seq<Item>, f: Found)
    requires Packable(items) && f == GatherAll(env, Found([], [], [], None), items)
    ensures |f.layers| == |f.diffIDs| == |items|
    ensures forall i :: 0 <= i < |items| ==> f.layers[i] == LayerOf(env, items[i]) && f.diffIDs[i] == items[i].node.digest.value
  {
    hide GatherAll, LayerOf;
    GatherInStep(env, Found([], [], [], None), items);
    forall i | 0 <= i < |items|
      ensures f.layers[i] == LayerOf(env, items[i]) && f.diffIDs[i] == items[i].node.digest.value
    {
      assert f.layers[0 + i] == LayerOf(env, items[i]);
    }
  }

  // ---- Pruning and filtering agree --------------------------------------------------------

  /** Of the nodes of the whole tree, the wanted ones are packaged, each as often as it occurs. */
  lemma {:induction false} FilterExact(env: Env, items: seq<Item>, patterns: seq<string>, x: Item)
    ensures multiset(Filter(env, items, patterns))[x] == if Wanted(env, x, patterns) then multiset(items)[x] else 0
  {
    hide Wanted;
    if items != [] {
      FilterExact(env, items[1..], patterns, x);
      assert items == [items[0]] + items[1..];
    }
  }

  // ---- No path twice ----------------------------------------------------------------------

  /** What a file system guarantees: names without slashes, no two alike in one directory. */
  ghost predicate WellNamed(nodes: seq<Node>)
    decreases nodes
  {
    nodes == [] ||
    (&& nodes[0].name != "" && '/' !in nodes[0].name
     && (forall k :: 0 < k < |nodes| ==> nodes[k].name != nodes[0].name)
     && (nodes[0].Dir? ==> WellNamed(nodes[0].children))
     && WellNamed(nodes[1..]))
  }

  function RelOf(trail: seq<Step>): string
  {
    if trail == [] then "" else trail[|trail| - 1].rel
  }

  /** The path is base or lies below it. */
  predicate Under(rel: string, base: string)
  {
    rel == base || HasPrefix(rel, base + "/")
  }

  lemma UnderTrans(rel: string, mid: string, name: string, base: string)
    requires Under(rel, mid) && mid == base + "/" + name
    ensures HasPrefix(rel, base + "/") && rel != base
  {
  }

  /** A path lies below at most one entry of a directory. */
  lemma UnderOne(rel: string, parent: string, x: string, y: string)
    requires '/' !in x && '/' !in y
    requires Under(rel, Join(parent, x)) && Under(rel, Join(parent, y))
    ensures x == y
  {
    var from := if parent == "" then 0 else |parent| + 1;
    NameAt(rel, parent, x, from);
    NameAt(rel, parent, y, from);
    assert |x| == |y|;
  }

  lemma NameAt(rel: string, parent: string, x: string, from: nat)
    requires '/' !in x && Under(rel, Join(parent, x)) && from == if parent == "" then 0 else |parent| + 1
    ensures from + |x| <= |rel| && rel[from..from + |x|] == x
    ensures forall k :: from <= k < from + |x| ==> rel[k] != '/'
    ensures from + |x| < |rel| ==> rel[from + |x|] == '/'
  {
    assert Join(parent, x)[from..] == x;
    assert forall k :: from <= k < from + |x| ==> rel[k] == x[k - from];
  }

  ghost predicate UnderSome(nodes: seq<Node>, parent: string, rel: string)
  {
    exists k :: 0 <= k < |nodes| && Under(rel, Join(parent, nodes[k].name))
  }

  lemma {:induction false} AllUnder(nodes: seq<Node>, trail: seq<Step>)
    requires WellNamed(nodes) && (trail != [] ==> RelOf(trail) != "")
    ensures forall item :: item in Everything(nodes, trail) ==> item.trail != [] && UnderSome(nodes, RelOf(trail), RelOf(item.trail))
    decreases nodes
  {
    if nodes != [] {
      var n := nodes[0];
      var t := trail + [StepTo(trail, n)];
      if n.Dir? {
        AllUnder(n.children, t);
      }
      AllUnder(nodes[1..], trail);
      forall item | item in Everything(nodes, trail)
        ensures item.trail != [] && UnderSome(nodes, RelOf(trail), RelOf(item.trail))
      {
        if item == Item(t, n) {
          assert Under(RelOf(t), Join(RelOf(trail), nodes[0].name));
        } else if n.Dir? && item in Everything(n.children, t) {
          BelowIsUnder(n.children, RelOf(t), RelOf(item.trail));
          assert Under(RelOf(item.trail), Join(RelOf(trail), nodes[0].name));
        } else {
          var k :| 0 <= k < |nodes[1..]| && Under(RelOf(item.trail), Join(RelOf(trail), nodes[1..][k].name));
          assert Under(RelOf(item.trail), Join(RelOf(trail), nodes[k + 1].name));
        }
      }
    }
  }

  lemma BelowIsUnder(children: seq<Node>, base: string, rel: string)
    requires base != "" && UnderSome(children, base, rel)
    ensures HasPrefix(rel, base + "/") && rel != base
  {
    var k :| 0 <= k < |children| && Under(rel, Join(base, children[k].name));
    UnderTrans(rel, Join(base, children[k].name), children[k].name, base);
  }

  ghost predicate DistinctPaths(items: seq<Item>)
  {
    forall i, j :: 0 <= i < j < |items| ==> RelOf(items[i].trail) != RelOf(items[j].trail)
  }

  lemma DistinctAppend(a: seq<Item>, b: seq<Item>)
    requires DistinctPaths(a) && DistinctPaths(b)
    requires forall x, y :: x in a && y in b ==> RelOf(x.trail) != RelOf(y.trail)
    ensures DistinctPaths(a + b)
  {
  }

  lemma {:induction false} EverythingDistinct(nodes: seq<Node>, trail: seq<Step>)
    requires WellNamed(nodes) && (trail != [] ==> RelOf(trail) != "")
    ensures DistinctPaths(Everything(nodes, trail))
    decreases nodes
  {
    if nodes != [] {
      var n := nodes[0];
      var t := trail + [StepTo(trail, n)];
      var one, below, rest := [Item(t, n)], if n.Dir? then Everything(n.children, t) else [], Everything(nodes[1..], trail);
      EverythingDistinct(nodes[1..], trail);
      AllUnder(nodes[1..], trail);
      if n.Dir? {
        EverythingDistinct(n.children, t);
        AllUnder(n.children, t);
        forall y | y in below ensures RelOf(y.trail) != RelOf(t) && Under(RelOf(y.trail), RelOf(t)) {
          BelowIsUnder(n.children, RelOf(t), RelOf(y.trail));
        }
      }
      DistinctAppend(one, below);
      forall x, y | x in one + below && y in rest ensures RelOf(x.trail) != RelOf(y.trail) {
        assert Under(RelOf(x.trail), Join(RelOf(trail), n.name));
        RestElsewhere(nodes, RelOf(trail), RelOf(y.trail));
      }
      DistinctAppend(one + below, rest);
    }
  }

  lemma RestElsewhere(nodes: seq<Node>, parent: string, rel: string)
    requires WellNamed(nodes) && nodes != [] && UnderSome(nodes[1..], parent, rel)
    ensures !Under(rel, Join(parent, nodes[0].name))
  {
    var k :| 0 <= k < |nodes[1..]| && Under(rel, Join(parent, nodes[1..][k].name));
    NamesPlain(nodes[1..], k);
    if Under(rel, Join(parent, nodes[0].name)) {
      UnderOne(rel, parent, nodes[0].name, nodes[k + 1].name);
      assert false;
    }
  }

  lemma {:induction false} NamesPlain(nodes: seq<Node>, k: nat)
    requires WellNamed(nodes) && k < |nodes|
    ensures '/' !in nodes[k].name
    decreases k
  {
    if k > 0 {
      NamesPlain(nodes[1..], k - 1);
    }
  }

  lemma {:induction false} FilterDistinct(env: Env, items: seq<Item>, patterns: seq<string>)
    requires DistinctPaths(items)
    ensures DistinctPaths(Filter(env, items, patterns))
  {
    hide Wanted;
    if items != [] {
      assert DistinctPaths(items[1..]) by {
        assert forall i :: 0 <= i < |items[1..]| ==> items[1..][i] == items[i + 1];
      }
      FilterDistinct(env, items[1..], patterns);
      var kept := Filter(env, items[1..], patterns);
      forall x, y | x in [items[0]] && y in kept ensures RelOf(x.trail) != RelOf(y.trail) {
        var k :| 0 <= k < |items[1..]| && items[1..][k] == y;
        assert items[k + 1] == y;
      }
      DistinctAppend([items[0]], kept);
      assert [] + kept == kept;
    }
  }

  /** Every file to package has a path of its own, so no two layers carry the same annotation. */
  lemma NoPathTwice(env: Env, children: seq<Node>, patterns: seq<string>)
    requires WellNamed(children)
    ensures DistinctPaths(Packaged(env, children, patterns))
  {
    hide Everything, Filter, WellNamed, DistinctPaths;
    EverythingDistinct(children, []);
    FilterDistinct(env, Everything(children, []), patterns);
  }

  /** A directory excluded by a path takes along exactly what the same pattern excludes below it anyway. */
  lemma PathPatternCoversSubtree(glob: (string, string) -> bool, s: Step, below: Step, p: string)
    requires '/' in p && !HasSuffix(p, "/")
    requires Matches(glob, s, p) && HasPrefix(below.rel, s.rel + "/")
    ensures Matches(glob, below, p)
  {
  }

  /** A pattern with a trailing slash never excludes a file by itself; one with a slash is never a glob. */
  lemma SlashPatterns(glob: (string, string) -> bool, other: (string, string) -> bool, s: Step, p: string)
    ensures HasSuffix(p, "/") && !s.isDir ==> !Matches(glob, s, p)
    ensures '/' in p ==> Matches(glob, s, p) == Matches(other, s, p)
  {
    if HasSuffix(p, "/") {
      assert p[|p| - 1..][0] == '/';
    }
  }

  // ---- Which steps of a path decide -------------------------------------------------------

  /** Every step lies below those before it. */
  ghost predicate Chained(trail: seq<Step>)
  {
    forall i, j :: 0 <= i < j < |trail| ==> HasPrefix(trail[j].rel, trail[i].rel + "/")
  }

  lemma ChainedNext(trail: seq<Step>, n: Node)
    requires Chained(trail) && n.name != "" && (trail != [] ==> RelOf(trail) != "")
    ensures Chained(trail + [StepTo(trail, n)]) && RelOf(trail + [StepTo(trail, n)]) != ""
  {
    var t := trail + [StepTo(trail, n)];
    forall i, j | 0 <= i < j < |t| ensures HasPrefix(t[j].rel, t[i].rel + "/") {
      if j == |trail| && i < |trail| - 1 {
        assert HasPrefix(trail[|trail| - 1].rel, trail[i].rel + "/");
      }
    }
  }

  lemma {:induction false} AllChained(nodes: seq<Node>, trail: seq<Step>)
    requires WellNamed(nodes) && Chained(trail) && (trail != [] ==> RelOf(trail) != "")
    ensures forall item :: item in Everything(nodes, trail) ==>
      item.trail != [] && Chained(item.trail) && item.trail[|item.trail| - 1].isDir == item.node.Dir?
    decreases nodes
  {
    hide Chained;
    if nodes != [] {
      ChainedNext(trail, nodes[0]);
      if nodes[0].Dir? {
        AllChained(nodes[0].children, trail + [StepTo(trail, nodes[0])]);
      }
      AllChained(nodes[1..], trail);
    }
  }

  ghost predicate NoneHidden(trail: seq<Step>)
  {
    forall i :: 0 <= i < |trail| ==> !Hidden(trail[i].name)
  }

  /**
   * With path patterns alone pruning and looking at each file by itself select the same files: one is
   * packaged exactly when it is no link, nothing on its path is hidden, and its own path is not excluded.
   */
  lemma PathPatternsDecideAlone(env: Env, children: seq<Node>, patterns: seq<string>, item: Item)
    requires WellNamed(children) && item in Everything(children, [])
    requires forall k :: 0 <= k < |patterns| ==> '/' in patterns[k] && !HasSuffix(patterns[k], "/")
    ensures item.trail != []
    ensures Wanted(env, item, patterns) <==>
      item.node.File? && !item.node.link && NoneHidden(item.trail)
      && !Excluded(env.glob, item.trail[|item.trail| - 1], patterns)
  {
    AllChained(children, []);
    hide Matches, Hidden, HasPrefix, HasSuffix;
    var t, last := item.trail, |item.trail| - 1;
    forall i | 0 <= i < |t| && Excluded(env.glob, t[i], patterns) ensures Excluded(env.glob, t[last], patterns) {
      var k :| 0 <= k < |patterns| && Matches(env.glob, t[i], patterns[k]);
      if i < last {
        PathPatternCoversSubtree(env.glob, t[i], t[last], patterns[k]);
      }
      assert Matches(env.glob, t[last], patterns[k]);
    }
  }

  /** Patterns with a trailing slash never decide on a file itself, only on its directories. */
  lemma DirectoryPatternsDecideAbove(env: Env, children: seq<Node>, patterns: seq<string>, item: Item)
    requires WellNamed(children) && item in Everything(children, [])
    requires forall k :: 0 <= k < |patterns| ==> HasSuffix(patterns[k], "/")
    ensures item.trail != []
    ensures Wanted(env, item, patterns) <==>
      item.node.File? && !item.node.link && !Hidden(item.trail[|item.trail| - 1].name)
      && Clear(env, item.trail, |item.trail| - 1, patterns)
  {
    AllChained(children, []);
    var last := item.trail[|item.trail| - 1];
    forall k | 0 <= k < |patterns| && item.node.File? ensures !Matches(env.glob, last, patterns[k]) {
      SlashPatterns(env.glob, env.glob, last, patterns[k]);
    }
  }

  /** Patterns with a slash are no globs: what is packaged does not depend on glob matching. */
  lemma SlashPatternsIgnoreGlobs(env: Env, other: (string, string) -> bool, children: seq<Node>, patterns: seq<string>)
    requires forall k :: 0 <= k < |patterns| ==> '/' in patterns[k]
    ensures Packaged(env, children, patterns) == Packaged(env.(glob := other), children, patterns)
  {
    forall s: Step ensures Skipped(env, s, patterns) == Skipped(env.(glob := other), s, patterns) {
      SameExclusions(env.glob, other, s, patterns);
    }
    SameFilter(env, env.(glob := other), Everything(children, []), patterns);
  }

  lemma SameExclusions(glob: (string, string) -> bool, other: (string, string) -> bool, s: Step, patterns: seq<string>)
    requires forall k :: 0 <= k < |patterns| ==> '/' in patterns[k]
    ensures Excluded(glob, s, patterns) == Excluded(other, s, patterns)
  {
    hide Matches;
    forall k | 0 <= k < |patterns| ensures Matches(glob, s, patterns[k]) == Matches(other, s, patterns[k]) {
      SlashPatterns(glob, other, s, patterns[k]);
    }
  }

  lemma {:induction false} SameFilter(env: Env, other: Env, items: seq<Item>, patterns: seq<string>)
    requires forall s: Step :: Skipped(env, s, patterns) == Skipped(other, s, patterns)
    ensures Filter(env, items, patterns) == Filter(other, items, patterns)
  {
    hide Skipped;
    if items != [] {
      SameFilter(env, other, items[1..], patterns);
    }
  }

  // ---- What the patterns mean -------------------------------------------------------------

  /** The steps spell a path: each name is plain, each path is the one before it, a slash and the name. */
  ghost predicate Spelled(trail: seq<Step>)
  {
    forall i :: 0 <= i < |trail| ==> SpelledAt(trail, i)
  }

  ghost predicate SpelledAt(trail: seq<Step>, i: nat)
    requires i < |trail|
  {
    && trail[i].name != "" && '/' !in trail[i].name
    && trail[i].rel == if i == 0 then trail[i].name else trail[i - 1].rel + "/" + trail[i].name
  }

  ghost predicate AllDirectories(trail: seq<Step>, k: int)
  {
    forall i :: 0 <= i < |trail| && i < k ==> trail[i].isDir
  }

  lemma SpelledNext(trail: seq<Step>, n: Node)
    requires Spelled(trail) && n.name != "" && '/' !in n.name
    ensures Spelled(trail + [StepTo(trail, n)])
  {
    var t := trail + [StepTo(trail, n)];
    forall i | 0 <= i < |t| ensures SpelledAt(t, i) {
      if i < |trail| {
        assert SpelledAt(trail, i);
      } else if i > 0 {
        assert SpelledAt(trail, i - 1) && |trail[i - 1].rel| > 0;
      }
    }
  }

  /** The way to a node of the tree spells its path through directories. */
  lemma {:induction false} AllSpelled(nodes: seq<Node>, trail: seq<Step>)
    requires WellNamed(nodes) && Spelled(trail) && AllDirectories(trail, |trail|)
    ensures forall item :: item in Everything(nodes, trail) ==>
      && item.trail != [] && Spelled(item.trail) && AllDirectories(item.trail, |item.trail| - 1)
      && item.trail[|item.trail| - 1].name == item.node.name
      && item.trail[|item.trail| - 1].isDir == item.node.Dir?
    decreases nodes
  {
    hide Spelled;
    if nodes != [] {
      SpelledNext(trail, nodes[0]);
      if nodes[0].Dir? {
        AllSpelled(nodes[0].children, trail + [StepTo(trail, nodes[0])]);
      }
      AllSpelled(nodes[1..], trail);
    }
  }

  /**
   * What a pattern names: a trailing slash, the directories of that name or path; a slash, the entry at
   * that path; otherwise the entries whose name matches the glob, or is the pattern itself.
   */
  predicate Named(glob: (string, string) -> bool, s: Step, p: string)
  {
    if |p| > 0 && p[|p| - 1] == '/' then s.isDir && (s.name + "/" == p || s.rel + "/" == p)
    else if '/' in p then s.rel == p
    else if exists c :: c in p && c in "*?[]" then glob(p, s.name)
    else s.name == p
  }

  /** A path that begins with base and a slash passes through base. */
  lemma {:induction false} PassesThrough(trail: seq<Step>, i: nat, base: string) returns (j: nat)
    requires i < |trail| && Spelled(trail) && HasPrefix(trail[i].rel + "/", base + "/")
    ensures j <= i && trail[j].rel == base
  {
    var rel, name := trail[i].rel, trail[i].name;
    assert SpelledAt(trail, i);
    assert (rel + "/")[|base|] == '/' && (rel + "/")[..|base|] == base;
    j := i;
    if |base| == |rel| {
      assert (rel + "/")[..|rel|] == rel;
    } else {
      SlashBefore(rel, name, |base|);
      assert i > 0;
      var parent := trail[i - 1].rel;
      assert (parent + "/")[..|base| + 1] == (rel + "/")[..|base| + 1];
      j := PassesThrough(trail, i - 1, base);
    }
  }

  /** A slash in a path stands before its last name. */
  lemma SlashBefore(rel: string, name: string, at: nat)
    requires '/' !in name && |name| <= |rel| && rel[|rel| - |name|..] == name && at < |rel| && rel[at] == '/'
    ensures at < |rel| - |name|
  {
    var from := |rel| - |name|;
    assert forall k :: from <= k < |rel| ==> rel[k] == name[k - from];
  }

  /** A pattern that excludes a step names it or a step before it. */
  lemma MatchIsNamed(glob: (string, string) -> bool, trail: seq<Step>, i: nat, p: string) returns (j: nat)
    requires i < |trail| && Spelled(trail) && AllDirectories(trail, |trail| - 1) && Matches(glob, trail[i], p)
    ensures j <= i && Named(glob, trail[j], p)
  {
    var s := trail[i];
    j := i;
    if HasSuffix(p, "/") {
      var d := p[..|p| - 1];
      SuffixSlash(p);
      if s.name != d {
        j := PassesThrough(trail, i, d);
      }
    } else if '/' in p {
      j := PassesThrough(trail, i, p);
    }
  }

  lemma SuffixSlash(p: string)
    requires HasSuffix(p, "/")
    ensures |p| > 0 && p[|p| - 1] == '/' && p == p[..|p| - 1] + "/"
  {
    assert p[|p| - 1..][0] == '/';
  }

  lemma NamedMatches(glob: (string, string) -> bool, s: Step, p: string)
    requires Named(glob, s, p)
    ensures Matches(glob, s, p)
  {
    if |p| > 0 && p[|p| - 1] == '/' {
      assert p[|p| - 1..] == "/";
      assert (s.name + "/")[..|s.name|] == s.name && (s.rel + "/")[..|s.rel|] == s.rel;
    } else if HasSuffix(p, "/") {
      SuffixSlash(p);
    }
  }

  /**
   * Whatever the patterns: a file is packaged exactly when it is no link, no name on the way to it is
   * hidden, and no pattern names it or a directory above it.
   */
  lemma PackagedExact(env: Env, children: seq<Node>, patterns: seq<string>, item: Item)
    requires WellNamed(children) && item in Everything(children, [])
    ensures Wanted(env, item, patterns) <==>
      && item.node.File? && !item.node.link
      && (forall i :: 0 <= i < |item.trail| ==> !HasPrefix(item.trail[i].name, "."))
      && (forall i, k :: 0 <= i < |item.trail| && 0 <= k < |patterns| ==> !Named(env.glob, item.trail[i], patterns[k]))
  {
    AllSpelled(children, []);
    hide Matches, Named, Spelled, Everything, WellNamed;
    var t := item.trail;
    forall i, k | 0 <= i < |t| && 0 <= k < |patterns| && Matches(env.glob, t[i], patterns[k])
      ensures exists j :: 0 <= j < |t| && Named(env.glob, t[j], patterns[k])
    {
      var j := MatchIsNamed(env.glob, t, i, patterns[k]);
    }
    forall i, k | 0 <= i < |t| && 0 <= k < |patterns| && Named(env.glob, t[i], patterns[k])
      ensures Matches(env.glob, t[i], patterns[k])
    {
      NamedMatches(env.glob, t[i], patterns[k]);
    }
  }

  // ---- The whole tree is walked -----------------------------------------------------------

  /** Going down by these names leads to n. */
  ghost predicate Leads(nodes: seq<Node>, names: seq<string>, n: Node)
    decreases |names|
  {
    names != [] &&
    exists k :: 0 <= k < |nodes| && nodes[k].name == names[0]
      && (if |names| == 1 then nodes[k] == n else nodes[k].Dir? && Leads(nodes[k].children, names[1..], n))
  }

  ghost predicate LeadsFrom(m: Node, names: seq<string>, n: Node)
  {
    names != [] && m.name == names[0] && if |names| == 1 then m == n else m.Dir? && Leads(m.children, names[1..], n)
  }

  lemma LeadsFirst(nodes: seq<Node>, names: seq<string>, n: Node)
    requires nodes != []
    ensures Leads(nodes, names, n) <==> LeadsFrom(nodes[0], names, n) || Leads(nodes[1..], names, n)
  {
    if Leads(nodes, names, n) {
      var k :| 0 <= k < |nodes| && LeadsFrom(nodes[k], names, n);
      if k > 0 {
        assert LeadsFrom(nodes[1..][k - 1], names, n);
      }
    }
    if names != [] && Leads(nodes[1..], names, n) {
      var k :| 0 <= k < |nodes[1..]| && LeadsFrom(nodes[1..][k], names, n);
      assert LeadsFrom(nodes[k + 1], names, n);
    }
  }

  function NamesOf(trail: seq<Step>): (names: seq<string>)
    ensures |names| == |trail| && forall i :: 0 <= i < |trail| ==> names[i] == trail[i].name
  {
    seq(|trail|, i requires 0 <= i < |trail| => trail[i].name)
  }

  /** Some item is n, under these names. */
  ghost predicate Listed(items: seq<Item>, names: seq<string>, n: Node)
  {
    exists i :: 0 <= i < |items| && items[i].node == n && NamesOf(items[i].trail) == names
  }

  lemma ListedAppend(a: seq<Item>, b: seq<Item>, names: seq<string>, n: Node)
    ensures Listed(a + b, names, n) <==> Listed(a, names, n) || Listed(b, names, n)
  {
    hide NamesOf;
    if Listed(a, names, n) {
      var i :| 0 <= i < |a| && a[i].node == n && NamesOf(a[i].trail) == names;
      assert (a + b)[i] == a[i];
    }
    if Listed(b, names, n) {
      var i :| 0 <= i < |b| && b[i].node == n && NamesOf(b[i].trail) == names;
      assert (a + b)[|a| + i] == b[i];
    }
  }

  /** The items are all nodes that some names lead to, under these names, and no others. */
  lemma {:induction false} EverythingExact(nodes: seq<Node>, trail: seq<Step>, names: seq<string>, n: Node)
    ensures Listed(Everything(nodes, trail), NamesOf(trail) + names, n) <==> Leads(nodes, names, n)
    decreases nodes
  {
    hide Listed, Leads, NamesOf;
    if nodes == [] {
      NothingListed(trail, names, n);
    } else {
      var m, rest := nodes[0], nodes[1..];
      EverythingOne(m, trail);
      assert [m] + rest == nodes;
      EverythingAppend([m], rest, trail);
      ListedAppend(Block(m, trail), Everything(rest, trail), NamesOf(trail) + names, n);
      LeadsFirst(nodes, names, n);
      EverythingExact(rest, trail, names, n);
      if m.Dir? && names != [] {
        EverythingExact(m.children, trail + [StepTo(trail, m)], names[1..], n);
      }
      BlockExact(m, trail, names, n);
    }
  }

  lemma NothingListed(trail: seq<Step>, names: seq<string>, n: Node)
    ensures !Listed(Everything([], trail), NamesOf(trail) + names, n) && !Leads([], names, n)
  {
  }

  /** Of one node and all below it, given what holds below it. */
  lemma BlockExact(m: Node, trail: seq<Step>, names: seq<string>, n: Node)
    requires m.Dir? && names != [] ==>
      var t := trail + [StepTo(trail, m)];
      (Listed(Everything(m.children, t), NamesOf(t) + names[1..], n) <==> Leads(m.children, names[1..], n))
    ensures Listed(Block(m, trail), NamesOf(trail) + names, n) <==> LeadsFrom(m, names, n)
  {
    hide Listed, Leads, Everything;
    var t := trail + [StepTo(trail, m)];
    var below := if m.Dir? then Everything(m.children, t) else [];
    var all := NamesOf(trail) + names;
    assert NamesOf(t) == NamesOf(trail) + [m.name];
    ListedAppend([Item(t, m)], below, all, n);
    ItemListed(Item(t, m), all, n);
    NoneListed(all, n);
    if names != [] && names[0] == m.name {
      assert all == NamesOf(t) + names[1..];
      assert all == NamesOf(t) <==> |names| == 1;
      NoNames(if m.Dir? then m.children else [], n);
      assert |names| == 1 ==> |names[1..]| == 0;
    } else {
      assert all != NamesOf(t) by {
        assert NamesOf(t)[|trail|] == m.name && (names != [] ==> all[|trail|] == names[0]);
      }
      if m.Dir? {
        OtherNames(m.children, t, all, n);
      }
    }
  }

  lemma NoNames(nodes: seq<Node>, n: Node)
    ensures forall names :: |names| == 0 ==> !Leads(nodes, names, n)
  {
  }

  lemma NoneListed(names: seq<string>, n: Node)
    ensures !Listed([], names, n)
  {
  }

  lemma ItemListed(item: Item, names: seq<string>, n: Node)
    ensures Listed([item], names, n) <==> item.node == n && NamesOf(item.trail) == names
  {
    assert [item][0] == item;
  }

  /** What lies below a directory is listed under that directory's names only. */
  lemma OtherNames(children: seq<Node>, t: seq<Step>, names: seq<string>, n: Node)
    requires t != [] && (|names| < |t| || names[|t| - 1] != t[|t| - 1].name)
    ensures !Listed(Everything(children, t), names, n)
  {
    hide Everything;
    TrailsExtend(children, t);
    var items := Everything(children, t);
    forall i | 0 <= i < |items| ensures NamesOf(items[i].trail) != names {
      assert NamesOf(items[i].trail)[|t| - 1] == t[|t| - 1].name;
    }
  }
}
