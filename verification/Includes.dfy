/** The include resolver: reading a CI configuration with everything it includes. */
module Includes {
  import opened Wrappers
  import opened RuleEval

  type Settings = map<string, string>

  datatype IncludeRule =
    | NotARule
    | IncludeRule(condition: Option<string>, exists_: Option<seq<string>>, changes: Option<seq<string>>, when: string)

  datatype Rules = NoRules | NotAList | RuleList(rules: seq<IncludeRule>)

  datatype Origin =
    | Local(file: string)
    | FromProject(project: string, ref: string, file: string)
    | FromUrl(url: string)
    | FromTemplate(name: string)

  datatype Item = Item(origin: Origin, rules: Rules, inputs: Option<map<string, string>>)

  /** A file to read: where it is, the project and reference local includes in it refer to, and the inputs it is
      given. */
  datatype Place =
    | InRepo(project: string, ref: string, path: string)
    | AtUrl(url: string, project: string, ref: string)
    | AsTemplate(name: string, project: string, ref: string)

  datatype Node = Node(place: Place, inputs: Option<map<string, string>>)

  /** What the stack of files being read is about. */
  datatype Key = RepoKey(project: string, ref: string, path: string) | UrlKey(url: string) | TemplateKey(name: string)

  function KeyOf(node: Node): Key {
    match node.place
    case InRepo(project, ref, path) => RepoKey(project, ref, path)
    case AtUrl(url, _, _) => UrlKey(url)
    case AsTemplate(name, _, _) => TemplateKey(name)
  }

  /** A parsed file: its top-level entries, and its include items unless its `include` entry is malformed. */
  datatype File = File(entries: Settings, items: Option<seq<Item>>)

  datatype Loaded = Missing | Unparsable | Parsed(file: File)

  /** The repositories, remote hosts and templates, and what the rules may ask about. */
  datatype World = World(load: Node -> Loaded, projectId: string -> Option<string>, variables: Variables,
                         somePathExists: seq<string> -> bool, somePathChanged: seq<string> -> bool)

  datatype Error =
    | TooDeep
    | Circular(key: Key)
    | NotFound(key: Key)
    | NotAMapping(key: Key)
    | BadInclude
    | BadRules
    | NoProject

  const DEPTH_LIMIT: nat := 10

  // Rules.

  predicate RuleApplies(w: World, rule: IncludeRule) {
    && rule.IncludeRule?
    && (rule.condition.Some? ==> Matches(rule.condition.value, w.variables))
    && (rule.exists_.Some? ==> w.somePathExists(rule.exists_.value))
    && (rule.changes.Some? ==> w.somePathChanged(rule.changes.value))
  }

  /** The first rule that applies decides. */
  function FirstRule(w: World, rules: seq<IncludeRule>): bool {
    if rules == [] then false
    else if RuleApplies(w, rules[0]) then rules[0].when != "never"
    else FirstRule(w, rules[1..])
  }

  /** Rule k applies and no earlier one does. */
  predicate Decides(w: World, rules: seq<IncludeRule>, k: nat)
    requires k < |rules|
  {
    RuleApplies(w, rules[k]) && forall j | 0 <= j < k :: !RuleApplies(w, rules[j])
  }

  /** The loop over the rules: an include is admitted exactly when some rule decides, and does not decide against it. */
  method IncludeRulesMatch(w: World, rules: seq<IncludeRule>) returns (admitted: bool)
    ensures admitted <==> exists k: nat :: k < |rules| && Decides(w, rules, k) && rules[k].when != "never"
    ensures admitted == FirstRule(w, rules)
  {
    for i := 0 to |rules|
      invariant forall k | 0 <= k < i :: !RuleApplies(w, rules[k])
      invariant FirstRule(w, rules[i..]) == FirstRule(w, rules)
    {
      assert rules[i..][0] == rules[i] && rules[i..][1..] == rules[i + 1..];
      if RuleApplies(w, rules[i]) {
        assert Decides(w, rules, i);
        assert forall k: nat | k < |rules| && Decides(w, rules, k) :: k == i;
        return rules[i].when != "never";
      }
    }
    admitted := false;
  }

  function Admitted(w: World, item: Item): Option<bool> {
    match item.rules
    case NoRules => Some(true)
    case NotAList => None
    case RuleList(rules) => Some(FirstRule(w, rules))
  }

  function DropSlashes(path: string): string {
    if path != "" && path[0] == '/' then DropSlashes(path[1..]) else path
  }

  /** The file an item names, seen from the file that includes it. */
  function Target(w: World, node: Node, item: Item): Option<Node> {
    var project, ref := node.place.project, node.place.ref;
    match item.origin
    case Local(file) => Some(Node(InRepo(project, ref, DropSlashes(file)), item.inputs))
    case FromProject(name, otherRef, file) =>
      (match w.projectId(name)
       case None => None
       case Some(id) => Some(Node(InRepo(id, otherRef, DropSlashes(file)), item.inputs)))
    case FromUrl(url) => Some(Node(AtUrl(url, project, ref), item.inputs))
    case FromTemplate(name) => Some(Node(AsTemplate(name, project, ref), item.inputs))
  }

  // The resolver on values.

  function Merge(base: Settings, override: Settings): Settings {
    base + (override - {"include"})
  }

  /** The checks before a file's includes are read, in the order each kind of file makes them. */
  function Open(w: World, node: Node, depth: nat, seen: set<Key>): Result<File, Error> {
    var key := KeyOf(node);
    if node.place.InRepo? && depth > DEPTH_LIMIT then Err(TooDeep)
    else if key in seen then Err(Circular(key))
    else
      match w.load(node)
      case Missing => Err(NotFound(key))
      case Unparsable => if depth > DEPTH_LIMIT then Err(TooDeep) else Err(NotAMapping(key))
      case Parsed(file) => if depth > DEPTH_LIMIT then Err(TooDeep) else Ok(file)
  }

  function Resolve(w: World, node: Node, depth: nat, seen: set<Key>): Result<Settings, Error>
    decreases DEPTH_LIMIT + 1 - depth, 1
  {
    match Open(w, node, depth, seen)
    case Err(e) => Err(e)
    case Ok(file) =>
      if file.items.None? then Err(BadInclude)
      else
        match ResolveItems(w, node, file.items.value, depth, seen + {KeyOf(node)}, map[])
        case Err(e) => Err(e)
        case Ok(merged) => Ok(Merge(merged, file.entries))
  }

  function ResolveItems(w: World, node: Node, items: seq<Item>, depth: nat, seen: set<Key>, merged: Settings):
    Result<Settings, Error>
    requires depth <= DEPTH_LIMIT
    decreases DEPTH_LIMIT + 1 - depth, 0, |items|
  {
    if items == [] then Ok(merged)
    else
      match Admitted(w, items[0])
      case None => Err(BadRules)
      case Some(false) => ResolveItems(w, node, items[1..], depth, seen, merged)
      case Some(true) =>
        match Target(w, node, items[0])
        case None => Err(NoProject)
        case Some(target) =>
          match Resolve(w, target, depth + 1, seen)
          case Err(e) => Err(e)
          case Ok(settings) => ResolveItems(w, node, items[1..], depth, seen, Merge(merged, settings))
  }

  // The resolver with its stack.

  /** What a failed read leaves on the stack: a repository file is put there before it turns out to be missing. */
  function Residue(r: Result<Settings, Error>): set<Key> {
    if r.Err? && r.error.NotFound? && r.error.key.RepoKey? then {r.error.key} else {}
  }

  class IncludeReader {
    const world: World
    var seen: set<Key>

    constructor (world: World)
      ensures this.world == world && seen == {}
    {
      this.world := world;
      seen := {};
    }

    /** Read a file and its includes. A successful read leaves the stack as it was. */
    method Read(node: Node, depth: nat) returns (r: Result<Settings, Error>)
      modifies this
      ensures r == Resolve(world, node, depth, old(seen))
      ensures seen == old(seen) + Residue(r) && Residue(r) !! old(seen)
      decreases DEPTH_LIMIT + 1 - depth, 1
    {
      var key := KeyOf(node);
      if node.place.InRepo? && depth > DEPTH_LIMIT {
        return Err(TooDeep);
      }
      if key in seen {
        return Err(Circular(key));
      }
      ghost var before := seen;
      seen := seen + {key};
      var loaded := world.load(node);
      if loaded.Missing? {
        if !node.place.InRepo? {
          seen := seen - {key};
        }
        return Err(NotFound(key));
      }
      if depth > DEPTH_LIMIT {
        r := Err(TooDeep);
      } else if loaded.Unparsable? {
        r := Err(NotAMapping(key));
      } else if loaded.file.items.None? {
        r := Err(BadInclude);
      } else {
        var merged := ReadItems(node, loaded.file.items.value, depth);
        r := match merged case Err(e) => Err(e) case Ok(settings) => Ok(Merge(settings, loaded.file.entries));
      }
      seen := seen - {key};
      assert seen == before + Residue(r);
    }

    method ReadItems(node: Node, items: seq<Item>, depth: nat) returns (r: Result<Settings, Error>)
      requires depth <= DEPTH_LIMIT
      modifies this
      ensures r == ResolveItems(world, node, items, depth, old(seen), map[])
      ensures seen == old(seen) + Residue(r) && Residue(r) !! old(seen)
      decreases DEPTH_LIMIT + 1 - depth, 0
    {
      var merged: Settings := map[];
      for i := 0 to |items|
        invariant seen == old(seen)
        invariant ResolveItems(world, node, items[i..], depth, seen, merged) ==
                  ResolveItems(world, node, items, depth, old(seen), map[])
      {
        assert items[i..][0] == items[i] && items[i..][1..] == items[i + 1..];
        var admitted := Admitted(world, items[i]);
        if admitted.None? {
          return Err(BadRules);
        }
        if admitted.value {
          var target := Target(world, node, items[i]);
          if target.None? {
            return Err(NoProject);
          }
          var included := Read(target.value, depth + 1);
          if included.Err? {
            return Err(included.error);
          }
          merged := Merge(merged, included.value);
        }
      }
      r := Ok(merged);
    }
  }

  // Flattening.

  /** The entries of all the files read, each file after the files it includes. */
  function PostOrder(w: World, node: Node, fuel: nat): seq<Settings>
    decreases fuel, 1
  {
    if fuel == 0 then []
    else
      match w.load(node)
      case Parsed(file) => PostOrderItems(w, node, file.items.GetOr([]), fuel) + [file.entries]
      case _ => []
  }

  function PostOrderItems(w: World, node: Node, items: seq<Item>, fuel: nat): seq<Settings>
    requires fuel > 0
    decreases fuel, 0, |items|
  {
    if items == [] then []
    else
      (if Admitted(w, items[0]) == Some(true) && Target(w, node, items[0]).Some?
       then PostOrder(w, Target(w, node, items[0]).value, fuel - 1) else [])
      + PostOrderItems(w, node, items[1..], fuel)
  }

  /** The last file of the list that defines the key. */
  function LastDefiner(files: seq<Settings>, key: string): (r: int)
    ensures -1 <= r < |files|
    ensures r >= 0 ==> key in files[r]
    ensures forall k | r < k < |files| :: key !in files[k]
  {
    if files == [] then -1
    else if key in files[|files| - 1] then |files| - 1
    else LastDefiner(files[..|files| - 1], key)
  }

  /** Each key but `include` has the value of the last file that defines it, and no other key is there. */
  ghost predicate IsFlat(files: seq<Settings>, settings: Settings) {
    forall key: string ::
      && (key in settings <==> key != "include" && LastDefiner(files, key) >= 0)
      && (key in settings ==> LastDefiner(files, key) >= 0 && settings[key] == files[LastDefiner(files, key)][key])
  }

  lemma {:induction false} LastDefinerConcat(a: seq<Settings>, b: seq<Settings>, key: string)
    ensures LastDefiner(a + b, key) ==
            if LastDefiner(b, key) >= 0 then |a| + LastDefiner(b, key) else LastDefiner(a, key)
    decreases |b|
  {
    if b == [] {
      assert a + b == a;
    } else {
      var n := |b| - 1;
      assert (a + b)[|a + b| - 1] == b[n];
      assert (a + b)[..|a + b| - 1] == a + b[..n];
      LastDefinerConcat(a, b[..n], key);
    }
  }

  /** Merging two flat settings is flattening the two lists one after the other. */
  lemma FlatMerge(a: seq<Settings>, b: seq<Settings>, x: Settings, y: Settings)
    requires IsFlat(a, x) && IsFlat(b, y)
    ensures IsFlat(a + b, Merge(x, y))
  {
    forall key: string
      ensures key in Merge(x, y) <==> key != "include" && LastDefiner(a + b, key) >= 0
      ensures key in Merge(x, y) ==> LastDefiner(a + b, key) >= 0 &&
                                     Merge(x, y)[key] == (a + b)[LastDefiner(a + b, key)][key]
    {
      LastDefinerConcat(a, b, key);
    }
  }

  /** The including file comes last. */
  lemma FlatAppend(files: seq<Settings>, merged: Settings, entries: Settings)
    requires IsFlat(files, merged)
    ensures IsFlat(files + [entries], Merge(merged, entries))
  {
    forall key: string
      ensures LastDefiner([entries], key) == if key in entries then 0 else -1
    {
      assert [entries][..0] == [];
    }
    var own := entries - {"include"};
    assert IsFlat([entries], own);
    FlatMerge(files, [entries], merged, own);
    assert own - {"include"} == own;
  }

  /** The resolved configuration is the flattened one: each key has the value of the last file in post-order that
      defines it, and `include` is not a key. */
  lemma {:induction false} ResolutionIsFlattening(w: World, node: Node, depth: nat, seen: set<Key>)
    requires Resolve(w, node, depth, seen).Ok?
    ensures depth <= DEPTH_LIMIT
    ensures IsFlat(PostOrder(w, node, DEPTH_LIMIT + 1 - depth), Resolve(w, node, depth, seen).value)
    decreases DEPTH_LIMIT + 1 - depth, 1
  {
    assert Open(w, node, depth, seen).Ok?;
    var file := w.load(node).file;
    var below := PostOrderItems(w, node, file.items.value, DEPTH_LIMIT + 1 - depth);
    var inner := ResolveItems(w, node, file.items.value, depth, seen + {KeyOf(node)}, map[]);
    ItemsAreFlattened(w, node, file.items.value, depth, seen + {KeyOf(node)}, [], map[]);
    assert [] + below == below;
    FlatAppend(below, inner.value, file.entries);
  }

  lemma {:induction false} ItemsAreFlattened(w: World, node: Node, items: seq<Item>, depth: nat, seen: set<Key>,
                                             files: seq<Settings>, merged: Settings)
    requires depth <= DEPTH_LIMIT && IsFlat(files, merged)
    requires ResolveItems(w, node, items, depth, seen, merged).Ok?
    ensures IsFlat(files + PostOrderItems(w, node, items, DEPTH_LIMIT + 1 - depth),
                   ResolveItems(w, node, items, depth, seen, merged).value)
    decreases DEPTH_LIMIT + 1 - depth, 0, |items|
  {
    var fuel := DEPTH_LIMIT + 1 - depth;
    if items == [] {
      assert files + [] == files;
    } else if Admitted(w, items[0]) == Some(true) {
      var target := Target(w, node, items[0]).value;
      var below := PostOrder(w, target, fuel - 1);
      ResolutionIsFlattening(w, target, depth + 1, seen);
      var settings := Resolve(w, target, depth + 1, seen).value;
      FlatMerge(files, below, merged, settings);
      ItemsAreFlattened(w, node, items[1..], depth, seen, files + below, Merge(merged, settings));
      assert files + below + PostOrderItems(w, node, items[1..], fuel) == files + PostOrderItems(w, node, items, fuel);
    } else {
      ItemsAreFlattened(w, node, items[1..], depth, seen, files, merged);
      assert [] + PostOrderItems(w, node, items[1..], fuel) == PostOrderItems(w, node, items[1..], fuel);
    }
  }

  // When resolution succeeds.

  /** The file can be read, and so can its rules and the projects of the includes they admit. */
  predicate NodeGood(w: World, node: Node) {
    match w.load(node)
    case Parsed(file) =>
      file.items.Some? &&
      forall item | item in file.items.value ::
        Admitted(w, item).Some? && (Admitted(w, item).value ==> Target(w, node, item).Some?)
    case _ => false
  }

  /** The child is an admitted include of the file. */
  predicate IncludesNode(w: World, node: Node, child: Node) {
    match w.load(node)
    case Parsed(file) =>
      exists item | item in file.items.GetOr([]) ::
        Admitted(w, item) == Some(true) && Target(w, node, item) == Some(child)
    case _ => false
  }

  /** A path in the include graph. */
  predicate Chain(w: World, node: Node, chain: seq<Node>) {
    && chain != [] && chain[0] == node
    && forall k | 0 <= k < |chain| - 1 :: IncludesNode(w, chain[k], chain[k + 1])
  }

  /** Every file on the path is good, no key comes twice or is on the stack already, and the path is not too long. */
  predicate ChainGood(w: World, chain: seq<Node>, depth: nat, seen: set<Key>) {
    && depth + |chain| <= DEPTH_LIMIT + 1
    && (forall k | 0 <= k < |chain| :: NodeGood(w, chain[k]) && KeyOf(chain[k]) !in seen)
    && (forall j, k | 0 <= j < k < |chain| :: KeyOf(chain[j]) != KeyOf(chain[k]))
  }

  ghost predicate AllChainsGood(w: World, node: Node, depth: nat, seen: set<Key>) {
    forall chain: seq<Node> | Chain(w, node, chain) :: ChainGood(w, chain, depth, seen)
  }

  lemma {:induction false} ItemsResolveIff(w: World, node: Node, items: seq<Item>, depth: nat, seen: set<Key>,
                                           merged: Settings)
    requires depth <= DEPTH_LIMIT
    ensures ResolveItems(w, node, items, depth, seen, merged).Ok? <==>
            forall item | item in items ::
              && Admitted(w, item).Some?
              && (Admitted(w, item).value ==>
                    Target(w, node, item).Some? && Resolve(w, Target(w, node, item).value, depth + 1, seen).Ok?)
    decreases |items|
  {
    if items != [] {
      var next := if Admitted(w, items[0]) == Some(true) && Target(w, node, items[0]).Some? &&
                     Resolve(w, Target(w, node, items[0]).value, depth + 1, seen).Ok?
                  then Merge(merged, Resolve(w, Target(w, node, items[0]).value, depth + 1, seen).value) else merged;
      ItemsResolveIff(w, node, items[1..], depth, seen, next);
      assert items == [items[0]] + items[1..];
    }
  }

  /** A file resolves when it is good itself and each of its admitted includes resolves below it. */
  lemma ResolveIff(w: World, node: Node, depth: nat, seen: set<Key>)
    ensures Resolve(w, node, depth, seen).Ok? <==>
            && depth <= DEPTH_LIMIT
            && NodeGood(w, node)
            && KeyOf(node) !in seen
            && forall child | IncludesNode(w, node, child) :: Resolve(w, child, depth + 1, seen + {KeyOf(node)}).Ok?
  {
    if depth <= DEPTH_LIMIT && w.load(node).Parsed? && w.load(node).file.items.Some? {
      var items := w.load(node).file.items.value;
      ItemsResolveIff(w, node, items, depth, seen + {KeyOf(node)}, map[]);
      forall item | item in items && Admitted(w, item) == Some(true) && Target(w, node, item).Some?
        ensures IncludesNode(w, node, Target(w, node, item).value)
      {
      }
    }
  }

  lemma {:induction false} ResolvesWhenChainsGood(w: World, node: Node, depth: nat, seen: set<Key>)
    requires AllChainsGood(w, node, depth, seen)
    ensures Resolve(w, node, depth, seen).Ok?
    decreases DEPTH_LIMIT + 1 - depth
  {
    assert Chain(w, node, [node]);
    assert ChainGood(w, [node], depth, seen);
    assert NodeGood(w, [node][0]) && KeyOf([node][0]) !in seen;
    ResolveIff(w, node, depth, seen);
    forall child | IncludesNode(w, node, child)
      ensures Resolve(w, child, depth + 1, seen + {KeyOf(node)}).Ok?
    {
      forall chain: seq<Node> | Chain(w, child, chain)
        ensures ChainGood(w, chain, depth + 1, seen + {KeyOf(node)})
      {
        var longer := [node] + chain;
        assert Chain(w, node, longer);
        assert ChainGood(w, longer, depth, seen);
        assert forall k | 0 <= k < |chain| :: chain[k] == longer[k + 1];
        assert longer[0] == node;
      }
      ResolvesWhenChainsGood(w, child, depth + 1, seen + {KeyOf(node)});
    }
  }

  lemma {:induction false} ChainsGoodWhenResolves(w: World, node: Node, depth: nat, seen: set<Key>, chain: seq<Node>)
    requires Resolve(w, node, depth, seen).Ok? && Chain(w, node, chain)
    ensures ChainGood(w, chain, depth, seen)
    decreases |chain|
  {
    ResolveIff(w, node, depth, seen);
    if |chain| > 1 {
      assert IncludesNode(w, chain[0], chain[1]);
      assert Chain(w, chain[1], chain[1..]);
      ChainsGoodWhenResolves(w, chain[1], depth + 1, seen + {KeyOf(node)}, chain[1..]);
      assert forall k | 1 <= k < |chain| :: chain[k] == chain[1..][k - 1];
    }
  }

  /** Resolution, which ends on every include graph, succeeds exactly when every path of admitted includes from the root
      has at most 11 files, good ones, no two with the same key. A file may be included again on another path. */
  lemma ResolvesIff(w: World, root: Node)
    ensures Resolve(w, root, 0, {}).Ok? <==>
            forall chain: seq<Node> | Chain(w, root, chain) ::
              && |chain| <= 11
              && (forall k | 0 <= k < |chain| :: NodeGood(w, chain[k]))
              && (forall j, k | 0 <= j < k < |chain| :: KeyOf(chain[j]) != KeyOf(chain[k]))
  {
    if Resolve(w, root, 0, {}).Ok? {
      forall chain: seq<Node> | Chain(w, root, chain)
        ensures ChainGood(w, chain, 0, {})
      {
        ChainsGoodWhenResolves(w, root, 0, {}, chain);
      }
    }
    if forall chain: seq<Node> | Chain(w, root, chain) ::
         && |chain| <= 11
         && (forall k | 0 <= k < |chain| :: NodeGood(w, chain[k]))
         && (forall j, k | 0 <= j < k < |chain| :: KeyOf(chain[j]) != KeyOf(chain[k])) {
      assert AllChainsGood(w, root, 0, {});
      ResolvesWhenChainsGood(w, root, 0, {});
    }
  }
}
