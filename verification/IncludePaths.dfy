/** Which file each include means, along every path of includes from the root. */
module IncludePaths {
  import opened Includes
  import opened RuleEval
  import opened Wrappers

  /** All the conditions a rule has hold. */
  predicate Holds(w: World, rule: IncludeRule) {
    && rule.IncludeRule?
    && (rule.condition.None? || Matches(rule.condition.value, w.variables))
    && (rule.exists_.None? || w.somePathExists(rule.exists_.value))
    && (rule.changes.None? || w.somePathChanged(rule.changes.value))
  }

  /** The item has no rules, or the first of them whose conditions hold does not say `never`. */
  predicate Admits(w: World, rules: Rules) {
    match rules
    case NoRules => true
    case NotAList => false
    case RuleList(list) =>
      exists k: nat :: k < |list| && Holds(w, list[k]) && list[k].when != "never" &&
                       forall j | 0 <= j < k :: !Holds(w, list[j])
  }

  lemma {:induction false} FirstRuleIff(w: World, list: seq<IncludeRule>)
    ensures FirstRule(w, list) <==> Admits(w, RuleList(list))
    decreases |list|
  {
    if list != [] {
      FirstRuleIff(w, list[1..]);
      assert RuleApplies(w, list[0]) <==> Holds(w, list[0]);
      if Holds(w, list[0]) {
        assert forall k: nat | k < |list| && Holds(w, list[k]) && forall j | 0 <= j < k :: !Holds(w, list[j]) :: k == 0;
      } else {
        if k: nat :| k < |list[1..]| && Holds(w, list[1..][k]) && list[1..][k].when != "never" &&
                     forall j | 0 <= j < k :: !Holds(w, list[1..][j]) {
          assert list[k + 1] == list[1..][k];
          assert forall j | 0 < j < k + 1 :: list[j] == list[1..][j - 1];
        }
        if k: nat :| k < |list| && Holds(w, list[k]) && list[k].when != "never" &&
                     forall j | 0 <= j < k :: !Holds(w, list[j]) {
          assert list[1..][k - 1] == list[k];
          assert forall j | 0 <= j < k - 1 :: list[1..][j] == list[j + 1];
        }
      }
    }
  }

  lemma AdmittedIff(w: World, item: Item)
    ensures Admitted(w, item) == (if item.rules.NotAList? then None else Some(Admits(w, item.rules)))
  {
    if item.rules.RuleList? {
      FirstRuleIff(w, item.rules.rules);
    }
  }

  /** The path is the file's name without the slashes it begins with. */
  predicate WithoutLead(file: string, path: string) {
    && |path| <= |file| && file[|file| - |path|..] == path
    && (forall k | 0 <= k < |file| - |path| :: file[k] == '/')
    && (path == "" || path[0] != '/')
  }

  lemma {:induction false} DropSlashesIff(file: string, path: string)
    ensures DropSlashes(file) == path <==> WithoutLead(file, path)
    decreases |file|
  {
    if file != "" && file[0] == '/' {
      DropSlashesIff(file[1..], path);
      if WithoutLead(file, path) {
        assert |path| < |file|;
        assert file[1..][|file| - 1 - |path|..] == file[|file| - |path|..];
      }
      if WithoutLead(file[1..], path) {
        assert file[1..][|file| - 1 - |path|..] == file[|file| - |path|..];
        assert forall k | 1 <= k < |file| - |path| :: file[k] == file[1..][k - 1];
      }
    } else {
      assert WithoutLead(file, path) ==> |path| == |file|;
      assert file[0..] == file;
    }
  }

  /** The last `project:` include among these, -1 when there is none. */
  function LastProject(items: seq<Item>): (k: int)
    ensures -1 <= k < |items|
    ensures k >= 0 ==> items[k].origin.FromProject?
    ensures forall j | k < j < |items| :: !items[j].origin.FromProject?
  {
    if items == [] then -1
    else if items[|items| - 1].origin.FromProject? then |items| - 1
    else LastProject(items[..|items| - 1])
  }

  /** The project and the reference of a file reached by these includes are the root's, or those the last `project:`
      include among them names. */
  predicate Belongs(w: World, root: Node, items: seq<Item>, place: Place) {
    var k := LastProject(items);
    if k < 0 then place.project == root.place.project && place.ref == root.place.ref
    else w.projectId(items[k].origin.project) == Some(place.project) && place.ref == items[k].origin.ref
  }

  /** The file is the one the include names. */
  predicate NamedBy(origin: Origin, place: Place) {
    match origin
    case Local(file) => place.InRepo? && WithoutLead(file, place.path)
    case FromProject(_, _, file) => place.InRepo? && WithoutLead(file, place.path)
    case FromUrl(url) => place.AtUrl? && place.url == url
    case FromTemplate(name) => place.AsTemplate? && place.name == name
  }

  /** The file lists the last of these includes and admits it, and the child is the file that one names, where all of
      them lead. */
  predicate Leads(w: World, root: Node, node: Node, items: seq<Item>, child: Node) {
    && items != [] && w.load(node).Parsed?
    && var item := items[|items| - 1];
       && item in w.load(node).file.items.GetOr([]) && Admits(w, item.rules)
       && NamedBy(item.origin, child.place) && child.inputs == item.inputs
       && Belongs(w, root, items, child.place)
  }

  predicate LeadsAt(w: World, root: Node, chain: seq<Node>, items: seq<Item>, k: nat)
    requires 0 < k <= |items| && k < |chain|
  {
    Leads(w, root, chain[k - 1], items[..k], chain[k])
  }

  /** Each include of the list leads from one file of the path to the next. */
  predicate Follows(w: World, root: Node, chain: seq<Node>, items: seq<Item>) {
    && |chain| == |items| + 1 && chain[0] == root
    && forall k | 0 < k <= |items| :: LeadsAt(w, root, chain, items, k)
  }

  lemma FollowsGrows(w: World, root: Node, chain: seq<Node>, items: seq<Item>)
    requires items != [] && |chain| == |items| + 1
    ensures Follows(w, root, chain, items) <==>
            && Follows(w, root, chain[..|items|], items[..|items| - 1])
            && Leads(w, root, chain[|items| - 1], items, chain[|items|])
  {
    var n := |items|;
    var front, first := chain[..n], items[..n - 1];
    forall k | 0 < k < n
      ensures LeadsAt(w, root, front, first, k) <==> LeadsAt(w, root, chain, items, k)
    {
      assert first[..k] == items[..k];
    }
    if Follows(w, root, front, first) {
      assert forall k | 0 < k < n :: LeadsAt(w, root, front, first, k) && LeadsAt(w, root, chain, items, k);
    }
    if Follows(w, root, chain, items) {
      assert forall k | 0 < k < n :: LeadsAt(w, root, chain, items, k) && LeadsAt(w, root, front, first, k);
    }
    assert items[..n] == items;
    assert LeadsAt(w, root, chain, items, n) == Leads(w, root, chain[n - 1], items, chain[n]);
  }

  /** The include seen from the file that lists it, when that file is where the includes so far lead. */
  lemma TargetIff(w: World, root: Node, items: seq<Item>, node: Node, child: Node)
    requires items != [] && Belongs(w, root, items[..|items| - 1], node.place)
    ensures Target(w, node, items[|items| - 1]) == Some(child) <==>
            && NamedBy(items[|items| - 1].origin, child.place) && child.inputs == items[|items| - 1].inputs
            && Belongs(w, root, items, child.place)
  {
    match items[|items| - 1].origin
    case Local(file) => DropSlashesIff(file, if child.place.InRepo? then child.place.path else "");
    case FromProject(_, _, file) => DropSlashesIff(file, if child.place.InRepo? then child.place.path else "");
    case FromUrl(_) =>
    case FromTemplate(_) =>
  }

  /** An include of the file is an item that leads to it. */
  lemma LeadsIff(w: World, root: Node, front: seq<Item>, node: Node, child: Node)
    requires Belongs(w, root, front, node.place)
    ensures IncludesNode(w, node, child) <==> exists item :: Leads(w, root, node, front + [item], child)
  {
    if w.load(node).Parsed? {
      forall item: Item
        ensures Admitted(w, item) == Some(true) && Target(w, node, item) == Some(child) <==>
                && Admits(w, item.rules) && NamedBy(item.origin, child.place) && child.inputs == item.inputs
                && Belongs(w, root, front + [item], child.place)
      {
        var items := front + [item];
        assert items[..|items| - 1] == front && items[|items| - 1] == item;
        TargetIff(w, root, items, node, child);
        AdmittedIff(w, item);
      }
      if IncludesNode(w, node, child) {
        var item :| item in w.load(node).file.items.GetOr([]) && Admitted(w, item) == Some(true) &&
                    Target(w, node, item) == Some(child);
        assert Leads(w, root, node, front + [item], child);
      }
    }
  }

  lemma FollowedBelongs(w: World, root: Node, chain: seq<Node>, items: seq<Item>)
    requires Follows(w, root, chain, items)
    ensures |chain| == |items| + 1 && Belongs(w, root, items, chain[|items|].place)
  {
    if items != [] {
      assert items[..|items|] == items;
      assert LeadsAt(w, root, chain, items, |items|);
    }
  }

  lemma ChainGrows(w: World, root: Node, front: seq<Node>, child: Node)
    requires front != []
    ensures Chain(w, root, front + [child]) <==>
            Chain(w, root, front) && IncludesNode(w, front[|front| - 1], child)
  {
    var chain := front + [child];
    if Chain(w, root, chain) {
      forall k | 0 <= k < |front| - 1
        ensures IncludesNode(w, front[k], front[k + 1])
      {
        assert IncludesNode(w, chain[k], chain[k + 1]);
      }
      assert IncludesNode(w, chain[|front| - 1], chain[|front|]);
    }
  }

  lemma {:induction false} FollowsIsChain(w: World, root: Node, chain: seq<Node>, items: seq<Item>)
    requires Follows(w, root, chain, items)
    ensures Chain(w, root, chain)
    decreases |items|
  {
    if items != [] {
      var n := |items|;
      FollowsGrows(w, root, chain, items);
      FollowsIsChain(w, root, chain[..n], items[..n - 1]);
      FollowedBelongs(w, root, chain[..n], items[..n - 1]);
      assert items == items[..n - 1] + [items[n - 1]] && chain == chain[..n] + [chain[n]];
      LeadsIff(w, root, items[..n - 1], chain[n - 1], chain[n]);
      ChainGrows(w, root, chain[..n], chain[n]);
    }
  }

  lemma {:induction false} ChainFollows(w: World, root: Node, chain: seq<Node>) returns (items: seq<Item>)
    requires Chain(w, root, chain)
    ensures Follows(w, root, chain, items)
    decreases |chain|
  {
    if |chain| == 1 {
      items := [];
    } else {
      var n := |chain| - 1;
      assert chain == chain[..n] + [chain[n]];
      ChainGrows(w, root, chain[..n], chain[n]);
      var front := ChainFollows(w, root, chain[..n]);
      FollowedBelongs(w, root, chain[..n], front);
      LeadsIff(w, root, front, chain[n - 1], chain[n]);
      var item :| Leads(w, root, chain[n - 1], front + [item], chain[n]);
      items := front + [item];
      assert items[..n - 1] == front;
      FollowsGrows(w, root, chain, items);
    }
  }

  /** The paths of includes from the root are exactly those along which each file lists an admitted include that names
      the next one: a repository file by its path without leading slashes, in the project and at the reference of the
      nearest `project:` include above it or else of the root, a remote file by its URL, a template by its name. */
  lemma ChainIff(w: World, root: Node, chain: seq<Node>)
    ensures Chain(w, root, chain) <==> exists items :: Follows(w, root, chain, items)
  {
    if Chain(w, root, chain) {
      var items := ChainFollows(w, root, chain);
    }
    forall items | Follows(w, root, chain, items)
      ensures Chain(w, root, chain)
    {
      FollowsIsChain(w, root, chain, items);
    }
  }

  /** Two files count as one when they are the same path at one reference of one project, the same URL, or the same
      template. */
  lemma SameKeyIff(a: Node, b: Node)
    ensures KeyOf(a) == KeyOf(b) <==>
            match (a.place, b.place)
            case (InRepo(p, r, f), InRepo(q, s, g)) => p == q && r == s && f == g
            case (AtUrl(u, _, _), AtUrl(v, _, _)) => u == v
            case (AsTemplate(m, _, _), AsTemplate(n, _, _)) => m == n
            case _ => false
  {
  }

  /** A file is good when it is there and parses, and each include it lists has rules that are a list and, if admitted,
      a project that exists. */
  lemma NodeGoodIff(w: World, node: Node)
    ensures NodeGood(w, node) <==>
            && w.load(node).Parsed? && w.load(node).file.items.Some?
            && forall item | item in w.load(node).file.items.value ::
                 && !item.rules.NotAList?
                 && (Admits(w, item.rules) && item.origin.FromProject? ==> w.projectId(item.origin.project).Some?)
  {
    if w.load(node).Parsed? {
      forall item | item in w.load(node).file.items.GetOr([])
        ensures Admitted(w, item) == (if item.rules.NotAList? then None else Some(Admits(w, item.rules)))
      {
        AdmittedIff(w, item);
      }
    }
  }

  // Errors.

  /** What the error says of the last file of the path, read at this depth with these keys on the stack, is so. */
  ghost predicate Fault(w: World, chain: seq<Node>, depth: nat, seen: set<Key>, e: Error)
    requires chain != []
  {
    var last := |chain| - 1;
    match e
    case TooDeep => depth + last > 10
    case Circular(key) =>
      key == KeyOf(chain[last]) && (key in seen || exists k | 0 <= k < last :: KeyOf(chain[k]) == key)
    case NotFound(key) => key == KeyOf(chain[last]) && w.load(chain[last]).Missing?
    case NotAMapping(key) => key == KeyOf(chain[last]) && w.load(chain[last]).Unparsable?
    case BadInclude => w.load(chain[last]).Parsed? && w.load(chain[last]).file.items.None?
    case BadRules =>
      && w.load(chain[last]).Parsed?
      && exists item | item in w.load(chain[last]).file.items.GetOr([]) :: item.rules.NotAList?
    case NoProject =>
      && w.load(chain[last]).Parsed?
      && exists item | item in w.load(chain[last]).file.items.GetOr([]) ::
           item.origin.FromProject? && Admits(w, item.rules) && w.projectId(item.origin.project).None?
  }

  lemma FaultAbove(w: World, node: Node, below: seq<Node>, depth: nat, seen: set<Key>, e: Error)
    requires below != [] && IncludesNode(w, node, below[0]) && Chain(w, below[0], below)
    requires Fault(w, below, depth + 1, seen + {KeyOf(node)}, e)
    ensures Chain(w, node, [node] + below) && Fault(w, [node] + below, depth, seen, e)
  {
    var chain := [node] + below;
    assert chain[|chain| - 1] == below[|below| - 1];
    forall k | 0 <= k < |chain| - 1
      ensures IncludesNode(w, chain[k], chain[k + 1])
    {
      assert k > 0 ==> chain[k] == below[k - 1] && chain[k + 1] == below[k];
    }
    if e.Circular? && e.key !in seen && e.key != KeyOf(node) {
      var k :| 0 <= k < |below| - 1 && KeyOf(below[k]) == e.key;
      assert KeyOf(chain[k + 1]) == e.key;
    } else if e.Circular? && e.key !in seen {
      assert KeyOf(chain[0]) == e.key;
    }
  }

  /** An include path to an error, when the items from some point on lead to it. */
  lemma {:induction false} ItemsFault(w: World, node: Node, items: seq<Item>, depth: nat, seen: set<Key>,
                                      merged: Settings)
    returns (chain: seq<Node>)
    requires depth <= DEPTH_LIMIT && w.load(node).Parsed?
    requires forall item | item in items :: item in w.load(node).file.items.GetOr([])
    requires ResolveItems(w, node, items, depth, seen + {KeyOf(node)}, merged).Err?
    ensures Chain(w, node, chain)
    ensures Fault(w, chain, depth, seen, ResolveItems(w, node, items, depth, seen + {KeyOf(node)}, merged).error)
    decreases DEPTH_LIMIT + 1 - depth, 0, |items|
  {
    var item := items[0];
    AdmittedIff(w, item);
    assert item in items;
    chain := [node];
    if Admitted(w, item) == Some(false) {
      chain := ItemsFault(w, node, items[1..], depth, seen, merged);
    } else if Admitted(w, item) == Some(true) && Target(w, node, item).Some? {
      var target := Target(w, node, item).value;
      var below := Resolve(w, target, depth + 1, seen + {KeyOf(node)});
      if below.Err? {
        var rest := ResolveFault(w, target, depth + 1, seen + {KeyOf(node)});
        assert IncludesNode(w, node, target);
        FaultAbove(w, node, rest, depth, seen, below.error);
        chain := [node] + rest;
      } else {
        chain := ItemsFault(w, node, items[1..], depth, seen, Merge(merged, below.value));
      }
    }
  }

  /** The error of a failed resolution tells the truth: some path of includes leads to a file that has the fault. */
  lemma {:induction false} ResolveFault(w: World, node: Node, depth: nat, seen: set<Key>) returns (chain: seq<Node>)
    requires Resolve(w, node, depth, seen).Err?
    ensures Chain(w, node, chain) && Fault(w, chain, depth, seen, Resolve(w, node, depth, seen).error)
    decreases DEPTH_LIMIT + 1 - depth, 1
  {
    chain := [node];
    if Open(w, node, depth, seen).Ok? {
      var file := w.load(node).file;
      if file.items.Some? {
        chain := ItemsFault(w, node, file.items.value, depth, seen, map[]);
      }
    }
  }
}
