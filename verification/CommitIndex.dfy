/** The multi-action commit: an ordered list of file actions applied to a git index through an in-memory mirror. */
module CommitIndex {
  import opened Wrappers

  datatype Mode = Regular | Executable | OtherMode(text: string)

  /** An index entry. The blob stands for its content: git names blobs by their content. */
  datatype Entry = Entry(mode: Mode, blob: seq<bv8>)

  type Tree = map<string, Entry>

  /** Path a is a directory on the way to path b. */
  predicate Above(a: string, b: string) {
    |a| < |b| && b[..|a|] == a && b[|a|] == '/'
  }

  predicate HasDescendant(files: Tree, path: string) {
    exists q | q in files :: Above(path, q)
  }

  /** A file stands where a directory would have to, or the other way round. */
  predicate Clash(files: Tree, path: string) {
    exists q | q in files :: Above(q, path) || Above(path, q)
  }

  ghost predicate NoClash(files: Tree) {
    forall p, q | p in files && q in files :: !Above(p, q)
  }

  /** Git's own rule for the paths an index may hold. */
  type PathRule = string -> bool

  predicate AllStorable(rule: PathRule, files: Tree) {
    forall p | p in files :: rule(p)
  }

  // Requests.

  datatype Content = Absent | Undecodable | Given(bytes: seq<bv8>)

  /** One element of the `actions` array, its action word in lower case and its paths percent-decoded. */
  datatype Action =
    | NotAnObject
    | Action(word: string, filePath: string, previousPath: string, content: Content, execute: Option<bool>)

  datatype Refusal =
    | BadRequest
    | NotFound
    | GitFailed

  function StripSlashes(s: string): (r: string)
    ensures |r| <= |s|
    ensures r == [] || (r[0] != '/' && r[|r| - 1] != '/')
    decreases |s|
  {
    if s == "" then s
    else if s[0] == '/' then StripSlashes(s[1..])
    else if s[|s| - 1] == '/' then StripSlashes(s[..|s| - 1])
    else s
  }

  /** The part from index i to the next slash is a single or a double dot. */
  predicate DotSegmentAt(s: string, i: nat)
    requires i <= |s|
  {
    || (i < |s| && s[i] == '.' && (i + 1 == |s| || s[i + 1] == '/'))
    || (i + 1 < |s| && s[i] == '.' && s[i + 1] == '.' && (i + 2 == |s| || s[i + 2] == '/'))
  }

  predicate HasDotSegment(s: string) {
    exists i | 0 <= i < |s| :: (i == 0 || s[i - 1] == '/') && DotSegmentAt(s, i)
  }

  function NormalizeFilePath(s: string): (r: Option<string>) {
    var stripped := StripSlashes(s);
    if stripped == "" || HasDotSegment(stripped) then None else Some(stripped)
  }

  /** A path as the request gives it, percent-decoded first. */
  function RequestPath(decode: string -> string, s: string): Option<string> {
    NormalizeFilePath(decode(s))
  }

  /** Percent-decoding puts fewer characters in the place of each escape, and changes nothing else. */
  ghost predicate Shortens(decode: string -> string) {
    forall s: string {:trigger decode(s)} :: decode(s) == s || |decode(s)| < |s|
  }

  /** A normalised path given in another request means itself exactly when no escape is left in it. */
  lemma NormalizeAgainIff(decode: string -> string, s: string)
    requires Shortens(decode) && RequestPath(decode, s).Some?
    ensures var r := RequestPath(decode, s).value;
            RequestPath(decode, r) == Some(r) <==> decode(r) == r
  {
    var r := RequestPath(decode, s).value;
    assert NormalizeFilePath(r) == Some(r);
    if decode(r) != r {
      assert |StripSlashes(decode(r))| < |r|;
    }
  }

  /** Dots escaped twice pass the first time and are refused the second time. */
  lemma DoubleEscapeRefused(decode: string -> string)
    requires decode("a/%252e%252e") == "a/%2e%2e" && decode("a/%2e%2e") == "a/.."
    ensures RequestPath(decode, "a/%252e%252e") == Some("a/%2e%2e")
    ensures RequestPath(decode, "a/%2e%2e") == None
  {
    var s := "a/%2e%2e";
    assert forall i | 0 <= i < |s| :: s[i] != '.';
    var t := "a/..";
    assert t[1] == '/' && DotSegmentAt(t, 2);
  }

  // What an action list means on a tree.

  function ModeFor(execute: bool): Mode {
    if execute then Executable else Regular
  }

  /** A new file can stand at the path. */
  predicate Vacant(rule: PathRule, tree: Tree, path: string) {
    path !in tree && !Clash(tree, path) && rule(path)
  }

  function MoveEffect(rule: PathRule, tree: Tree, a: Action, path: string): Result<Tree, Refusal>
    requires a.Action?
  {
    if a.previousPath == "" then Err(BadRequest)
    else
      match NormalizeFilePath(a.previousPath)
      case None => Err(BadRequest)
      case Some(from) =>
        if from !in tree then Err(NotFound)
        else if path in tree || HasDescendant(tree, path) || a.content.Undecodable? then Err(BadRequest)
        else if !Vacant(rule, tree - {from}, path) then Err(GitFailed)
        else
          var blob := if a.content.Given? then a.content.bytes else tree[from].blob;
          Ok((tree - {from})[path := tree[from].(blob := blob)])
  }

  /** The tree after one action; an error when the action does not apply to it. */
  function Effect(rule: PathRule, tree: Tree, a: Action): Result<Tree, Refusal> {
    if a.NotAnObject? || a.word !in {"create", "update", "delete", "move", "chmod"} || a.filePath == "" then
      Err(BadRequest)
    else
      match NormalizeFilePath(a.filePath)
      case None => Err(BadRequest)
      case Some(path) =>
        if a.word == "create" then
          if path in tree || HasDescendant(tree, path) || !a.content.Given? then Err(BadRequest)
          else if !Vacant(rule, tree, path) then Err(GitFailed)
          else Ok(tree[path := Entry(ModeFor(a.execute.GetOr(false)), a.content.bytes)])
        else if a.word == "move" then
          MoveEffect(rule, tree, a, path)
        else if path !in tree then Err(NotFound)
        else if a.word == "delete" then Ok(tree - {path})
        else if a.word == "update" then
          if !a.content.Given? then Err(BadRequest)
          else
            var mode := if a.execute.Some? then ModeFor(a.execute.value) else tree[path].mode;
            Ok(tree[path := Entry(mode, a.content.bytes)])
        else if a.execute.None? then Err(BadRequest)
        else Ok(tree[path := Entry(ModeFor(a.execute.value), tree[path].blob)])
  }

  function EffectAll(rule: PathRule, tree: Tree, actions: seq<Action>): Result<Tree, Refusal>
    decreases |actions|
  {
    if actions == [] then Ok(tree)
    else
      match Effect(rule, tree, actions[0])
      case Err(e) => Err(e)
      case Ok(next) => EffectAll(rule, next, actions[1..])
  }

  ghost predicate Sound(rule: PathRule, tree: Tree) {
    NoClash(tree) && AllStorable(rule, tree)
  }

  lemma {:induction false} EffectAllKeepsSound(rule: PathRule, tree: Tree, actions: seq<Action>)
    requires Sound(rule, tree) && EffectAll(rule, tree, actions).Ok?
    ensures Sound(rule, EffectAll(rule, tree, actions).value)
    decreases |actions|
  {
    if actions != [] {
      EffectAllKeepsSound(rule, Effect(rule, tree, actions[0]).value, actions[1..]);
    }
  }

  // The index and its mirror.

  /** Git's temporary index, changed by its plumbing commands. */
  class GitIndex {
    var files: Tree
    const rule: PathRule

    constructor (rule: PathRule, tree: Tree)
      ensures files == tree && this.rule == rule
    {
      files := tree;
      this.rule := rule;
    }

    /** `update-index --add --cacheinfo`: refuses unstorable paths and clashes of files with directories. */
    method UpdateIndex(path: string, entry: Entry) returns (ok: bool)
      modifies this
      ensures ok <==> rule(path) && !Clash(old(files), path)
      ensures files == if ok then old(files)[path := entry] else old(files)
    {
      ok := rule(path) && !Clash(files, path);
      if ok {
        files := files[path := entry];
      }
    }

    /** `rm --cached` of one literal path. */
    method RemoveCached(path: string) returns (ok: bool)
      modifies this
      ensures ok <==> path in old(files)
      ensures files == old(files) - {path}
    {
      ok := path in files;
      files := files - {path};
    }
  }

  datatype PathState = AtFile | AtDirectory | AtNothing

  function ActionPathError(entries: Tree, path: string): PathState {
    if path in entries then AtFile
    else if HasDescendant(entries, path) then AtDirectory
    else AtNothing
  }

  /** A refusal is the one the action's meaning gives. */
  predicate Outcome(rule: PathRule, tree: Tree, a: Action, refused: Option<Refusal>) {
    refused == match Effect(rule, tree, a) case Ok(_) => None case Err(e) => Some(e)
  }

  class CommitBuilder {
    const index: GitIndex
    var entries: Tree

    ghost predicate Agrees()
      reads this, index
    {
      entries == index.files && Sound(index.rule, index.files)
    }

    constructor (index: GitIndex)
      requires Sound(index.rule, index.files)
      ensures this.index == index && Agrees() && entries == index.files
    {
      this.index := index;
      entries := index.files;
    }

    /** A create action at a path that is in order. */
    method Create(path: string, a: Action) returns (refused: Option<Refusal>)
      requires Agrees() && a.Action? && a.word == "create"
      requires a.filePath != "" && NormalizeFilePath(a.filePath) == Some(path)
      modifies this, index
      ensures Outcome(index.rule, old(entries), a, refused)
      ensures refused.None? ==> Agrees() && Effect(index.rule, old(entries), a) == Ok(entries)
    {
      var state := ActionPathError(entries, path);
      if state == AtFile || state == AtDirectory || !a.content.Given? {
        return Some(BadRequest);
      }
      var entry := Entry(ModeFor(a.execute.GetOr(false)), a.content.bytes);
      ghost var before := entries;
      var ok := index.UpdateIndex(path, entry);
      if !ok {
        return Some(GitFailed);
      }
      entries := entries[path := entry];
      refused := None;
    }

    method Move(path: string, a: Action) returns (refused: Option<Refusal>)
      requires Agrees() && a.Action? && a.word == "move"
      requires a.filePath != "" && NormalizeFilePath(a.filePath) == Some(path)
      modifies this, index
      ensures Outcome(index.rule, old(entries), a, refused)
      ensures refused.None? ==> Agrees() && Effect(index.rule, old(entries), a) == Ok(entries)
    {
      if a.previousPath == "" {
        return Some(BadRequest);
      }
      var previous := NormalizeFilePath(a.previousPath);
      if previous.None? {
        return Some(BadRequest);
      }
      var from := previous.value;
      if ActionPathError(entries, from) != AtFile {
        return Some(NotFound);
      }
      if ActionPathError(entries, path) != AtNothing || a.content.Undecodable? {
        return Some(BadRequest);
      }
      ghost var before := entries;
      var entry := entries[from];
      if a.content.Given? {
        entry := entry.(blob := a.content.bytes);
      }
      var removed := index.RemoveCached(from);
      assert removed;
      var ok := index.UpdateIndex(path, entry);
      if !ok {
        return Some(GitFailed);
      }
      entries := (entries - {from})[path := entry];
      refused := None;
    }

    /** An update or a chmod of an existing entry, or its deletion. */
    method ChangeExisting(path: string, a: Action) returns (refused: Option<Refusal>)
      requires Agrees() && a.Action? && a.word in {"update", "delete", "chmod"}
      requires a.filePath != "" && NormalizeFilePath(a.filePath) == Some(path)
      modifies this, index
      ensures Outcome(index.rule, old(entries), a, refused)
      ensures refused.None? ==> Agrees() && Effect(index.rule, old(entries), a) == Ok(entries)
    {
      if ActionPathError(entries, path) != AtFile {
        return Some(NotFound);
      }
      ghost var before := entries;
      if a.word == "delete" {
        var removed := index.RemoveCached(path);
        assert removed;
        entries := entries - {path};
        return None;
      }
      var entry := entries[path];
      if a.word == "update" {
        if !a.content.Given? {
          return Some(BadRequest);
        }
        entry := entry.(blob := a.content.bytes);
        if a.execute.Some? {
          entry := entry.(mode := ModeFor(a.execute.value));
        }
      } else {
        if a.execute.None? {
          return Some(BadRequest);
        }
        entry := entry.(mode := ModeFor(a.execute.value));
      }
      var ok := index.UpdateIndex(path, entry);
      assert ok;
      entries := entries[path := entry];
      refused := None;
    }

    /** One action on the index and the mirror: refused exactly when the action does not apply to the tree, and else
        both hold the tree it gives. */
    method ApplyAction(a: Action) returns (refused: Option<Refusal>)
      requires Agrees()
      modifies this, index
      ensures Outcome(index.rule, old(entries), a, refused)
      ensures refused.None? ==> Agrees() && Effect(index.rule, old(entries), a) == Ok(entries)
    {
      if a.NotAnObject? || a.word !in {"create", "update", "delete", "move", "chmod"} || a.filePath == "" {
        return Some(BadRequest);
      }
      var path := NormalizeFilePath(a.filePath);
      if path.None? {
        return Some(BadRequest);
      }
      if a.word == "create" {
        refused := Create(path.value, a);
      } else if a.word == "move" {
        refused := Move(path.value, a);
      } else {
        refused := ChangeExisting(path.value, a);
      }
    }

    /** All the actions in order, up to the first refusal. */
    method ApplyActions(actions: seq<Action>) returns (refused: Option<Refusal>)
      requires Agrees()
      modifies this, index
      ensures refused.None? ==> Agrees() && EffectAll(index.rule, old(entries), actions) == Ok(index.files)
      ensures refused.Some? ==> EffectAll(index.rule, old(entries), actions) == Err(refused.value)
    {
      for i := 0 to |actions|
        invariant Agrees()
        invariant EffectAll(index.rule, entries, actions[i..]) == EffectAll(index.rule, old(entries), actions)
      {
        assert actions[i..][0] == actions[i] && actions[i..][1..] == actions[i + 1..];
        refused := ApplyAction(actions[i]);
        if refused.Some? {
          return;
        }
      }
      refused := None;
    }
  }

  // Laws of the meaning.

  function OptionSet(o: Option<string>): set<string> {
    if o.Some? then {o.value} else {}
  }

  /** The paths an action names. */
  function Named(a: Action): set<string> {
    if a.NotAnObject? then {}
    else OptionSet(NormalizeFilePath(a.filePath)) + OptionSet(NormalizeFilePath(a.previousPath))
  }

  predicate SameAt(before: Tree, after: Tree, path: string) {
    (path in after <==> path in before) && (path in before ==> path in after && after[path] == before[path])
  }

  /** Paths no action names keep their entry. */
  lemma {:induction false} OthersKept(rule: PathRule, tree: Tree, actions: seq<Action>, path: string)
    requires EffectAll(rule, tree, actions).Ok?
    requires forall k | 0 <= k < |actions| :: path !in Named(actions[k])
    ensures SameAt(tree, EffectAll(rule, tree, actions).value, path)
    decreases |actions|
  {
    if actions != [] {
      assert path !in Named(actions[0]);
      OthersKept(rule, Effect(rule, tree, actions[0]).value, actions[1..], path);
    }
  }

  function CreateAction(path: string, entry: Entry): Action {
    Action("create", path, "", Given(entry.blob), Some(entry.mode == Executable))
  }

  function DeleteAction(path: string): Action {
    Action("delete", path, "", Absent, None)
  }

  function MoveAction(from: string, path: string): Action {
    Action("move", path, from, Absent, None)
  }

  /** Deleting undoes creating. */
  lemma DeleteUndoesCreate(rule: PathRule, tree: Tree, path: string, entry: Entry)
    requires path != "" && NormalizeFilePath(path) == Some(path)
    requires Effect(rule, tree, CreateAction(path, entry)).Ok?
    ensures EffectAll(rule, tree, [CreateAction(path, entry), DeleteAction(path)]) == Ok(tree)
  {
    var a, b := CreateAction(path, entry), DeleteAction(path);
    var created := Effect(rule, tree, a).value;
    assert created - {path} == tree;
    assert [a, b][1..] == [b] && [b][1..] == [];
    assert Effect(rule, created, b) == Ok(tree);
    assert EffectAll(rule, created, [b]) == EffectAll(rule, tree, []);
  }

  /** Moving back undoes moving, unless the file was moved below its own old path, which is then a directory. */
  lemma MoveBack(rule: PathRule, tree: Tree, from: string, path: string)
    requires Sound(rule, tree)
    requires path != "" && from != "" && NormalizeFilePath(path) == Some(path) && NormalizeFilePath(from) == Some(from)
    requires Effect(rule, tree, MoveAction(from, path)).Ok?
    ensures EffectAll(rule, tree, [MoveAction(from, path), MoveAction(path, from)]) ==
            if Above(from, path) then Err(BadRequest) else Ok(tree)
  {
    var a, b := MoveAction(from, path), MoveAction(path, from);
    var moved := Effect(rule, tree, a).value;
    assert moved - {path} == tree - {from};
    assert [a, b][1..] == [b] && [b][1..] == [];
    if Above(from, path) {
      assert path in moved && HasDescendant(moved, from);
      assert Effect(rule, moved, b) == Err(BadRequest);
    } else {
      assert !HasDescendant(moved, from);
      assert Vacant(rule, moved - {path}, from);
      assert (moved - {path})[from := moved[path]] == tree;
      assert Effect(rule, moved, b) == Ok(tree);
      assert EffectAll(rule, moved, [b]) == EffectAll(rule, tree, []);
    }
  }

  /** A file moved below its own old path cannot be moved back. */
  lemma MovedBelowItself(entry: Entry)
    ensures var rule: PathRule := _ => true;
            var tree := map["a" := entry];
            && Sound(rule, tree) && Effect(rule, tree, MoveAction("a", "a/b")) == Ok(map["a/b" := entry])
            && EffectAll(rule, tree, [MoveAction("a", "a/b"), MoveAction("a/b", "a")]) == Err(BadRequest)
  {
    var rule: PathRule := _ => true;
    var tree := map["a" := entry];
    assert "a/b"[..1] == "a" && "a/b"[1] == '/';
    assert NormalizeFilePath("a") == Some("a") && NormalizeFilePath("a/b") == Some("a/b");
    assert !Above("a", "a");
    assert tree - {"a"} == map[];
    assert (tree - {"a"})["a/b" := entry] == map["a/b" := entry];
    MoveBack(rule, tree, "a", "a/b");
  }

  /** A move gives the tree that deleting the old path and creating the new one gives. */
  lemma MoveIsDeleteCreate(rule: PathRule, tree: Tree, from: string, path: string)
    requires path != "" && from != "" && NormalizeFilePath(path) == Some(path) && NormalizeFilePath(from) == Some(from)
    requires from in tree && !tree[from].mode.OtherMode?
    requires Effect(rule, tree, MoveAction(from, path)).Ok?
    ensures EffectAll(rule, tree, [DeleteAction(from), CreateAction(path, tree[from])]) ==
            Effect(rule, tree, MoveAction(from, path))
  {
    var a, b := DeleteAction(from), CreateAction(path, tree[from]);
    var gone := tree - {from};
    assert Effect(rule, tree, a) == Ok(gone);
    assert !HasDescendant(gone, path);
    assert Vacant(rule, gone, path);
    var made := Effect(rule, gone, b);
    assert [a, b][1..] == [b] && [b][1..] == [];
    assert EffectAll(rule, made.value, []) == made;
    assert EffectAll(rule, gone, [b]) == made;
  }
}
