/** What a list of file actions leaves at each path, read backwards from its last action. */
module CommitHistory {
  import opened CommitIndex
  import opened Wrappers

  /** The action is one of these words and its path is this one. */
  predicate DoneAt(a: Action, word: string, path: string) {
    a.Action? && a.word == word && NormalizeFilePath(a.filePath) == Some(path)
  }

  /** The file that stood here is moved away or deleted. */
  predicate Leaves(a: Action, path: string) {
    DoneAt(a, "delete", path) || (a.Action? && a.word == "move" && NormalizeFilePath(a.previousPath) == Some(path))
  }

  function Old(a: Action): string {
    if a.Action? then NormalizeFilePath(a.previousPath).GetOr("") else ""
  }

  /** The content at a path after the actions: what the last create, update or move with content put there; a move
      without content brings that of the old path. */
  function ContentAt(tree: Tree, actions: seq<Action>, path: string): Option<seq<bv8>>
    decreases |actions|
  {
    if actions == [] then
      if path in tree then Some(tree[path].blob) else None
    else
      var a, earlier := actions[|actions| - 1], actions[..|actions| - 1];
      if DoneAt(a, "create", path) || DoneAt(a, "update", path) || (DoneAt(a, "move", path) && a.content.Given?) then
        if a.content.Given? then Some(a.content.bytes) else None
      else if DoneAt(a, "move", path) then ContentAt(tree, earlier, Old(a))
      else if Leaves(a, path) then None
      else ContentAt(tree, earlier, path)
  }

  /** The mode at a path after the actions: what the last create, or the last update or chmod with a flag, says; a move
      brings that of the old path. */
  function ModeAt(tree: Tree, actions: seq<Action>, path: string): Option<Mode>
    decreases |actions|
  {
    if actions == [] then
      if path in tree then Some(tree[path].mode) else None
    else
      var a, earlier := actions[|actions| - 1], actions[..|actions| - 1];
      if DoneAt(a, "create", path) then Some(if a.execute == Some(true) then Executable else Regular)
      else if (DoneAt(a, "update", path) || DoneAt(a, "chmod", path)) && a.execute.Some? then
        Some(if a.execute.value then Executable else Regular)
      else if DoneAt(a, "move", path) then ModeAt(tree, earlier, Old(a))
      else if Leaves(a, path) then None
      else ModeAt(tree, earlier, path)
  }

  lemma {:induction false} EffectOfLast(rule: PathRule, tree: Tree, actions: seq<Action>)
    requires actions != []
    ensures var n := |actions| - 1;
            EffectAll(rule, tree, actions) ==
              match EffectAll(rule, tree, actions[..n])
              case Err(e) => Err(e)
              case Ok(t) => Effect(rule, t, actions[n])
    decreases |actions|
  {
    var n := |actions| - 1;
    if n == 0 {
      assert actions[..0] == [] && actions[1..] == [];
      match Effect(rule, tree, actions[0])
      case Err(_) =>
      case Ok(t) => assert EffectAll(rule, t, []) == Ok(t);
    } else if Effect(rule, tree, actions[0]).Ok? {
      assert actions[1..][..n - 1] == actions[..n][1..];
      EffectOfLast(rule, Effect(rule, tree, actions[0]).value, actions[1..]);
    }
  }

  /** The content an action leaves at a path. */
  lemma ActionLeaves(rule: PathRule, tree: Tree, a: Action, path: string)
    requires Effect(rule, tree, a).Ok?
    ensures var t := Effect(rule, tree, a).value;
            (if path in t then Some(t[path].blob) else None) ==
              if DoneAt(a, "create", path) || DoneAt(a, "update", path) || (DoneAt(a, "move", path) && a.content.Given?)
              then (if a.content.Given? then Some(a.content.bytes) else None)
              else if DoneAt(a, "move", path) then (if Old(a) in tree then Some(tree[Old(a)].blob) else None)
              else if Leaves(a, path) then None
              else if path in tree then Some(tree[path].blob) else None
  {
  }

  lemma ActionLeavesMode(rule: PathRule, tree: Tree, a: Action, path: string)
    requires Effect(rule, tree, a).Ok?
    ensures var t := Effect(rule, tree, a).value;
            (if path in t then Some(t[path].mode) else None) ==
              if DoneAt(a, "create", path) then Some(if a.execute == Some(true) then Executable else Regular)
              else if (DoneAt(a, "update", path) || DoneAt(a, "chmod", path)) && a.execute.Some?
              then Some(if a.execute.value then Executable else Regular)
              else if DoneAt(a, "move", path) then (if Old(a) in tree then Some(tree[Old(a)].mode) else None)
              else if Leaves(a, path) then None
              else if path in tree then Some(tree[path].mode) else None
  {
  }

  /** The tree a list of actions gives has at every path exactly the content and the mode that its last writers left
      there, followed back through moves to the tree the list started from. */
  lemma {:induction false} TreeIsHistory(rule: PathRule, tree: Tree, actions: seq<Action>, path: string)
    requires EffectAll(rule, tree, actions).Ok?
    ensures var t := EffectAll(rule, tree, actions).value;
            if path in t then ContentAt(tree, actions, path) == Some(t[path].blob) &&
                              ModeAt(tree, actions, path) == Some(t[path].mode)
            else ContentAt(tree, actions, path) == None && ModeAt(tree, actions, path) == None
    decreases |actions|
  {
    if actions != [] {
      var a, earlier := actions[|actions| - 1], actions[..|actions| - 1];
      EffectOfLast(rule, tree, actions);
      var t := EffectAll(rule, tree, earlier).value;
      TreeIsHistory(rule, tree, earlier, path);
      TreeIsHistory(rule, tree, earlier, Old(a));
      ActionLeaves(rule, t, a, path);
      ActionLeavesMode(rule, t, a, path);
    }
  }

  /** Deleting a file and creating it again with its own mode is an update with the new content. */
  lemma UpdateIsDeleteCreate(rule: PathRule, tree: Tree, path: string, bytes: seq<bv8>)
    requires Sound(rule, tree) && path in tree && !tree[path].mode.OtherMode?
    requires path != "" && NormalizeFilePath(path) == Some(path)
    ensures EffectAll(rule, tree, [DeleteAction(path), CreateAction(path, Entry(tree[path].mode, bytes))]) ==
            Effect(rule, tree, Action("update", path, "", Given(bytes), None))
    ensures Effect(rule, tree, Action("update", path, "", Given(bytes), None)) ==
            Ok(tree[path := Entry(tree[path].mode, bytes)])
  {
    var a, b := DeleteAction(path), CreateAction(path, Entry(tree[path].mode, bytes));
    var gone := tree - {path};
    assert !HasDescendant(gone, path) && Vacant(rule, gone, path);
    var made := gone[path := Entry(tree[path].mode, bytes)];
    assert made == tree[path := Entry(tree[path].mode, bytes)];
    assert [a, b][1..] == [b] && [b][1..] == [];
    assert Effect(rule, tree, a) == Ok(gone) && Effect(rule, gone, b) == Ok(made);
    assert EffectAll(rule, made, []) == Ok(made);
    assert EffectAll(rule, gone, [b]) == Ok(made);
  }

  // When an action applies.

  /** The request names a word and a path that are in order. */
  predicate WellFormed(a: Action) {
    && a.Action? && a.word in {"create", "update", "delete", "move", "chmod"}
    && a.filePath != "" && NormalizeFilePath(a.filePath).Some?
  }

  /** The tree has a file at a path that goes on from this one. */
  predicate DirectoryAt(tree: Tree, path: string) {
    exists q | q in tree :: path + "/" <= q
  }

  /** No file of the tree is where a directory of the path has to be, and git takes the path. */
  predicate Reachable(rule: PathRule, tree: Tree, path: string) {
    rule(path) && forall q | q in tree :: !(q + "/" <= path)
  }

  lemma AboveIff(a: string, b: string)
    ensures Above(a, b) <==> a + "/" <= b
  {
    if Above(a, b) {
      assert a + "/" == b[..|a| + 1];
    }
    if a + "/" <= b {
      assert b[..|a|] == (a + "/")[..|a|] == a && b[|a|] == (a + "/")[|a|];
    }
  }

  lemma VacantIff(rule: PathRule, tree: Tree, path: string)
    ensures HasDescendant(tree, path) <==> DirectoryAt(tree, path)
    ensures Vacant(rule, tree, path) <==> path !in tree && !DirectoryAt(tree, path) && Reachable(rule, tree, path)
  {
    forall q: string
      ensures Above(q, path) <==> q + "/" <= path
      ensures Above(path, q) <==> path + "/" <= q
    {
      AboveIff(q, path);
      AboveIff(path, q);
    }
  }

  /** A create applies exactly when it has content and the path is free, with no file or directory in its way. */
  lemma CreateAppliesIff(rule: PathRule, tree: Tree, a: Action, path: string)
    requires WellFormed(a) && DoneAt(a, "create", path)
    ensures Effect(rule, tree, a).Ok? <==>
            a.content.Given? && path !in tree && !DirectoryAt(tree, path) && Reachable(rule, tree, path)
    ensures Effect(rule, tree, a) == Err(GitFailed) <==>
            a.content.Given? && path !in tree && !DirectoryAt(tree, path) && !Reachable(rule, tree, path)
    ensures Effect(rule, tree, a) != Err(NotFound)
  {
    VacantIff(rule, tree, path);
  }

  /** A move applies exactly when there is a file to move, the path is free once that file is gone, and any content
      decodes; without a file to move it is not found. */
  lemma MoveAppliesIff(rule: PathRule, tree: Tree, a: Action, path: string)
    requires WellFormed(a) && DoneAt(a, "move", path)
    ensures var named := a.previousPath != "" && NormalizeFilePath(a.previousPath).Some?;
            var free := path !in tree && !DirectoryAt(tree, path) && !a.content.Undecodable?;
            && (Effect(rule, tree, a).Ok? <==>
                  named && Old(a) in tree && free && Reachable(rule, tree - {Old(a)}, path))
            && (Effect(rule, tree, a) == Err(GitFailed) <==>
                  named && Old(a) in tree && free && !Reachable(rule, tree - {Old(a)}, path))
            && (Effect(rule, tree, a) == Err(NotFound) <==> named && Old(a) !in tree)
  {
    VacantIff(rule, tree, path);
    VacantIff(rule, tree - {Old(a)}, path);
  }

  /** An update, a deletion or a chmod applies exactly when the file is there and an update has content, a chmod a flag;
      without the file it is not found. */
  lemma ChangeAppliesIff(rule: PathRule, tree: Tree, a: Action, path: string)
    requires WellFormed(a) && (DoneAt(a, "update", path) || DoneAt(a, "delete", path) || DoneAt(a, "chmod", path))
    ensures Effect(rule, tree, a).Ok? <==>
            && path in tree && (a.word == "update" ==> a.content.Given?) && (a.word == "chmod" ==> a.execute.Some?)
    ensures Effect(rule, tree, a) == Err(NotFound) <==> path !in tree
    ensures Effect(rule, tree, a) != Err(GitFailed)
  {
  }

  /** Anything else is refused as a bad request. */
  lemma MalformedRefused(rule: PathRule, tree: Tree, a: Action)
    requires !WellFormed(a)
    ensures Effect(rule, tree, a) == Err(BadRequest)
  {
  }

  // Paths.

  predicate AllSlashes(s: string) {
    forall k | 0 <= k < |s| :: s[k] == '/'
  }

  /** The part from i to j, between slashes or the ends of the path. */
  predicate SegmentIs(s: string, i: nat, j: nat, text: string) {
    && i <= j <= |s| && s[i..j] == text
    && (i == 0 || s[i - 1] == '/') && (j == |s| || s[j] == '/')
  }

  lemma DotSegmentIff(s: string)
    ensures HasDotSegment(s) <==> exists i: nat, j: nat :: SegmentIs(s, i, j, ".") || SegmentIs(s, i, j, "..")
  {
    if HasDotSegment(s) {
      var i :| 0 <= i < |s| && (i == 0 || s[i - 1] == '/') && DotSegmentAt(s, i);
      var text := if i + 1 == |s| || s[i + 1] == '/' then "." else "..";
      assert SegmentIs(s, i, i + |text|, text);
    }
    if i: nat, j: nat :| SegmentIs(s, i, j, ".") || SegmentIs(s, i, j, "..") {
      assert s[i..j][0] == s[i] && (j == i + 2 ==> s[i..j][1] == s[i + 1]);
      assert DotSegmentAt(s, i);
    }
  }

  lemma {:induction false} StripSlashesIs(s: string) returns (left: string, right: string)
    ensures s == left + StripSlashes(s) + right && AllSlashes(left) && AllSlashes(right)
    decreases |s|
  {
    left, right := "", "";
    var core := StripSlashes(s);
    if s != "" && s[0] == '/' {
      var rest;
      rest, right := StripSlashesIs(s[1..]);
      left := [s[0]] + rest;
      assert left + core + right == [s[0]] + (rest + core + right) == s;
    } else if s != "" && s[|s| - 1] == '/' {
      var n, rest := |s| - 1, "";
      left, rest := StripSlashesIs(s[..n]);
      right := rest + [s[n]];
      assert left + core + right == left + core + rest + [s[n]] == s;
    }
  }

  lemma {:induction false} StripSlashesAround(left: string, r: string, right: string)
    requires AllSlashes(left) && AllSlashes(right) && r != "" && r[0] != '/' && r[|r| - 1] != '/'
    ensures StripSlashes(left + r + right) == r
    decreases |left| + |right|
  {
    var s := left + r + right;
    if left != "" {
      assert s[1..] == left[1..] + r + right;
      StripSlashesAround(left[1..], r, right);
    } else if right != "" {
      var n := |right| - 1;
      assert s[..|s| - 1] == left + r + right[..n] && s[|s| - 1] == right[n] && s[0] == r[0];
      StripSlashesAround(left, r, right[..n]);
    } else {
      assert s == r;
    }
  }

  /** The path is what remains of the text without slashes around it: something, and no segment of it is a dot or
      two. */
  ghost predicate Means(s: string, path: string) {
    && path != "" && path[0] != '/' && path[|path| - 1] != '/'
    && (exists left, right :: s == left + path + right && AllSlashes(left) && AllSlashes(right))
    && (forall i: nat, j: nat :: !SegmentIs(path, i, j, ".") && !SegmentIs(path, i, j, ".."))
  }

  lemma PathIff(s: string, path: string)
    ensures NormalizeFilePath(s) == Some(path) <==> Means(s, path)
  {
    DotSegmentIff(path);
    if NormalizeFilePath(s) == Some(path) {
      var left, right := StripSlashesIs(s);
    }
    if Means(s, path) {
      var left, right :| s == left + path + right && AllSlashes(left) && AllSlashes(right);
      StripSlashesAround(left, path, right);
    }
  }
}
