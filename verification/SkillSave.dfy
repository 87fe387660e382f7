/** `save_file` and `_scan`: optimistic saves into a skill's directory tree, within its limits. */
module SkillSave {
  import opened Records

  /** Names from the skill's directory down to an entry. */
  type Path = seq<string>

  datatype Node = Directory | File(content: seq<Byte>)

  datatype Entry = Entry(path: Path, node: Node)

  /** A skill's entries, in the order a walk meets them. */
  type Tree = seq<Entry>

  datatype Skill = NoSkill | NotADirectory | Skill(tree: Tree)

  datatype Limits = Limits(maxBytes: nat, maxFiles: nat)

  const MAX_PREVIEW_BYTES := 1048576
  const SKILL_FILE: Path := ["SKILL.md"]
  const MISSING := "missing"

  /** The checks of names and of skill texts, white space, and the hash in its text form. */
  datatype Rules = Rules(
    validPath: Path -> bool, validName: string -> bool, isSpace: char -> bool,
    validSkill: (seq<Byte>, string) -> bool, hash: seq<Byte> -> string)
  {
    /** Hashes tell contents apart, and none reads "missing". */
    ghost predicate Valid() {
      && (forall a, b :: hash(a) == hash(b) ==> a == b)
      && (forall a :: hash(a) != MISSING)
      && (forall p :: validPath(p) ==> p != [])
    }
  }

  datatype SkillError =
    | InvalidPath | InvalidName | NotFound | WrongType | Blocked
    | TooLarge | SkillTooLarge | TooManyFiles | Changed | InvalidSkill | Conflict

  // ----- trees -----

  function Find(tree: Tree, path: Path): (node: Option<Node>)
    ensures node.None? <==> forall e | e in tree :: e.path != path
    ensures node.Some? ==> Entry(path, node.value) in tree
  {
    if tree == [] then None
    else
      var last := tree[|tree| - 1];
      assert tree == tree[..|tree| - 1] + [last];
      if last.path == path then Some(last.node) else Find(tree[..|tree| - 1], path)
  }

  function Size(node: Node): nat {
    match node
    case Directory => 0
    case File(content) => |content|
  }

  function Total(tree: Tree): nat {
    if tree == [] then 0 else Total(tree[..|tree| - 1]) + Size(tree[|tree| - 1].node)
  }

  ghost predicate DistinctPaths(tree: Tree) {
    forall i, j | 0 <= i < j < |tree| :: tree[i].path != tree[j].path
  }

  /** Everything above a path is a directory. */
  ghost predicate ParentsIn(tree: Tree, path: Path) {
    forall k | 0 < k < |path| :: Find(tree, path[..k]) == Some(Directory)
  }

  /** A directory tree: each path once, under directories only. */
  ghost predicate IsTree(tree: Tree) {
    DistinctPaths(tree) && forall e | e in tree :: ParentsIn(tree, e.path)
  }

  ghost predicate Within(tree: Tree, limits: Limits) {
    |tree| <= limits.maxFiles && Total(tree) <= limits.maxBytes
  }

  /** A file stands where the path needs a directory. */
  predicate IsBlocked(tree: Tree, path: Path) {
    exists k | 0 < k < |path| :: Find(tree, path[..k]).Some? && Find(tree, path[..k]).value.File?
  }

  /** `mkdir(parents=True)` for the first `k` directories of a path. */
  function WithDirectories(tree: Tree, path: Path, k: nat): (r: Tree)
    requires k <= |path|
    ensures tree <= r && |r| <= |tree| + k
  {
    if k == 0 then tree
    else
      var earlier := WithDirectories(tree, path, k - 1);
      if Find(earlier, path[..k]).None? then earlier + [Entry(path[..k], Directory)] else earlier
  }

  /** Replacing the content of a file that is there. */
  function Replaced(tree: Tree, path: Path, content: seq<Byte>): (r: Tree)
    ensures |r| == |tree|
  {
    if tree == [] then []
    else
      var n := |tree| - 1;
      Replaced(tree[..n], path, content) + [if tree[n].path == path then Entry(path, File(content)) else tree[n]]
  }

  // ----- white space -----

  function Strip(name: string, isSpace: char -> bool): string
    decreases |name|
  {
    if name == [] then []
    else if isSpace(name[0]) then Strip(name[1..], isSpace)
    else if isSpace(name[|name| - 1]) then Strip(name[..|name| - 1], isSpace)
    else name
  }

  // ----- one save -----

  datatype Save = Save(path: Path, content: seq<Byte>, expected: string, textOnly: bool)

  function SizeLimit(s: Save, limits: Limits): nat {
    if s.textOnly || s.path == SKILL_FILE then MAX_PREVIEW_BYTES else limits.maxBytes
  }

  function Revision(tree: Tree, path: Path, rules: Rules): string {
    match Find(tree, path)
    case None => MISSING
    case Some(Directory) => MISSING
    case Some(File(content)) => rules.hash(content)
  }

  /** Why a save is refused before it changes anything, in the order of the source's checks. */
  function Refusal(skill: Skill, directory: string, s: Save, limits: Limits, rules: Rules): Option<SkillError> {
    if !rules.validPath(s.path) then Some(InvalidPath)
    else if |s.content| > SizeLimit(s, limits) then Some(TooLarge)
    else if skill.NotADirectory? then Some(Blocked)
    else if skill.NoSkill? then Some(NotFound)
    else if IsBlocked(skill.tree, s.path) then Some(Blocked)
    else
      var found := Find(skill.tree, s.path);
      if found == Some(Directory) then Some(WrongType)
      else if found.Some? && Size(found.value) > limits.maxBytes then Some(TooLarge)
      else if Revision(skill.tree, s.path, rules) != s.expected then Some(Changed)
      else if s.path == SKILL_FILE && !rules.validSkill(s.content, directory) then Some(InvalidSkill)
      else ScanRefusal(skill.tree, s, limits)
  }

  function ScanRefusal(tree: Tree, s: Save, limits: Limits): Option<SkillError> {
    var found := Find(tree, s.path);
    var oldSize := if found.Some? then Size(found.value) else 0;
    if |tree| > limits.maxFiles then Some(TooManyFiles)
    else if Total(tree) > limits.maxBytes then Some(SkillTooLarge)
    else if Total(tree) - oldSize + |s.content| > limits.maxBytes then Some(SkillTooLarge)
    else if |tree| + (if found.Some? then 0 else |s.path|) > limits.maxFiles then Some(TooManyFiles)
    else None
  }

  /** The name a save writes under: a new file's name is stripped, an existing file's is not. */
  function WrittenPath(tree: Tree, path: Path, rules: Rules): (p: Path)
    requires path != []
    ensures |p| == |path| && p[..|p| - 1] == path[..|path| - 1]
  {
    if Find(tree, path).Some? then path
    else path[..|path| - 1] + [Strip(path[|path| - 1], rules.isSpace)]
  }

  /** The upload into the made directories: a new file never replaces an entry. */
  function Uploaded(made: Tree, s: Save, overwrite: bool, rules: Rules): (r: (Tree, Option<SkillError>))
    requires s.path != []
  {
    var last := s.path[|s.path| - 1];
    var target := if overwrite then s.path else s.path[..|s.path| - 1] + [Strip(last, rules.isSpace)];
    if !rules.validName(target[|target| - 1]) then (made, Some(InvalidName))
    else if overwrite then (Replaced(made, target, s.content), None)
    else if Find(made, target).Some? then (made, Some(Conflict))
    else (made + [Entry(target, File(s.content))], None)
  }

  /** What the write itself does, once the checks have passed; the directories stay even when the name is refused. */
  function Written(tree: Tree, s: Save, rules: Rules): (r: (Tree, Option<SkillError>))
    requires s.path != []
  {
    Uploaded(WithDirectories(tree, s.path, |s.path| - 1), s, Find(tree, s.path).Some?, rules)
  }

  function Saved(skill: Skill, directory: string, s: Save, limits: Limits, rules: Rules): (r: (Skill, Option<SkillError>))
    requires rules.validPath(s.path) ==> s.path != []
  {
    var refusal := Refusal(skill, directory, s, limits, rules);
    if refusal.Some? || !skill.Skill? then (skill, refusal)
    else
      var (tree, error) := Written(skill.tree, s, rules);
      (Skill(tree), error)
  }

  // ----- the manager -----

  class SkillManager {
    var skills: map<string, Skill>
    const limits: Limits
    const rules: Rules

    ghost predicate Valid()
      reads this
    {
      && rules.Valid()
      && forall d | d in skills && skills[d].Skill? :: IsTree(skills[d].tree)
    }

    function At(directory: string): Skill
      reads this
    {
      if directory in skills then skills[directory] else NoSkill
    }

    constructor (limits: Limits, rules: Rules, skills: map<string, Skill>)
      requires rules.Valid() && forall d | d in skills && skills[d].Skill? :: IsTree(skills[d].tree)
      ensures Valid() && this.limits == limits && this.rules == rules && this.skills == skills
    {
      this.limits, this.rules, this.skills := limits, rules, skills;
    }

    /** The walk that counts entries and bytes and stops at the first one past a limit. */
    method Scan(tree: Tree) returns (total: nat, error: Option<SkillError>)
      ensures error.None? <==> Within(tree, limits)
      ensures error.None? ==> total == Total(tree)
      ensures error.None? || error == Some(TooManyFiles) || error == Some(SkillTooLarge)
      ensures error == Some(TooManyFiles) ==> |tree| > limits.maxFiles
      ensures error == Some(SkillTooLarge) ==> Total(tree) > limits.maxBytes
    {
      total, error := 0, None;
      for i := 0 to |tree|
        invariant i <= limits.maxFiles && total == Total(tree[..i]) <= limits.maxBytes
      {
        assert tree[..i + 1][..i] == tree[..i];
        TotalGrows(tree, i + 1);
        if i >= limits.maxFiles {
          return total, Some(TooManyFiles);
        }
        if tree[i].node.File? {
          total := total + |tree[i].node.content|;
          if total > limits.maxBytes {
            return total, Some(SkillTooLarge);
          }
        }
      }
      assert tree[..|tree|] == tree;
    }

    /** The request names neither the content that is there nor, with none there, its absence. */
    predicate NamesOther(tree: Tree, s: Save) {
      match Find(tree, s.path)
      case Some(File(content)) => s.expected != rules.hash(content)
      case _ => s.expected != "missing"
    }

    /** Every check that comes before the write. */
    method Check(skill: Skill, directory: string, s: Save) returns (error: Option<SkillError>)
      ensures error.None? <==> Refusal(skill, directory, s, limits, rules).None?
      ensures skill.Skill? && Within(skill.tree, limits) ==> error == Refusal(skill, directory, s, limits, rules)
      ensures error == Some(InvalidPath) <==> !rules.validPath(s.path)
      ensures error == Some(TooLarge) ==>
        || |s.content| > (if s.textOnly || s.path == ["SKILL.md"] then 1048576 else limits.maxBytes)
        || (skill.Skill? && exists e :: e in skill.tree && e.path == s.path && e.node.File? && |e.node.content| > limits.maxBytes)
      ensures error == Some(Blocked) ==>
        || skill.NotADirectory?
        || (skill.Skill? && exists e :: e in skill.tree && e.node.File? && e.path != [] && e.path < s.path)
      ensures error == Some(NotFound) ==> skill.NoSkill?
      ensures error == Some(WrongType) ==> skill.Skill? && Entry(s.path, Directory) in skill.tree
      ensures error == Some(Changed) ==> skill.Skill? && NamesOther(skill.tree, s)
      ensures error == Some(InvalidSkill) ==> s.path == ["SKILL.md"] && !rules.validSkill(s.content, directory)
      ensures error == Some(TooManyFiles) ==> skill.Skill? && |skill.tree| + |s.path| > limits.maxFiles
      ensures error == Some(SkillTooLarge) ==> skill.Skill? && Total(skill.tree) + |s.content| > limits.maxBytes
      ensures error != Some(InvalidName) && error != Some(Conflict)
    {
      hide Total, IsBlocked, Find;
      if skill.Skill? {
        BlockedBy(skill.tree, s.path);
      }
      if !rules.validPath(s.path) {
        return Some(InvalidPath);
      }
      var limit := if s.textOnly || s.path == SKILL_FILE then MAX_PREVIEW_BYTES else limits.maxBytes;
      if |s.content| > limit {
        return Some(TooLarge);
      }
      if skill.NotADirectory? || (skill.Skill? && IsBlocked(skill.tree, s.path)) {
        return Some(Blocked);
      }
      if skill.NoSkill? {
        return Some(NotFound);
      }
      var found := Find(skill.tree, s.path);
      if found == Some(Directory) {
        return Some(WrongType);
      }
      if found.Some? && |found.value.content| > limits.maxBytes {
        return Some(TooLarge);
      }
      var revision := if found.Some? then rules.hash(found.value.content) else MISSING;
      if revision != s.expected {
        return Some(Changed);
      }
      if s.path == SKILL_FILE && !rules.validSkill(s.content, directory) {
        return Some(InvalidSkill);
      }
      error := CheckLimits(skill.tree, s, found);
    }

    method CheckLimits(tree: Tree, s: Save, found: Option<Node>) returns (error: Option<SkillError>)
      requires found == Find(tree, s.path)
      ensures error.None? <==> ScanRefusal(tree, s, limits).None?
      ensures Within(tree, limits) ==> error == ScanRefusal(tree, s, limits)
      ensures error.None? || error == Some(TooManyFiles) || error == Some(SkillTooLarge)
      ensures error == Some(TooManyFiles) ==> |tree| + (if found.Some? then 0 else |s.path|) > limits.maxFiles
      ensures error == Some(SkillTooLarge) ==>
        Total(tree) > limits.maxBytes || Total(tree) - (if found.Some? then Size(found.value) else 0) + |s.content| > limits.maxBytes
    {
      hide Total, Find;
      var total: nat;
      total, error := Scan(tree);
      if error.Some? {
        return;
      }
      var oldSize := if found.Some? then Size(found.value) else 0;
      if total - oldSize + |s.content| > limits.maxBytes {
        return Some(SkillTooLarge);
      }
      if |tree| + (if found.Some? then 0 else |s.path|) > limits.maxFiles {
        return Some(TooManyFiles);
      }
    }

    method SaveFile(directory: string, s: Save) returns (error: Option<SkillError>)
      requires Valid()
      modifies this`skills
      ensures Valid()
      ensures forall d | d != directory :: At(d) == old(At(d))
      ensures At(directory) == Saved(old(At(directory)), directory, s, limits, rules).0
      ensures error.None? <==> Saved(old(At(directory)), directory, s, limits, rules).1.None?
      ensures error.None? <==> old(At(directory)).Skill? && Meets(old(At(directory)).tree, directory, s, limits, rules)
    {
      hide Refusal, Written, Uploaded, WithDirectories, Find, IsTree, Within, Rules.Valid, Meets;
      var skill := At(directory);
      error := Check(skill, directory, s);
      if skill.Skill? {
        SucceedsIff(skill.tree, directory, s, limits, rules);
      }
      SaveKeepsLimits(skill, directory, s, limits, rules);
      if error.Some? {
        return;
      }
      RefusesNoSkill(skill, directory, s, limits, rules);
      var made := MakeDirectories(skill.tree, s.path);
      var tree: Tree;
      tree, error := Upload(made, s, Find(skill.tree, s.path).Some?);
      WrittenIs(skill.tree, s, rules, made);
      skills := skills[directory := Skill(tree)];
      if error.None? {
        // The summary that is returned scans once more.
        var total: nat;
        total, error := Scan(tree);
      }
    }

    method MakeDirectories(tree: Tree, path: Path) returns (made: Tree)
      requires path != []
      ensures made == WithDirectories(tree, path, |path| - 1)
    {
      made := tree;
      for k := 0 to |path| - 1
        invariant made == WithDirectories(tree, path, k)
      {
        if Find(made, path[..k + 1]).None? {
          made := made + [Entry(path[..k + 1], Directory)];
        }
      }
    }

    /** `upload_file`: only a new file's name is stripped, and a new file never replaces an entry. */
    method Upload(made: Tree, s: Save, overwrite: bool) returns (tree: Tree, error: Option<SkillError>)
      requires s.path != []
      ensures (tree, error) == Uploaded(made, s, overwrite, rules)
    {
      var last := s.path[|s.path| - 1];
      var name := if overwrite then last else Strip(last, rules.isSpace);
      if !rules.validName(name) {
        return made, Some(InvalidName);
      }
      var target := s.path[..|s.path| - 1] + [name];
      assert overwrite ==> target == s.path;
      if Find(made, target).Some? && !overwrite {
        return made, Some(Conflict);
      }
      if overwrite {
        return Replaced(made, target, s.content), None;
      }
      return made + [Entry(target, File(s.content))], None;
    }
  }

  lemma BlockedBy(tree: Tree, path: Path)
    ensures IsBlocked(tree, path) ==> exists e :: e in tree && e.node.File? && e.path != [] && e.path < path
  {
    if IsBlocked(tree, path) {
      var k :| 0 < k < |path| && Find(tree, path[..k]).Some? && Find(tree, path[..k]).value.File?;
      var e := Entry(path[..k], Find(tree, path[..k]).value);
      assert e in tree && e.path < path;
    }
  }

  lemma RefusesNoSkill(skill: Skill, directory: string, s: Save, limits: Limits, rules: Rules)
    requires rules.Valid() && Refusal(skill, directory, s, limits, rules).None?
    ensures skill.Skill? && s.path != [] && !IsBlocked(skill.tree, s.path) && Find(skill.tree, s.path) != Some(Directory)
    ensures Revision(skill.tree, s.path, rules) == s.expected && ScanRefusal(skill.tree, s, limits).None?
  {
  }

  lemma WrittenIs(tree: Tree, s: Save, rules: Rules, made: Tree)
    requires s.path != [] && made == WithDirectories(tree, s.path, |s.path| - 1)
    ensures Written(tree, s, rules) == Uploaded(made, s, Find(tree, s.path).Some?, rules)
  {
    hide Uploaded, WithDirectories, Find;
  }

  lemma {:induction false} TotalGrows(tree: Tree, k: nat)
    requires k <= |tree|
    ensures Total(tree[..k]) <= Total(tree)
    decreases |tree| - k
  {
    if k == |tree| {
      assert tree[..k] == tree;
    } else {
      TotalGrows(tree, k + 1);
      assert tree[..k + 1][..k] == tree[..k];
    }
  }

  // ----- what a write changes -----

  lemma FindAppended(tree: Tree, e: Entry, p: Path)
    ensures Find(tree + [e], p) == if e.path == p then Some(e.node) else Find(tree, p)
  {
  }

  lemma DirectoriesSnoc(tree: Tree, path: Path, k: nat, p: Path)
    requires 0 < k <= |path|
    ensures var earlier := WithDirectories(tree, path, k - 1);
      Find(WithDirectories(tree, path, k), p)
      == if Find(earlier, path[..k]).None? && p == path[..k] then Some(Directory) else Find(earlier, p)
  {
  }

  /** Making a path's directories adds those that are missing and changes nothing else. */
  lemma {:induction false} FindDirectories(tree: Tree, path: Path, k: nat, p: Path)
    requires k <= |path|
    ensures Find(WithDirectories(tree, path, k), p)
      == if Find(tree, p).Some? then Find(tree, p) else if 0 < |p| <= k && p == path[..|p|] then Some(Directory) else None
  {
    hide Find;
    if k > 0 {
      DirectoriesSnoc(tree, path, k, p);
      FindDirectories(tree, path, k - 1, p);
      FindDirectories(tree, path, k - 1, path[..k]);
      assert |p| == k && p == path[..|p|] ==> p == path[..k];
    }
  }

  lemma FindSnoc(tree: Tree, p: Path)
    requires tree != []
    ensures var n := |tree| - 1;
      Find(tree, p) == if tree[n].path == p then Some(tree[n].node) else Find(tree[..n], p)
  {
  }

  lemma {:induction false} FindReplaced(tree: Tree, path: Path, content: seq<Byte>, p: Path)
    ensures Find(Replaced(tree, path, content), p)
      == if p == path && Find(tree, p).Some? then Some(File(content)) else Find(tree, p)
  {
    if tree == [] {
      assert Replaced(tree, path, content) == [];
    } else {
      var n := |tree| - 1;
      var last := if tree[n].path == path then Entry(path, File(content)) else tree[n];
      assert Replaced(tree, path, content) == Replaced(tree[..n], path, content) + [last];
      hide Find, Replaced;
      FindReplaced(tree[..n], path, content, p);
      FindAppended(Replaced(tree[..n], path, content), last, p);
      FindSnoc(tree, p);
    }
  }

  // ----- the limits -----

  /** Sizes add up over any two parts of a tree: a file counts its bytes and a directory nothing. */
  lemma {:induction false} TotalConcat(left: Tree, right: Tree)
    ensures Total(left + right) == Total(left) + Total(right)
    ensures forall e: Entry :: Total([e]) == match e.node case Directory => 0 case File(content) => |content|
    decreases |right|
  {
    forall e: Entry ensures Total([e]) == match e.node case Directory => 0 case File(content) => |content| {
      assert [e][..0] == [];
    }
    if right == [] {
      assert left + right == left;
    } else {
      var n := |right| - 1;
      assert (left + right)[..|left| + n] == left + right[..n];
      TotalConcat(left, right[..n]);
    }
  }

  lemma TotalAppended(tree: Tree, e: Entry)
    ensures Total(tree + [e]) == Total(tree) + Size(e.node)
  {
  }

  lemma {:induction false} TotalDirectories(tree: Tree, path: Path, k: nat)
    requires k <= |path|
    ensures Total(WithDirectories(tree, path, k)) == Total(tree)
  {
    if k > 0 {
      TotalDirectories(tree, path, k - 1);
      TotalAppended(WithDirectories(tree, path, k - 1), Entry(path[..k], Directory));
    }
  }

  lemma {:induction false} AbsentUnchanged(tree: Tree, path: Path, content: seq<Byte>)
    requires Find(tree, path).None?
    ensures Replaced(tree, path, content) == tree
  {
    if tree != [] {
      var n := |tree| - 1;
      assert tree[n] in tree && tree == tree[..n] + [tree[n]];
      AbsentUnchanged(tree[..n], path, content);
    }
  }

  lemma {:induction false} TotalReplaced(tree: Tree, path: Path, content: seq<Byte>)
    requires DistinctPaths(tree) && Find(tree, path).Some?
    ensures Total(Replaced(tree, path, content)) == Total(tree) - Size(Find(tree, path).value) + |content|
  {
    var n := |tree| - 1;
    var front := tree[..n];
    var last := if tree[n].path == path then Entry(path, File(content)) else tree[n];
    if tree[n].path == path {
      AbsentUnchanged(front, path, content);
      TotalAppended(front, last);
    } else {
      TotalReplaced(front, path, content);
      TotalAppended(Replaced(front, path, content), last);
    }
  }

  lemma {:induction false} DirectoriesDistinct(tree: Tree, path: Path, k: nat)
    requires DistinctPaths(tree) && k <= |path|
    ensures DistinctPaths(WithDirectories(tree, path, k))
  {
    if k > 0 {
      DirectoriesDistinct(tree, path, k - 1);
    }
  }

  lemma {:induction false} ReplacedDistinct(tree: Tree, path: Path, content: seq<Byte>)
    requires DistinctPaths(tree)
    ensures DistinctPaths(Replaced(tree, path, content))
    ensures forall i | 0 <= i < |tree| :: Replaced(tree, path, content)[i].path == tree[i].path
  {
    if tree != [] {
      ReplacedDistinct(tree[..|tree| - 1], path, content);
    }
  }

  lemma {:induction false} DirectoriesThere(tree: Tree, path: Path, k: nat)
    requires k < |path| && ParentsIn(tree, path)
    ensures WithDirectories(tree, path, k) == tree
  {
    if k > 0 {
      DirectoriesThere(tree, path, k - 1);
    }
  }

  lemma {:induction false} DirectoriesMakeTree(tree: Tree, path: Path, k: nat)
    requires IsTree(tree) && k < |path| && !IsBlocked(tree, path)
    ensures IsTree(WithDirectories(tree, path, k))
  {
    DirectoriesDistinct(tree, path, k);
    var made := WithDirectories(tree, path, k);
    forall e, j | e in made && 0 < j < |e.path| ensures Find(made, e.path[..j]) == Some(Directory) {
      FindDirectories(tree, path, k, e.path[..j]);
      MadeEntry(tree, path, k, e);
      if e in tree {
        assert ParentsIn(tree, e.path);
      } else {
        assert e.path[..j] == path[..j];
        if Find(tree, path[..j]).Some? {
          assert !Find(tree, path[..j]).value.File?;
        }
      }
    }
  }

  lemma {:induction false} MadeEntry(tree: Tree, path: Path, k: nat, e: Entry)
    requires k <= |path| && e in WithDirectories(tree, path, k)
    ensures e in tree || (0 < |e.path| <= k && e.path == path[..|e.path|])
  {
    hide Find;
    if k > 0 && e in WithDirectories(tree, path, k - 1) {
      MadeEntry(tree, path, k - 1, e);
    }
  }

  lemma NotBlockedAt(tree: Tree, path: Path, k: nat)
    requires 0 < k < |path| && !IsBlocked(tree, path)
    ensures Find(tree, path[..k]).Some? ==> Find(tree, path[..k]) == Some(Directory)
  {
  }

  lemma DirectoriesAbove(tree: Tree, path: Path)
    requires path != [] && !IsBlocked(tree, path)
    ensures ParentsIn(WithDirectories(tree, path, |path| - 1), path)
  {
    hide Find, WithDirectories, IsBlocked;
    forall k | 0 < k < |path| ensures Find(WithDirectories(tree, path, |path| - 1), path[..k]) == Some(Directory) {
      FindDirectories(tree, path, |path| - 1, path[..k]);
      NotBlockedAt(tree, path, k);
      assert |path[..k]| == k;
    }
  }

  lemma ReplacedIsTree(tree: Tree, path: Path, content: seq<Byte>)
    requires IsTree(tree) && path != [] && Find(tree, path).Some? && Find(tree, path).value.File?
    ensures IsTree(Replaced(tree, path, content))
  {
    ReplacedDistinct(tree, path, content);
    var after := Replaced(tree, path, content);
    forall e, j | e in after && 0 < j < |e.path| ensures Find(after, e.path[..j]) == Some(Directory) {
      var i :| 0 <= i < |after| && after[i] == e;
      assert tree[i] in tree && tree[i].path == e.path;
      assert ParentsIn(tree, e.path);
      FindReplaced(tree, path, content, e.path[..j]);
    }
  }

  lemma AddedIsTree(tree: Tree, e: Entry)
    requires IsTree(tree) && Find(tree, e.path).None? && ParentsIn(tree, e.path)
    ensures IsTree(tree + [e])
  {
  }

  /** Writing over a file needs no directory and replaces that file alone. */
  lemma Overwrites(tree: Tree, s: Save, rules: Rules)
    requires IsTree(tree) && s.path != [] && Find(tree, s.path).Some?
    ensures WrittenPath(tree, s.path, rules) == s.path
    ensures Written(tree, s, rules)
      == if rules.validName(s.path[|s.path| - 1]) then (Replaced(tree, s.path, s.content), None) else (tree, Some(InvalidName))
  {
    assert ParentsIn(tree, Entry(s.path, Find(tree, s.path).value).path);
    hide ParentsIn, IsTree, Replaced, Find;
    DirectoriesThere(tree, s.path, |s.path| - 1);
  }

  /** A new file comes after the directories it needs, under its stripped name, unless that is taken. */
  lemma AddsNew(tree: Tree, s: Save, rules: Rules)
    requires s.path != [] && Find(tree, s.path).None?
    ensures var made, target := WithDirectories(tree, s.path, |s.path| - 1), WrittenPath(tree, s.path, rules);
      var (after, error) := Written(tree, s, rules);
      && (error.None? <==> rules.validName(target[|target| - 1]) && Find(made, target).None?)
      && after == if error.None? then made + [Entry(target, File(s.content))] else made
  {
  }

  /** After a successful save, exactly the written file and the directories it needed are different. */
  lemma WrittenFiles(tree: Tree, s: Save, rules: Rules, p: Path)
    requires IsTree(tree) && s.path != [] && Written(tree, s, rules).1.None?
    ensures var target := WrittenPath(tree, s.path, rules);
      Find(Written(tree, s, rules).0, p)
      == if p == target then Some(File(s.content))
         else if Find(tree, p).Some? then Find(tree, p)
         else if 0 < |p| < |s.path| && p == s.path[..|p|] && Find(tree, s.path).None? then Some(Directory) else None
  {
    hide Find, WithDirectories, Replaced, Strip, Written, WrittenPath, IsTree;
    if Find(tree, s.path).Some? {
      Overwrites(tree, s, rules);
      FindReplaced(tree, s.path, s.content, p);
    } else {
      AddsNew(tree, s, rules);
      var made, target := WithDirectories(tree, s.path, |s.path| - 1), WrittenPath(tree, s.path, rules);
      FindDirectories(tree, s.path, |s.path| - 1, p);
      FindAppended(made, Entry(target, File(s.content)), p);
    }
  }

  /** A save that fails at the write leaves every entry as it was. */
  lemma FailedWrite(tree: Tree, s: Save, rules: Rules, p: Path)
    requires IsTree(tree) && s.path != [] && Written(tree, s, rules).1.Some? && Find(tree, p).Some?
    ensures Find(Written(tree, s, rules).0, p) == Find(tree, p)
  {
    hide Find, WithDirectories, Replaced, Strip, Written, WrittenPath, IsTree;
    if Find(tree, s.path).Some? {
      Overwrites(tree, s, rules);
    } else {
      AddsNew(tree, s, rules);
      FindDirectories(tree, s.path, |s.path| - 1, p);
    }
  }

  lemma SamePrefix(path: Path, target: Path, k: nat)
    requires path != [] && |target| == |path| && target[..|path| - 1] == path[..|path| - 1] && k < |path|
    ensures target[..k] == path[..k]
  {
  }

  lemma NewFileIsTree(tree: Tree, path: Path, target: Path, content: seq<Byte>)
    requires IsTree(tree) && path != [] && !IsBlocked(tree, path) && |target| == |path| && target[..|path| - 1] == path[..|path| - 1]
    requires Find(WithDirectories(tree, path, |path| - 1), target).None?
    ensures IsTree(WithDirectories(tree, path, |path| - 1) + [Entry(target, File(content))])
  {
    hide Find, WithDirectories, IsTree, IsBlocked;
    var made := WithDirectories(tree, path, |path| - 1);
    DirectoriesMakeTree(tree, path, |path| - 1);
    DirectoriesAbove(tree, path);
    forall k | 0 < k < |target| ensures Find(made, target[..k]) == Some(Directory) {
      SamePrefix(path, target, k);
    }
    AddedIsTree(made, Entry(target, File(content)));
  }

  lemma WrittenIsTree(tree: Tree, s: Save, rules: Rules)
    requires IsTree(tree) && s.path != [] && !IsBlocked(tree, s.path) && Find(tree, s.path) != Some(Directory)
    ensures IsTree(Written(tree, s, rules).0)
  {
    hide Find, WithDirectories, Replaced, Strip, Written, WrittenPath, IsTree, IsBlocked;
    if Find(tree, s.path).Some? {
      Overwrites(tree, s, rules);
      ReplacedIsTree(tree, s.path, s.content);
    } else {
      AddsNew(tree, s, rules);
      DirectoriesMakeTree(tree, s.path, |s.path| - 1);
      if Written(tree, s, rules).1.None? {
        NewFileIsTree(tree, s.path, WrittenPath(tree, s.path, rules), s.content);
      }
    }
  }

  lemma WrittenSize(tree: Tree, s: Save, limits: Limits, rules: Rules)
    requires IsTree(tree) && s.path != [] && ScanRefusal(tree, s, limits).None?
    ensures Within(Written(tree, s, rules).0, limits)
  {
    hide Find, WithDirectories, Replaced, Strip, Written, WrittenPath, Total;
    if Find(tree, s.path).Some? {
      Overwrites(tree, s, rules);
      TotalReplaced(tree, s.path, s.content);
    } else {
      AddsNew(tree, s, rules);
      TotalDirectories(tree, s.path, |s.path| - 1);
      var made, target := WithDirectories(tree, s.path, |s.path| - 1), WrittenPath(tree, s.path, rules);
      TotalAppended(made, Entry(target, File(s.content)));
    }
  }

  /** The checks made before the write are enough: whatever the write does, the tree keeps to its limits. */
  lemma WrittenWithin(tree: Tree, directory: string, s: Save, limits: Limits, rules: Rules)
    requires rules.Valid() && IsTree(tree)
    requires Refusal(Skill(tree), directory, s, limits, rules).None?
    ensures s.path != [] && IsTree(Written(tree, s, rules).0) && Within(Written(tree, s, rules).0, limits)
  {
    hide Refusal, IsTree, Written, Find, IsBlocked, ScanRefusal, Within;
    RefusesNoSkill(Skill(tree), directory, s, limits, rules);
    WrittenIsTree(tree, s, rules);
    WrittenSize(tree, s, limits, rules);
  }

  /** Any save leaves a tree that was within its limits within them, and a successful one leaves it so from any tree. */
  lemma SaveKeepsLimits(skill: Skill, directory: string, s: Save, limits: Limits, rules: Rules)
    requires rules.Valid() && (skill.Skill? ==> IsTree(skill.tree))
    ensures var (after, error) := Saved(skill, directory, s, limits, rules);
      && (after.Skill? <==> skill.Skill?)
      && (after.Skill? ==> IsTree(after.tree))
      && (error.None? ==> after.Skill? && Within(after.tree, limits))
      && (skill.Skill? && Within(skill.tree, limits) ==> Within(after.tree, limits))
  {
    if skill.Skill? && Refusal(skill, directory, s, limits, rules).None? {
      WrittenWithin(skill.tree, directory, s, limits, rules);
    }
  }

  // ----- which saves succeed -----

  /** A save over a file of the content it names. */
  predicate Replaces(tree: Tree, s: Save, content: seq<Byte>, limits: Limits, rules: Rules)
    requires s.path != []
  {
    && Entry(s.path, File(content)) in tree && s.expected == rules.hash(content)
    && |content| <= limits.maxBytes && Total(tree) - |content| + |s.content| <= limits.maxBytes
    && rules.validName(s.path[|s.path| - 1])
  }

  /** A save of a file that is not there, neither under its name nor under its stripped name. */
  predicate Adds(tree: Tree, s: Save, limits: Limits, rules: Rules)
    requires s.path != []
  {
    var name := Strip(s.path[|s.path| - 1], rules.isSpace);
    && (forall e | e in tree :: e.path != s.path && e.path != s.path[..|s.path| - 1] + [name])
    && s.expected == "missing" && Total(tree) + |s.content| <= limits.maxBytes && |tree| + |s.path| <= limits.maxFiles
    && rules.validName(name)
  }

  /** What a save must meet, told on the entries of the tree. */
  ghost predicate Meets(tree: Tree, directory: string, s: Save, limits: Limits, rules: Rules) {
    && rules.validPath(s.path) && s.path != []
    && |s.content| <= (if s.textOnly || s.path == ["SKILL.md"] then 1048576 else limits.maxBytes)
    && (s.path == ["SKILL.md"] ==> rules.validSkill(s.content, directory))
    && (forall e | e in tree && e.node.File? :: e.path == [] || !(e.path < s.path))
    && |tree| <= limits.maxFiles && Total(tree) <= limits.maxBytes
    && (Adds(tree, s, limits, rules) || exists c :: Replaces(tree, s, c, limits, rules))
  }

  lemma FindIs(tree: Tree, path: Path, node: Node)
    requires DistinctPaths(tree)
    ensures Find(tree, path) == Some(node) <==> Entry(path, node) in tree
  {
    if Entry(path, node) in tree {
      var i :| 0 <= i < |tree| && tree[i] == Entry(path, node);
      assert Find(tree, path).Some?;
      var j :| 0 <= j < |tree| && tree[j] == Entry(path, Find(tree, path).value);
    }
  }

  lemma BlockedIs(tree: Tree, path: Path)
    requires DistinctPaths(tree)
    ensures !IsBlocked(tree, path) <==> forall e | e in tree && e.node.File? :: e.path == [] || !(e.path < path)
  {
    hide Find, DistinctPaths;
    if IsBlocked(tree, path) {
      var k :| 0 < k < |path| && Find(tree, path[..k]).Some? && Find(tree, path[..k]).value.File?;
      FindIs(tree, path[..k], Find(tree, path[..k]).value);
    }
    forall e | e in tree && e.node.File? && e.path != [] && e.path < path ensures IsBlocked(tree, path) {
      FindIs(tree, e.path, e.node);
      assert e.path == path[..|e.path|];
    }
  }

  lemma RefusalIs(tree: Tree, directory: string, s: Save, limits: Limits, rules: Rules)
    ensures Refusal(Skill(tree), directory, s, limits, rules).None? <==>
      && rules.validPath(s.path)
      && |s.content| <= (if s.textOnly || s.path == ["SKILL.md"] then 1048576 else limits.maxBytes)
      && !IsBlocked(tree, s.path) && Find(tree, s.path) != Some(Directory)
      && (Find(tree, s.path).Some? ==> Size(Find(tree, s.path).value) <= limits.maxBytes)
      && Revision(tree, s.path, rules) == s.expected
      && (s.path == ["SKILL.md"] ==> rules.validSkill(s.content, directory))
      && ScanRefusal(tree, s, limits).None?
  {
    hide Find, IsBlocked, ScanRefusal, Revision;
  }

  lemma ReplaceSucceeds(tree: Tree, directory: string, s: Save, limits: Limits, rules: Rules, content: seq<Byte>)
    requires rules.Valid() && IsTree(tree) && s.path != [] && Find(tree, s.path) == Some(File(content))
    ensures Saved(Skill(tree), directory, s, limits, rules).1.None? <==>
      && Refusal(Skill(tree), directory, s, limits, rules).None?
      && rules.validName(s.path[|s.path| - 1])
  {
    hide Refusal, Written, IsTree, Find;
    Overwrites(tree, s, rules);
  }

  lemma AddSucceeds(tree: Tree, directory: string, s: Save, limits: Limits, rules: Rules)
    requires s.path != [] && Find(tree, s.path).None?
    ensures var name := Strip(s.path[|s.path| - 1], rules.isSpace);
      Saved(Skill(tree), directory, s, limits, rules).1.None? <==>
        && Refusal(Skill(tree), directory, s, limits, rules).None?
        && rules.validName(name) && Find(tree, s.path[..|s.path| - 1] + [name]).None?
  {
    hide Refusal, Written, Find, WithDirectories, Strip;
    AddsNew(tree, s, rules);
    FindDirectories(tree, s.path, |s.path| - 1, WrittenPath(tree, s.path, rules));
  }

  lemma Adding(tree: Tree, s: Save, limits: Limits, rules: Rules)
    requires s.path != [] && Find(tree, s.path).None?
    ensures var name := Strip(s.path[|s.path| - 1], rules.isSpace);
      Adds(tree, s, limits, rules) || (exists c :: Replaces(tree, s, c, limits, rules)) <==>
        && s.expected == Revision(tree, s.path, rules) && ScanRefusal(tree, s, limits).None?
        && Find(tree, s.path[..|s.path| - 1] + [name]).None? && rules.validName(name)
    requires Total(tree) <= limits.maxBytes && |tree| <= limits.maxFiles
  {
    hide Strip, Total;
  }

  lemma Replacing(tree: Tree, s: Save, limits: Limits, rules: Rules, content: seq<Byte>)
    requires rules.Valid() && DistinctPaths(tree) && s.path != [] && Find(tree, s.path) == Some(File(content))
    requires Total(tree) <= limits.maxBytes && |tree| <= limits.maxFiles
    ensures Adds(tree, s, limits, rules) || (exists c :: Replaces(tree, s, c, limits, rules)) <==>
      && s.expected == Revision(tree, s.path, rules) && ScanRefusal(tree, s, limits).None?
      && |content| <= limits.maxBytes && rules.validName(s.path[|s.path| - 1])
  {
    hide Find, Strip, Total, DistinctPaths;
    forall c ensures Entry(s.path, File(c)) in tree <==> c == content {
      FindIs(tree, s.path, File(c));
    }
    if s.expected == rules.hash(content) && ScanRefusal(tree, s, limits).None? {
      assert Replaces(tree, s, content, limits, rules) <==>
        |content| <= limits.maxBytes && rules.validName(s.path[|s.path| - 1]);
    }
  }

  lemma OverDirectory(tree: Tree, directory: string, s: Save, limits: Limits, rules: Rules)
    requires DistinctPaths(tree) && s.path != [] && Find(tree, s.path) == Some(Directory)
    ensures !Adds(tree, s, limits, rules) && forall c :: !Replaces(tree, s, c, limits, rules)
    ensures Saved(Skill(tree), directory, s, limits, rules).1.Some?
  {
    hide Strip, Total, Find, DistinctPaths;
    FindIs(tree, s.path, Directory);
    forall c ensures Entry(s.path, File(c)) !in tree {
      FindIs(tree, s.path, File(c));
    }
    RefusalIs(tree, directory, s, limits, rules);
  }

  lemma ScanFits(tree: Tree, s: Save, limits: Limits)
    ensures ScanRefusal(tree, s, limits).None? ==> Total(tree) <= limits.maxBytes && |tree| <= limits.maxFiles
  {
    hide Total, Find;
  }

  lemma RefusedFails(tree: Tree, directory: string, s: Save, limits: Limits, rules: Rules)
    requires rules.Valid()
    ensures Saved(Skill(tree), directory, s, limits, rules).1.None? ==>
      Refusal(Skill(tree), directory, s, limits, rules).None? && s.path != []
  {
    hide Refusal, Written;
    if Refusal(Skill(tree), directory, s, limits, rules).None? {
      RefusesNoSkill(Skill(tree), directory, s, limits, rules);
    }
  }

  /** A save succeeds exactly when it meets its conditions, each about the request, the limits and the entries there are. */
  lemma SucceedsIff(tree: Tree, directory: string, s: Save, limits: Limits, rules: Rules)
    requires rules.Valid() && IsTree(tree)
    ensures Saved(Skill(tree), directory, s, limits, rules).1.None? <==> Meets(tree, directory, s, limits, rules)
  {
    hide Saved, Refusal, IsBlocked, Strip, Total, Find, Adds, Replaces, ScanRefusal, Revision, Rules.Valid;
    RefusalIs(tree, directory, s, limits, rules);
    BlockedIs(tree, s.path);
    ScanFits(tree, s, limits);
    RefusedFails(tree, directory, s, limits, rules);
    if s.path != [] && Total(tree) <= limits.maxBytes && |tree| <= limits.maxFiles {
      match Find(tree, s.path)
      case None =>
        AddSucceeds(tree, directory, s, limits, rules);
        Adding(tree, s, limits, rules);
      case Some(Directory) =>
        OverDirectory(tree, directory, s, limits, rules);
      case Some(File(content)) =>
        ReplaceSucceeds(tree, directory, s, limits, rules, content);
        Replacing(tree, s, limits, rules, content);
    }
  }

  // ----- no lost update -----

  /** A name that the write keeps as it is. */
  predicate Stable(tree: Tree, path: Path, rules: Rules) {
    path != [] && WrittenPath(tree, path, rules) == path
  }

  /** A successful save replaced the content it named. */
  lemma SaveNamesContent(tree: Tree, directory: string, s: Save, limits: Limits, rules: Rules)
    requires rules.Valid() && IsTree(tree) && Saved(Skill(tree), directory, s, limits, rules).1.None?
    ensures s.expected == Revision(tree, s.path, rules)
    ensures forall c :: s.expected == rules.hash(c) <==> Find(tree, s.path) == Some(File(c))
    ensures s.expected == MISSING <==> Find(tree, s.path).None?
    ensures Find(Saved(Skill(tree), directory, s, limits, rules).0.tree, s.path) == Some(File(s.content))
      <==> Stable(tree, s.path, rules)
  {
    hide Refusal, Written, WrittenPath, IsTree, Find;
    RefusesNoSkill(Skill(tree), directory, s, limits, rules);
    WrittenFiles(tree, s, rules, s.path);
    StablePath(tree, s.path, rules);
  }

  lemma StablePath(tree: Tree, path: Path, rules: Rules)
    requires path != []
    ensures Find(tree, path).Some? ==> Stable(tree, path, rules)
  {
  }

  /** Saves to other paths, and saves that fail, leave a file's content alone. */
  lemma OtherSavesKeep(skill: Skill, directory: string, s: Save, limits: Limits, rules: Rules, p: Path, content: seq<Byte>)
    requires rules.Valid() && skill.Skill? && IsTree(skill.tree) && Find(skill.tree, p) == Some(File(content))
    requires s.path != p || Saved(skill, directory, s, limits, rules).1.Some?
    ensures var after := Saved(skill, directory, s, limits, rules).0;
      after.Skill? && Find(after.tree, p) == Some(File(content))
  {
    hide Refusal, Written, WrittenPath, IsTree, Find;
    var tree := skill.tree;
    if Refusal(skill, directory, s, limits, rules).None? {
      RefusesNoSkill(skill, directory, s, limits, rules);
      if Written(tree, s, rules).1.None? {
        WrittenFiles(tree, s, rules, p);
        NotThatFile(tree, s, rules, p);
      } else {
        FailedWrite(tree, s, rules, p);
      }
    }
  }

  /** A success writes to its own path or to one that held nothing. */
  lemma NotThatFile(tree: Tree, s: Save, rules: Rules, p: Path)
    requires IsTree(tree) && s.path != [] && Written(tree, s, rules).1.None?
    requires Find(tree, p).Some? && s.path != p
    ensures WrittenPath(tree, s.path, rules) != p
  {
  }

  function After(skill: Skill, directory: string, saves: seq<Save>, limits: Limits, rules: Rules): Skill
    requires forall s | s in saves :: rules.validPath(s.path) ==> s.path != []
  {
    if saves == [] then skill
    else Saved(After(skill, directory, saves[..|saves| - 1], limits, rules), directory, saves[|saves| - 1], limits, rules).0
  }

  ghost predicate Succeeds(skill: Skill, directory: string, saves: seq<Save>, i: nat, limits: Limits, rules: Rules)
    requires rules.Valid() && i < |saves|
  {
    Saved(After(skill, directory, saves[..i], limits, rules), directory, saves[i], limits, rules).1.None?
  }

  lemma {:induction false} AfterIsTree(skill: Skill, directory: string, saves: seq<Save>, limits: Limits, rules: Rules)
    requires rules.Valid() && (skill.Skill? ==> IsTree(skill.tree))
    ensures var after := After(skill, directory, saves, limits, rules);
      && (after.Skill? <==> skill.Skill?) && (after.Skill? ==> IsTree(after.tree))
  {
    if saves != [] {
      hide Saved, IsTree;
      AfterIsTree(skill, directory, saves[..|saves| - 1], limits, rules);
      SaveKeepsLimits(After(skill, directory, saves[..|saves| - 1], limits, rules), directory, saves[|saves| - 1], limits, rules);
    }
  }

  /** Between two successes on a path, its content is what the first one wrote. */
  lemma {:induction false} ContentStays(
      skill: Skill, directory: string, saves: seq<Save>, i: nat, j: nat, limits: Limits, rules: Rules)
    requires rules.Valid() && (skill.Skill? ==> IsTree(skill.tree)) && i < j <= |saves|
    requires Succeeds(skill, directory, saves, i, limits, rules)
    requires var before := After(skill, directory, saves[..i], limits, rules);
      before.Skill? ==> Stable(before.tree, saves[i].path, rules)
    requires forall k | i < k < j ::
      saves[k].path != saves[i].path || !Succeeds(skill, directory, saves, k, limits, rules)
    ensures var after := After(skill, directory, saves[..j], limits, rules);
      after.Skill? && Find(after.tree, saves[i].path) == Some(File(saves[i].content))
    decreases j
  {
    hide Saved, IsTree, Find, Stable, After;
    var before, last := After(skill, directory, saves[..j - 1], limits, rules), saves[j - 1];
    AfterIsTree(skill, directory, saves[..j - 1], limits, rules);
    AfterSnoc(skill, directory, saves, j, limits, rules);
    if j == i + 1 {
      assert saves[i] == last;
      FirstSuccess(before, directory, last, limits, rules);
    } else {
      ContentStays(skill, directory, saves, i, j - 1, limits, rules);
      OtherSavesKeep(before, directory, last, limits, rules, saves[i].path, saves[i].content);
    }
  }

  lemma FirstSuccess(before: Skill, directory: string, s: Save, limits: Limits, rules: Rules)
    requires rules.Valid() && (before.Skill? ==> IsTree(before.tree) && Stable(before.tree, s.path, rules))
    requires Saved(before, directory, s, limits, rules).1.None?
    ensures var after := Saved(before, directory, s, limits, rules).0;
      after.Skill? && Find(after.tree, s.path) == Some(File(s.content))
  {
    SaveKeepsLimits(before, directory, s, limits, rules);
    hide IsTree, Find, Stable, Saved;
    SaveNamesContent(before.tree, directory, s, limits, rules);
  }

  lemma AfterSnoc(skill: Skill, directory: string, saves: seq<Save>, j: nat, limits: Limits, rules: Rules)
    requires rules.Valid() && 0 < j <= |saves|
    ensures After(skill, directory, saves[..j], limits, rules)
      == Saved(After(skill, directory, saves[..j - 1], limits, rules), directory, saves[j - 1], limits, rules).0
  {
    assert saves[..j][..j - 1] == saves[..j - 1];
    hide Saved;
  }

  // ----- names that need stripping -----

  predicate Padded(path: Path, rules: Rules) {
    path != [] && Strip(path[|path| - 1], rules.isSpace) != path[|path| - 1]
  }

  lemma {:induction false} StripTwice(name: string, isSpace: char -> bool)
    ensures Strip(Strip(name, isSpace), isSpace) == Strip(name, isSpace)
    decreases |name|
  {
    if name != [] {
      if isSpace(name[0]) {
        StripTwice(name[1..], isSpace);
      } else if isSpace(name[|name| - 1]) {
        StripTwice(name[..|name| - 1], isSpace);
      }
    }
  }

  /** A name without the white space before and after it. */
  ghost predicate IsStripped(name: string, r: string, isSpace: char -> bool) {
    && (r != [] ==> !isSpace(r[0]) && !isSpace(r[|r| - 1]))
    && exists before, after :: Surrounds(name, before, r, after, isSpace)
  }

  predicate Surrounds(name: string, before: string, r: string, after: string, isSpace: char -> bool) {
    && name == before + r + after
    && (forall c | c in before :: isSpace(c)) && forall c | c in after :: isSpace(c)
  }

  lemma MoreAround(name: string, before: string, r: string, after: string, c: char, isSpace: char -> bool)
    requires Surrounds(name, before, r, after, isSpace) && isSpace(c)
    ensures Surrounds([c] + name, [c] + before, r, after, isSpace)
    ensures Surrounds(name + [c], before, r, after + [c], isSpace)
  {
    assert before + r + (after + [c]) == name + [c];
    assert [c] + before + r + after == [c] + name;
  }

  lemma NothingAround(name: string, isSpace: char -> bool)
    ensures Surrounds(name, [], name, [], isSpace)
  {
  }

  lemma {:induction false} StripIs(name: string, isSpace: char -> bool)
    ensures IsStripped(name, Strip(name, isSpace), isSpace)
    decreases |name|
  {
    hide Surrounds;
    var r, n := Strip(name, isSpace), |name|;
    if name != [] && isSpace(name[0]) {
      assert name == [name[0]] + name[1..];
      StripIs(name[1..], isSpace);
      var before, after :| Surrounds(name[1..], before, r, after, isSpace);
      MoreAround(name[1..], before, r, after, name[0], isSpace);
    } else if name != [] && isSpace(name[n - 1]) {
      assert name == name[..n - 1] + [name[n - 1]];
      StripIs(name[..n - 1], isSpace);
      var before, after :| Surrounds(name[..n - 1], before, r, after, isSpace);
      MoreAround(name[..n - 1], before, r, after, name[n - 1], isSpace);
    } else {
      NothingAround(name, isSpace);
    }
  }

  predicate NoFile(skill: Skill, p: Path) {
    skill.Skill? && Find(skill.tree, p).Some? ==> Find(skill.tree, p).value.Directory?
  }

  /** A new file is never written under a padded name. */
  lemma WrittenUnpadded(tree: Tree, path: Path, rules: Rules)
    requires path != [] && Find(tree, path).None?
    ensures !Padded(WrittenPath(tree, path, rules), rules)
  {
    StripTwice(path[|path| - 1], rules.isSpace);
  }

  lemma PaddedWrite(tree: Tree, s: Save, rules: Rules, p: Path)
    requires IsTree(tree) && s.path != [] && Padded(p, rules) && NoFile(Skill(tree), p)
    requires Find(tree, s.path) != Some(Directory)
    ensures NoFile(Skill(Written(tree, s, rules).0), p)
  {
    hide Written, WrittenPath, IsTree, Find, Padded, WithDirectories, Replaced, Strip;
    if Find(tree, s.path).Some? {
      Overwrites(tree, s, rules);
      FindReplaced(tree, s.path, s.content, p);
    } else {
      AddsNew(tree, s, rules);
      WrittenUnpadded(tree, s.path, rules);
      var made, target := WithDirectories(tree, s.path, |s.path| - 1), WrittenPath(tree, s.path, rules);
      FindDirectories(tree, s.path, |s.path| - 1, p);
      FindAppended(made, Entry(target, File(s.content)), p);
    }
  }

  /** A padded path that holds no file never holds one. */
  lemma {:induction false} PaddedStaysEmpty(
      skill: Skill, directory: string, saves: seq<Save>, i: nat, j: nat, limits: Limits, rules: Rules, p: Path)
    requires rules.Valid() && (skill.Skill? ==> IsTree(skill.tree)) && i <= j <= |saves| && Padded(p, rules)
    requires NoFile(After(skill, directory, saves[..i], limits, rules), p)
    ensures NoFile(After(skill, directory, saves[..j], limits, rules), p)
    decreases j
  {
    hide IsTree, Find, After, Padded, NoFile, Saved;
    if i < j {
      var before, s := After(skill, directory, saves[..j - 1], limits, rules), saves[j - 1];
      PaddedStaysEmpty(skill, directory, saves, i, j - 1, limits, rules, p);
      AfterIsTree(skill, directory, saves[..j - 1], limits, rules);
      AfterSnoc(skill, directory, saves, j, limits, rules);
      PaddedSave(before, directory, s, limits, rules, p);
    }
  }

  lemma PaddedSave(before: Skill, directory: string, s: Save, limits: Limits, rules: Rules, p: Path)
    requires rules.Valid() && (before.Skill? ==> IsTree(before.tree)) && Padded(p, rules) && NoFile(before, p)
    ensures NoFile(Saved(before, directory, s, limits, rules).0, p)
  {
    hide IsTree, Find, Padded, NoFile, Written, Refusal, Rules.Valid;
    ValidPathNonempty(s, rules);
    if Refusal(before, directory, s, limits, rules).None? {
      RefusesNoSkill(before, directory, s, limits, rules);
      PaddedWrite(before.tree, s, rules, p);
    }
  }

  lemma ValidPathNonempty(s: Save, rules: Rules)
    requires rules.Valid()
    ensures rules.validPath(s.path) ==> s.path != []
  {
  }

  lemma UnstablePath(tree: Tree, path: Path, rules: Rules)
    requires path != [] && !Stable(tree, path, rules)
    ensures Padded(path, rules) && NoFile(Skill(tree), path)
  {
  }

  lemma NoFileRevision(tree: Tree, path: Path, rules: Rules)
    requires NoFile(Skill(tree), path)
    ensures Revision(tree, path, rules) == MISSING
  {
  }

  /**
   * In any run of saves, a success on a path named exactly the content that the success before it wrote there,
   * or named none where that one wrote under the stripped name.
   */
  lemma NoLostUpdate(skill: Skill, directory: string, saves: seq<Save>, i: nat, j: nat, limits: Limits, rules: Rules)
    requires rules.Valid() && (skill.Skill? ==> IsTree(skill.tree)) && i < j < |saves|
    requires saves[j].path == saves[i].path
    requires Succeeds(skill, directory, saves, i, limits, rules) && Succeeds(skill, directory, saves, j, limits, rules)
    requires forall k | i < k < j ::
      saves[k].path != saves[i].path || !Succeeds(skill, directory, saves, k, limits, rules)
    ensures var before := After(skill, directory, saves[..i], limits, rules);
      before.Skill? && saves[j].expected
        == if Stable(before.tree, saves[i].path, rules) then rules.hash(saves[i].content) else MISSING
    ensures var before := After(skill, directory, saves[..i], limits, rules);
      before.Skill? && forall c ::
        saves[j].expected == rules.hash(c) <==> Stable(before.tree, saves[i].path, rules) && c == saves[i].content
  {
    var before, last := After(skill, directory, saves[..i], limits, rules), After(skill, directory, saves[..j], limits, rules);
    AfterIsTree(skill, directory, saves[..i], limits, rules);
    AfterIsTree(skill, directory, saves[..j], limits, rules);
    SucceedsNamed(before, directory, saves[i], limits, rules);
    SucceedsNamed(last, directory, saves[j], limits, rules);
    hide Find, IsTree, After, Saved, Stable, Padded, NoFile, Strip;
    if Stable(before.tree, saves[i].path, rules) {
      ContentStays(skill, directory, saves, i, j, limits, rules);
      SaveNamesContent(last.tree, directory, saves[j], limits, rules);
    } else {
      UnstablePath(before.tree, saves[i].path, rules);
      assert before == Skill(before.tree) && last == Skill(last.tree);
      PaddedStaysEmpty(skill, directory, saves, i, j, limits, rules, saves[i].path);
      NoFileRevision(last.tree, saves[i].path, rules);
    }
  }

  lemma SucceedsNamed(before: Skill, directory: string, s: Save, limits: Limits, rules: Rules)
    requires rules.Valid() && Saved(before, directory, s, limits, rules).1.None?
    ensures before.Skill? && s.path != [] && s.expected == Revision(before.tree, s.path, rules)
  {
    RefusesNoSkill(before, directory, s, limits, rules);
  }

  /** A new file under a padded name is written, but under the stripped name. */
  lemma PaddedNameMoves(rules: Rules, content: seq<Byte>)
    requires rules.Valid() && rules.validPath([" a"]) && rules.validName("a") && |content| <= MAX_PREVIEW_BYTES
    requires rules.isSpace(' ') && !rules.isSpace('a')
    ensures var s := Save([" a"], content, MISSING, true);
      var (after, error) := Saved(Skill([]), "skill", s, Limits(MAX_PREVIEW_BYTES, 1), rules);
      error.None? && after.Skill? && Find(after.tree, [" a"]).None? && Find(after.tree, ["a"]) == Some(File(content))
  {
  }
}
