/**
 * The session hook dialects: planning an install and an uninstall as edits
 * on the parsed hooks file, so that a person's own hooks come back as they
 * were.
 */
module HookDialect {
  import opened Options
  import opened JsonEdit
  import opened HarnessCommand

  datatype Dialect =
    | ClaudeGroups(timeout: nat, matcher: string)
    | FlatEventMap(event: string)
    | KiroOwned
    | Legacy
    | NoHooks

  const CLAUDE_EVENT := "SessionStart"
  const KIRO_ENTRY_NAME := "crystalline-routing"
  const I64_MAX := 0x7FFF_FFFF_FFFF_FFFF

  /** Where a new entry goes. */
  function ContainerPath(d: Dialect): Option<Path> {
    match d
    case ClaudeGroups(_, _) => Some([Key("hooks"), Key(CLAUDE_EVENT)])
    case FlatEventMap(event) => Some([Key("hooks"), Key(event)])
    case KiroOwned => Some([Key("hooks")])
    case Legacy => None
    case NoHooks => None
  }

  /** The entry an install appends. */
  function NewEntry(d: Dialect, command: string): Option<Json> {
    match d
    case ClaudeGroups(timeout, matcher) =>
      var hook := Obj(map[
        "type" := Str("command"),
        "command" := Str(command),
        "timeout" := Num(if timeout <= I64_MAX then timeout else I64_MAX)]);
      Some(Obj(map["matcher" := Str(matcher), "hooks" := Arr([hook])]))
    case FlatEventMap(_) => Some(Obj(map["command" := Str(command)]))
    case KiroOwned =>
      Some(Obj(map[
        "name" := Str(KIRO_ENTRY_NAME),
        "trigger" := Str("SessionStart"),
        "action" := Obj(map["type" := Str("command"), "command" := Str(command)])]))
    case Legacy => None
    case NoHooks => None
  }

  // ----- finding the hooks that are ours

  function StringAt(v: Json, name: string): Option<string> {
    match Child(v, Key(name))
    case Some(Str(s)) => Some(s)
    case _ => None
  }

  function CommandOf(v: Json): Option<string> {
    StringAt(v, "command")
  }

  predicate Ours(command: Option<string>) {
    command.Some? && ProfileCommandKind(command.value)
  }

  /** The hooks array of a Claude-style group. */
  function HookList(group: Json): Option<seq<Json>> {
    match Child(group, Key("hooks"))
    case Some(Arr(hooks)) => Some(hooks)
    case _ => None
  }

  predicate AllOurs(hooks: seq<Json>) {
    forall h | h in hooks :: Ours(CommandOf(h))
  }

  function KiroCommand(entry: Json): Option<string> {
    match Child(entry, Key("action"))
    case Some(action) => CommandOf(action)
    case None => None
  }

  predicate KiroOurs(entry: Json) {
    StringAt(entry, "name") == Some(KIRO_ENTRY_NAME) || Ours(KiroCommand(entry))
  }

  /** One hook of ours; its paths start at the container array. */
  datatype OwnHook = OwnHook(command: Option<string>, commandPath: Path, removal: Path)

  /** The hook at `hi` of the `gi`-th group, when it is ours; a group that is all ours is removed whole. */
  function OwnAt(hook: Json, gi: nat, hi: nat, whole: bool): seq<OwnHook> {
    var path := [Index(gi), Key("hooks"), Index(hi)];
    if Ours(CommandOf(hook)) then [OwnHook(CommandOf(hook), path + [Key("command")], if whole then [Index(gi)] else path)] else []
  }

  function GroupHooks(hooks: seq<Json>, gi: nat, hi: nat, whole: bool): seq<OwnHook>
    requires hi <= |hooks|
    decreases |hooks| - hi
  {
    if hi == |hooks| then [] else OwnAt(hooks[hi], gi, hi, whole) + GroupHooks(hooks, gi, hi + 1, whole)
  }

  /** The hooks of ours in the `i`-th element of the container. */
  function ItemHooks(d: Dialect, item: Json, i: nat): seq<OwnHook> {
    match d
    case ClaudeGroups(_, _) =>
      (match HookList(item)
       case Some(hooks) => GroupHooks(hooks, i, 0, AllOurs(hooks))
       case None => [])
    case FlatEventMap(_) =>
      if Ours(CommandOf(item)) then [OwnHook(CommandOf(item), [Index(i), Key("command")], [Index(i)])] else []
    case KiroOwned =>
      if KiroOurs(item) then [OwnHook(KiroCommand(item), [Index(i), Key("action"), Key("command")], [Index(i)])]
      else []
    case _ => []
  }

  function HooksFrom(d: Dialect, items: seq<Json>, i: nat): seq<OwnHook>
    requires i <= |items|
    decreases |items| - i
  {
    if i == |items| then [] else ItemHooks(d, items[i], i) + HooksFrom(d, items, i + 1)
  }

  /** The elements of the container: none when it is missing, `None` when something on the way is foreign data. */
  function Items(node: Json, path: Path): Option<seq<Json>> {
    if path == [] then (if node.Arr? then Some(node.items) else None)
    else if !node.Obj? || path[0].Index? then None
    else if path[0].name !in node.members then Some([])
    else Items(node.members[path[0].name], path[1..])
  }

  function OwnHooks(d: Dialect, root: Json): Option<seq<OwnHook>> {
    match ContainerPath(d)
    case None => None
    case Some(container) =>
      match Items(root, container)
      case None => None
      case Some(items) => Some(HooksFrom(d, items, 0))
  }

  /** The walk to the container, a loop over an updated node. */
  method FindItems(root: Json, container: Path) returns (items: Option<seq<Json>>)
    ensures items == Items(root, container)
  {
    var node := root;
    for depth := 0 to |container|
      invariant Items(root, container) == Items(node, container[depth..])
    {
      if !node.Obj? || container[depth].Index? { return None; }
      if container[depth].name !in node.members { return Some([]); }
      node := node.members[container[depth].name];
      assert container[depth..][1..] == container[depth + 1..];
    }
    items := if node.Arr? then Some(node.items) else None;
  }

  /** The scan of the container's elements, in document order. */
  method FindOwnHooks(d: Dialect, root: Json) returns (found: Option<seq<OwnHook>>)
    ensures found == OwnHooks(d, root)
  {
    var path := ContainerPath(d);
    if path.None? { return None; }
    var items := FindItems(root, path.value);
    if items.None? { return None; }
    var hooks := ScanItems(d, items.value);
    return Some(hooks);
  }

  method ScanItems(d: Dialect, items: seq<Json>) returns (hooks: seq<OwnHook>)
    ensures hooks == HooksFrom(d, items, 0)
  {
    hide ItemHooks, HooksFrom;
    hooks := [];
    for i := 0 to |items|
      invariant hooks + HooksFrom(d, items, i) == HooksFrom(d, items, 0)
    {
      HooksNext(d, items, i, hooks);
      var own := ScanItem(d, items[i], i);
      hooks := hooks + own;
    }
    HooksEnd(d, items);
  }

  lemma HooksNext(d: Dialect, items: seq<Json>, i: nat, hooks: seq<OwnHook>)
    requires i < |items|
    ensures hooks + HooksFrom(d, items, i) == (hooks + ItemHooks(d, items[i], i)) + HooksFrom(d, items, i + 1)
  {
    hide ItemHooks;
  }

  lemma HooksEnd(d: Dialect, items: seq<Json>)
    ensures HooksFrom(d, items, |items|) == []
  {}

  method ScanItem(d: Dialect, item: Json, i: nat) returns (own: seq<OwnHook>)
    ensures own == ItemHooks(d, item, i)
  {
    if !d.ClaudeGroups? || HookList(item).None? { return ItemHooks(d, item, i); }
    var hooks := HookList(item).value;
    own := ScanGroup(hooks, i, AllOurs(hooks));
  }

  method ScanGroup(hooks: seq<Json>, i: nat, whole: bool) returns (own: seq<OwnHook>)
    ensures own == GroupHooks(hooks, i, 0, whole)
  {
    hide Ours, CommandOf, GroupHooks;
    own := [];
    for hi := 0 to |hooks|
      invariant own + GroupHooks(hooks, i, hi, whole) == GroupHooks(hooks, i, 0, whole)
    {
      GroupNext(hooks, i, hi, whole, own);
      var command := CommandOf(hooks[hi]);
      if Ours(command) {
        var path := [Index(i), Key("hooks"), Index(hi)];
        own := own + [OwnHook(command, path + [Key("command")], if whole then [Index(i)] else path)];
      } else {
        assert own + [] == own;
      }
    }
    GroupEnd(hooks, i, whole);
  }

  lemma GroupNext(hooks: seq<Json>, gi: nat, hi: nat, whole: bool, own: seq<OwnHook>)
    requires hi < |hooks|
    ensures own + GroupHooks(hooks, gi, hi, whole) == (own + OwnAt(hooks[hi], gi, hi, whole)) + GroupHooks(hooks, gi, hi + 1, whole)
  {
    hide OwnAt;
  }

  lemma GroupEnd(hooks: seq<Json>, gi: nat, whole: bool)
    ensures GroupHooks(hooks, gi, |hooks|, whole) == []
  {}

  predicate SessionHookPresent(d: Dialect, root: Json) {
    OwnHooks(d, root).Some? && OwnHooks(d, root).value != []
  }

  // ----- the plans

  /** The first hook from `k` on whose command an installation wrote, or the end of the list. */
  function FirstOwn(found: seq<OwnHook>, k: nat): (r: nat)
    requires k <= |found|
    ensures k <= r <= |found|
    ensures forall j | k <= j < r :: !OwnSpelling(found[j])
    ensures r < |found| ==> OwnSpelling(found[r])
    decreases |found| - k
  {
    if k == |found| || OwnSpelling(found[k]) then k else FirstOwn(found, k + 1)
  }

  predicate OwnSpelling(hook: OwnHook) {
    hook.command.Some? && IsOwnProfileSpelling(hook.command.value)
  }

  function PlanInstall(d: Dialect, root: Json, command: string): seq<Edit> {
    if !ProfileCommandKind(command) || ContainerPath(d).None? || OwnHooks(d, root).None? then []
    else
      var container, found := ContainerPath(d).value, OwnHooks(d, root).value;
      if found == [] then [Push(container, NewEntry(d, command).value)]
      else
        var first := FirstOwn(found, 0);
        if first < |found| && found[first].command != Some(command) then
          [Set(container + found[first].commandPath, Str(command))]
        else []
  }

  /** `Vec::dedup`: runs of equal paths become one. */
  function Dedup(paths: seq<Path>): seq<Path> {
    if |paths| <= 1 then paths
    else if paths[0] == paths[1] then Dedup(paths[1..])
    else [paths[0]] + Dedup(paths[1..])
  }

  function Removals(found: seq<OwnHook>): seq<Path> {
    if found == [] then [] else [found[0].removal] + Removals(found[1..])
  }

  /** The removals of `paths`, last first. */
  function RemoveBackwards(container: Path, paths: seq<Path>, prune: Prune): seq<Edit> {
    if paths == [] then []
    else RemoveBackwards(container, paths[1..], prune) + [Remove(container + paths[0], prune)]
  }

  function PruneOf(d: Dialect): Prune {
    if d.KiroOwned? then Never else Emptied
  }

  function PlanUninstall(d: Dialect, root: Json): seq<Edit> {
    if OwnHooks(d, root).None? then []
    else RemoveBackwards(ContainerPath(d).value, Dedup(Removals(OwnHooks(d, root).value)), PruneOf(d))
  }

  /** The program named by the first hook an installation wrote. */
  function StoredProgram(d: Dialect, root: Json): Option<string> {
    match OwnHooks(d, root)
    case None => None
    case Some(found) =>
      var first := FirstOwn(found, 0);
      if first == |found| then None
      else
        match SplitProgram(found[first].command.value)
        case Some((program, _)) => Some(program)
        case None => None
  }
}
