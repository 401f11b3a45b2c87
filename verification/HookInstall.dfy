/** Install is idempotent, reads back the program it wrote, and is undone by uninstall. */
module HookInstall {
  import opened Options
  import opened JsonEdit
  import opened HarnessCommand
  import opened HookDialect
  import opened HookUninstall

  // ----- appending our entry

  ghost predicate AllKeys(path: Path) {
    forall i | 0 <= i < |path| :: path[i].Key?
  }

  lemma {:induction false} BuildKeys(rest: Path, value: Json)
    requires AllKeys(rest)
    ensures Build(rest, Arr([value])).Ok?
    ensures Get(Build(rest, Arr([value])).value, rest) == Some(Arr([value]))
    ensures Items(Build(rest, Arr([value])).value, rest) == Some([value])
  {
    if rest != [] { BuildKeys(rest[1..], value); }
  }

  /** An append always applies where the container is ours to use, and adds one last element. */
  lemma {:induction false} PushItems(node: Json, path: Path, value: Json)
    requires AllKeys(path) && Items(node, path).Some?
    ensures var done := Write(node, path, value, true);
            && done.Ok?
            && Items(done.value, path) == Some(Items(node, path).value + [value])
            && Get(done.value, path) == Some(Arr(Items(node, path).value + [value]))
  {
    if path != [] {
      var k := path[0].name;
      if k in node.members {
        PushItems(node.members[k], path[1..], value);
      } else {
        BuildKeys(path[1..], value);
        assert Items(node, path).value + [value] == [value];
      }
    }
  }

  lemma EntryHook(d: Dialect, command: string, i: nat)
    requires ContainerPath(d).Some? && ProfileCommandKind(command)
    ensures |ItemHooks(d, NewEntry(d, command).value, i)| == 1
    ensures ItemHooks(d, NewEntry(d, command).value, i)[0].command == Some(command)
    ensures KeptItem(d, NewEntry(d, command).value).None?
  {
    hide ProfileCommandKind;
    if d.ClaudeGroups? {
      var hooks := HookList(NewEntry(d, command).value).value;
      assert GroupHooks(hooks, i, 1, true) == [];
    }
  }

  lemma {:induction false} HooksOfAppend(d: Dialect, items: seq<Json>, entry: Json, i: nat)
    requires i <= |items|
    ensures HooksFrom(d, items + [entry], i) == HooksFrom(d, items, i) + ItemHooks(d, entry, |items|)
    decreases |items| - i
  {
    hide ItemHooks;
    if i < |items| {
      HooksOfAppend(d, items, entry, i + 1);
    } else {
      assert HooksFrom(d, items + [entry], |items| + 1) == [];
    }
  }

  lemma {:induction false} KeptOfAppend(d: Dialect, items: seq<Json>, entry: Json)
    requires KeptItem(d, entry).None?
    ensures KeptItems(d, items + [entry]) == KeptItems(d, items)
  {
    hide KeptItem;
    if items == [] {
      assert (items + [entry])[1..] == [];
    } else {
      assert (items + [entry])[1..] == items[1..] + [entry];
      KeptOfAppend(d, items[1..], entry);
    }
  }

  /** The document after our entry was pushed. */
  lemma Pushed(d: Dialect, root: Json, command: string) returns (container: Path, items: seq<Json>, done: Json)
    requires ProfileCommandKind(command) && OwnHooks(d, root) == Some([])
    ensures ContainerPath(d) == Some(container) && Items(root, container) == Some(items)
    ensures Write(root, container, NewEntry(d, command).value, true) == Ok(done)
    ensures ApplyEdits(root, PlanInstall(d, root, command)) == Ok(done)
    ensures Get(done, container) == Some(Arr(items + [NewEntry(d, command).value]))
    ensures Items(done, container) == Some(items + [NewEntry(d, command).value])
    ensures OwnHooks(d, done).Some? && |OwnHooks(d, done).value| == 1
    ensures OwnHooks(d, done).value[0].command == Some(command)
    ensures HooksFrom(d, items, 0) == []
  {
    hide ProfileCommandKind, ItemHooks;
    container := ContainerPath(d).value;
    items := Items(root, container).value;
    var entry := NewEntry(d, command).value;
    PushItems(root, container, entry);
    done := Write(root, container, entry, true).value;
    EntryHook(d, command, |items|);
    HooksOfAppend(d, items, entry, 0);
    var edits := PlanInstall(d, root, command);
    assert edits == [Push(container, entry)] && edits[1..] == [];
  }

  // ----- rewriting an older spelling

  lemma {:induction false} GroupSet(hooks: seq<Json>, gi: nat, hi: nat, whole: bool, k: nat, command: string) returns (j: nat)
    requires hi <= |hooks| && k < |GroupHooks(hooks, gi, hi, whole)| && ProfileCommandKind(command)
    ensures hi <= j < |hooks| && Ours(CommandOf(hooks[j]))
    ensures var found := GroupHooks(hooks, gi, hi, whole);
            && found[k].commandPath == [Index(gi), Key("hooks"), Index(j), Key("command")]
            && GroupHooks(hooks[j := Obj(hooks[j].members["command" := Str(command)])], gi, hi, whole)
               == found[k := found[k].(command := Some(command))]
    decreases |hooks| - hi
  {
    hide ProfileCommandKind, Ours, CommandOf, OwnAt;
    var found := GroupHooks(hooks, gi, hi, whole);
    var own, rest := OwnAt(hooks[hi], gi, hi, whole), GroupHooks(hooks, gi, hi + 1, whole);
    OwnIs(hooks[hi], gi, hi, whole);
    if own == [] {
      assert found == rest;
      j := GroupSet(hooks, gi, hi + 1, whole, k, command);
    } else if k > 0 {
      j := GroupSet(hooks, gi, hi + 1, whole, k - 1, command);
      assert found[k := found[k].(command := Some(command))] == own + rest[k - 1 := rest[k - 1].(command := Some(command))];
    } else {
      j := hi;
      OwnSet(hooks[hi], gi, hi, whole, command);
      GroupTail(hooks, hooks[j := Obj(hooks[j].members["command" := Str(command)])], gi, hi + 1, whole);
      assert found[0 := found[0].(command := Some(command))] == [own[0].(command := Some(command))] + rest;
    }
  }

  lemma OwnIs(hook: Json, gi: nat, hi: nat, whole: bool)
    ensures |OwnAt(hook, gi, hi, whole)| == if Ours(CommandOf(hook)) then 1 else 0
  {
    hide Ours, CommandOf;
  }

  lemma OwnSet(hook: Json, gi: nat, hi: nat, whole: bool, command: string)
    requires Ours(CommandOf(hook)) && ProfileCommandKind(command)
    ensures hook.Obj?
    ensures var own := OwnAt(hook, gi, hi, whole);
            && own[0].commandPath == [Index(gi), Key("hooks"), Index(hi), Key("command")]
            && OwnAt(Obj(hook.members["command" := Str(command)]), gi, hi, whole) == [own[0].(command := Some(command))]
  {
    hide ProfileCommandKind;
  }

  lemma {:induction false} GroupTail(hooks: seq<Json>, hooks': seq<Json>, gi: nat, hi: nat, whole: bool)
    requires |hooks| == |hooks'| && hi <= |hooks| && hooks[hi..] == hooks'[hi..]
    ensures GroupHooks(hooks, gi, hi, whole) == GroupHooks(hooks', gi, hi, whole)
    decreases |hooks| - hi
  {
    hide Ours, CommandOf;
    if hi < |hooks| {
      assert hooks[hi] == hooks[hi..][0] == hooks'[hi..][0] == hooks'[hi];
      assert hooks[hi + 1..] == hooks[hi..][1..] && hooks'[hi + 1..] == hooks'[hi..][1..];
      GroupTail(hooks, hooks', gi, hi + 1, whole);
    }
  }

  ghost predicate SetsCommand(d: Dialect, item: Json, i: nat, k: nat, command: string, item': Json) {
    k < |ItemHooks(d, item, i)| &&
    var hook := ItemHooks(d, item, i)[k];
    && hook.commandPath != [] && hook.commandPath[0] == Index(i)
    && Write(item, hook.commandPath[1..], Str(command), false) == Ok(item')
    && ItemHooks(d, item', i) == ItemHooks(d, item, i)[k := hook.(command := Some(command))]
  }

  /** Setting the command of one hook changes that hook's command and nothing else about what is found. */
  lemma ItemSet(d: Dialect, item: Json, i: nat, k: nat, command: string) returns (item': Json)
    requires k < |ItemHooks(d, item, i)| && ItemHooks(d, item, i)[k].command.Some? && ProfileCommandKind(command)
    ensures SetsCommand(d, item, i, k, command, item')
  {
    hide ProfileCommandKind, SetsCommand, Write;
    match d {
      case ClaudeGroups(_, _) =>
        item' := GroupItemSet(d, item, i, k, command);
      case FlatEventMap(_) =>
        item' := Obj(item.members["command" := Str(command)]);
        FlatSet(d, item, i, k, command);
      case KiroOwned =>
        var action := item.members["action"];
        item' := Obj(item.members["action" := Obj(action.members["command" := Str(command)])]);
        KiroSet(d, item, i, k, command);
    }
  }

  lemma FlatSet(d: Dialect, item: Json, i: nat, k: nat, command: string)
    requires d.FlatEventMap? && k < |ItemHooks(d, item, i)| && ProfileCommandKind(command)
    ensures SetsCommand(d, item, i, k, command, Obj(item.members["command" := Str(command)]))
  {
    hide ProfileCommandKind;
    var item' := Obj(item.members["command" := Str(command)]);
    assert [Index(i), Key("command")][1..] == [Key("command")] && [Key("command")][1..] == [];
    assert Write(item, [Key("command")], Str(command), false) == Ok(item');
    assert CommandOf(item') == Some(command);
    var hook := OwnHook(CommandOf(item), [Index(i), Key("command")], [Index(i)]);
    assert ItemHooks(d, item, i) == [hook];
    assert ItemHooks(d, item', i) == [hook.(command := Some(command))];
  }

  lemma KiroSet(d: Dialect, item: Json, i: nat, k: nat, command: string)
    requires d.KiroOwned? && k < |ItemHooks(d, item, i)| && KiroCommand(item).Some? && ProfileCommandKind(command)
    ensures SetsCommand(d, item, i, k, command,
                        Obj(item.members["action" := Obj(item.members["action"].members["command" := Str(command)])]))
  {
    hide ProfileCommandKind;
    assert [Index(i), Key("action"), Key("command")][1..] == [Key("action"), Key("command")];
    assert [Key("action"), Key("command")][1..] == [Key("command")] && [Key("command")][1..] == [];
    var action := item.members["action"];
    var action' := Obj(action.members["command" := Str(command)]);
    var item' := Obj(item.members["action" := action']);
    assert Write(action, [Key("command")], Str(command), false) == Ok(action');
    assert Write(item, [Key("action"), Key("command")], Str(command), false) == Ok(item');
    assert KiroCommand(item') == Some(command);
    var hook := OwnHook(KiroCommand(item), [Index(i), Key("action"), Key("command")], [Index(i)]);
    assert ItemHooks(d, item, i) == [hook];
    assert ItemHooks(d, item', i) == [hook.(command := Some(command))];
  }

  lemma GroupItemSet(d: Dialect, item: Json, i: nat, k: nat, command: string) returns (item': Json)
    requires d.ClaudeGroups? && k < |ItemHooks(d, item, i)| && ProfileCommandKind(command)
    ensures SetsCommand(d, item, i, k, command, item')
  {
    hide ProfileCommandKind, Write;
    var hooks := HookList(item).value;
    var j := GroupSet(hooks, i, 0, AllOurs(hooks), k, command);
    var hook' := Obj(hooks[j].members["command" := Str(command)]);
    item' := Obj(item.members["hooks" := Arr(hooks[j := hook'])]);
    SameOurs(hooks, j, hook');
    WriteInGroup(item, j, command);
    assert ItemHooks(d, item, i)[k].commandPath[1..] == [Key("hooks"), Index(j), Key("command")];
  }

  lemma SameOurs(hooks: seq<Json>, j: nat, hook': Json)
    requires j < |hooks| && Ours(CommandOf(hooks[j])) && Ours(CommandOf(hook'))
    ensures AllOurs(hooks[j := hook']) == AllOurs(hooks)
  {
    hide Ours, CommandOf;
    var after := hooks[j := hook'];
    if AllOurs(after) {
      forall h | h in hooks
        ensures Ours(CommandOf(h))
      {
        var i :| 0 <= i < |hooks| && hooks[i] == h;
        if i != j { assert after[i] in after; }
      }
    }
  }

  lemma WriteInGroup(item: Json, j: nat, command: string)
    requires HookList(item).Some? && j < |HookList(item).value| && CommandOf(HookList(item).value[j]).Some?
    ensures var hooks := HookList(item).value;
            var hook' := Obj(hooks[j].members["command" := Str(command)]);
            Write(item, [Key("hooks"), Index(j), Key("command")], Str(command), false)
            == Ok(Obj(item.members["hooks" := Arr(hooks[j := hook'])]))
  {
    var path := [Key("hooks"), Index(j), Key("command")];
    assert path[1..] == [Index(j), Key("command")] && path[1..][1..] == [Key("command")];
    assert [Key("command")][1..] == [];
    var hooks := HookList(item).value;
    assert Write(hooks[j], [Key("command")], Str(command), false) == Ok(Obj(hooks[j].members["command" := Str(command)]));
  }

  lemma {:induction false} ItemsSet(d: Dialect, items: seq<Json>, s: nat, k: nat, command: string) returns (i: nat, item': Json)
    requires s <= |items| && k < |HooksFrom(d, items, s)|
    requires HooksFrom(d, items, s)[k].command.Some? && ProfileCommandKind(command)
    ensures s <= i < |items|
    ensures var hook := HooksFrom(d, items, s)[k];
            && hook.commandPath != [] && hook.commandPath[0] == Index(i)
            && Write(items[i], hook.commandPath[1..], Str(command), false) == Ok(item')
            && HooksFrom(d, items[i := item'], s) == HooksFrom(d, items, s)[k := hook.(command := Some(command))]
    decreases |items| - s
  {
    hide ProfileCommandKind, ItemHooks, Write;
    var own, rest := ItemHooks(d, items[s], s), HooksFrom(d, items, s + 1);
    if k < |own| {
      i := s;
      item' := ItemSet(d, items[s], s, k, command);
      HooksTail(d, items, items[s := item'], s + 1);
    } else {
      i, item' := ItemsSet(d, items, s + 1, k - |own|, command);
    }
  }

  lemma {:induction false} HooksTail(d: Dialect, items: seq<Json>, items': seq<Json>, i: nat)
    requires |items| == |items'| && i <= |items| && items[i..] == items'[i..]
    ensures HooksFrom(d, items, i) == HooksFrom(d, items', i)
    decreases |items| - i
  {
    hide ItemHooks;
    if i < |items| {
      assert items[i] == items[i..][0] == items'[i..][0] == items'[i];
      assert items[i + 1..] == items[i..][1..] && items'[i + 1..] == items'[i..][1..];
      HooksTail(d, items, items', i + 1);
    }
  }

  /** The document after an older spelling of ours was rewritten. */
  lemma Rewritten(d: Dialect, root: Json, k: nat, command: string) returns (done: Json)
    requires SessionHookPresent(d, root) && k < |OwnHooks(d, root).value|
    requires OwnHooks(d, root).value[k].command.Some? && ProfileCommandKind(command)
    ensures var found := OwnHooks(d, root).value;
            && ApplyEdits(root, [Set(ContainerPath(d).value + found[k].commandPath, Str(command))]) == Ok(done)
            && OwnHooks(d, done) == Some(found[k := found[k].(command := Some(command))])
  {
    hide ProfileCommandKind, ItemHooks;
    PresentContainer(d, root);
    var container := ContainerPath(d).value;
    var items := Get(root, container).value.items;
    var i, item' := ItemsSet(d, items, 0, k, command);
    var path := OwnHooks(d, root).value[k].commandPath;
    assert Write(Arr(items), path, Str(command), false) == Ok(Arr(items[i := item']));
    WriteThrough(root, container, path, Str(command), false);
    done := Put(root, container, Arr(items[i := item']));
    ItemsOfPut(root, container, items[i := item']);
    var edits := [Set(container + path, Str(command))];
    assert edits[1..] == [];
  }

  // ----- the results

  /** How many of the hooks found an installation wrote. */
  function OwnSpellings(found: seq<OwnHook>, k: nat): nat
    requires k <= |found|
    decreases |found| - k
  {
    if k == |found| then 0 else (if OwnSpelling(found[k]) then 1 else 0) + OwnSpellings(found, k + 1)
  }

  lemma {:induction false} FirstOwnIs(found: seq<OwnHook>, k: nat, r: nat)
    requires k <= r <= |found|
    requires forall j | k <= j < r :: !OwnSpelling(found[j])
    requires r < |found| ==> OwnSpelling(found[r])
    ensures FirstOwn(found, k) == r
    ensures OwnSpellings(found, k) == OwnSpellings(found, r)
    decreases r - k
  {
    hide OwnSpelling;
    if k < r { FirstOwnIs(found, k + 1, r); }
  }

  /** An install always applies. */
  lemma InstallApplies(d: Dialect, root: Json, command: string) returns (done: Json)
    ensures ApplyEdits(root, PlanInstall(d, root, command)) == Ok(done)
  {
    hide ProfileCommandKind, ItemHooks, ApplyEdits;
    NoEdits(root);
    done := root;
    if ProfileCommandKind(command) && OwnHooks(d, root).Some? {
      var found := OwnHooks(d, root).value;
      if found == [] {
        var container, items, d' := Pushed(d, root, command);
        done := d';
      } else {
        var first := FirstOwn(found, 0);
        if first < |found| && found[first].command != Some(command) {
          done := Rewritten(d, root, first, command);
        }
      }
    }
  }

  lemma NoEdits(root: Json)
    ensures ApplyEdits(root, []) == Ok(root)
  {}

  /**
   * A second install of the same command plans nothing, except when the
   * command is one install would not have written and the file holds more
   * than one spelling that it did: then each install rewrites the next one.
   */
  lemma SecondInstall(d: Dialect, root: Json, command: string)
    requires ProfileCommandKind(command) && OwnHooks(d, root).Some?
    ensures var done := ApplyEdits(root, PlanInstall(d, root, command));
            && done.Ok?
            && (PlanInstall(d, done.value, command) == []
                <==> IsOwnProfileSpelling(command) || OwnSpellings(OwnHooks(d, root).value, 0) <= 1)
  {
    hide ProfileCommandKind, ItemHooks, ApplyEdits, IsOwnProfileSpelling;
    var found := OwnHooks(d, root).value;
    if found == [] {
      var container, items, done := Pushed(d, root, command);
      assert OwnHooks(d, done).value == [OwnHooks(d, done).value[0]];
    } else {
      var first := FirstOwn(found, 0);
      FirstOwnIs(found, 0, first);
      if first < |found| && found[first].command != Some(command) {
        var done := Rewritten(d, root, first, command);
        RewrittenAgain(found, first, command);
      } else {
        NoEdits(root);
        assert first == |found| ==> OwnSpellings(found, first) == 0;
      }
    }
  }

  lemma RewrittenAgain(found: seq<OwnHook>, first: nat, command: string)
    requires first < |found| && FirstOwn(found, 0) == first
    ensures var after := found[first := found[first].(command := Some(command))];
            var next := FirstOwn(after, 0);
            && (IsOwnProfileSpelling(command) ==> next == first)
            && (!IsOwnProfileSpelling(command) ==>
                  (next == |after| <==> OwnSpellings(found, 0) <= 1)
                  && (next < |after| ==> after[next].command != Some(command)))
  {
    hide IsOwnProfileSpelling;
    var after := found[first := found[first].(command := Some(command))];
    FirstOwnIs(found, 0, first);
    if IsOwnProfileSpelling(command) {
      FirstOwnIs(after, 0, first);
    } else {
      var next := FirstOwn(found, first + 1);
      FirstOwnIs(found, first + 1, next);
      FirstOwnIs(after, 0, next);
    }
  }

  /** So installing the session command of a profile harness a second time plans nothing. */
  lemma SessionInstallIsIdempotent(d: Dialect, root: Json, harness: Harness, program: string)
    requires harness.Cursor? || harness.Kiro? || harness.Gemini? || harness.Qwen?
    requires Spellable(program) && IsCrystallineProgram(program)
    ensures var command := SessionCommand(harness, program);
            var done := ApplyEdits(root, PlanInstall(d, root, command));
            done.Ok? && PlanInstall(d, done.value, command) == []
  {
    hide SessionCommand, ProfileCommandKind, IsOwnProfileSpelling, ApplyEdits, OwnHooks;
    SessionCommandIsOwn(harness, program);
    if OwnHooks(d, root).Some? {
      SecondInstall(d, root, SessionCommand(harness, program));
    } else {
      NoEdits(root);
    }
  }

  /** No container our entry goes through is there and empty; Kiro's owned file only has to have its list. */
  predicate Restorable(d: Dialect, root: Json)
    requires ContainerPath(d).Some? && root.Obj?
  {
    if d.KiroOwned? then "hooks" in root.members
    else
      "hooks" in root.members ==>
        && !IsEmpty(root.members["hooks"])
        && Get(root, ContainerPath(d).value) != Some(Arr([]))
  }

  /**
   * On a file without a hook of ours, an install and an uninstall give the
   * file back exactly when no empty container stood on the path: pruning
   * cannot tell a container install made from one the person left empty.
   */
  lemma InstallThenUninstall(d: Dialect, root: Json, command: string)
    requires ProfileCommandKind(command) && OwnHooks(d, root) == Some([])
    ensures var done := ApplyEdits(root, PlanInstall(d, root, command));
            && done.Ok? && root.Obj?
            && (ApplyEdits(done.value, PlanUninstall(d, done.value)) == Ok(root) <==> Restorable(d, root))
  {
    hide ProfileCommandKind, KeptItem, PlanUninstall, ApplyEdits, ItemHooks;
    var container, items, done := Pushed(d, root, command);
    var entry := NewEntry(d, command).value;
    UninstallIsFilter(d, done);
    EntryHook(d, command, 0);
    KeptOfAppend(d, items, entry);
    CleanItems(d, items, 0);
    CleanSeq(d, items);
    KeptItemsClean(d, items);
    if items != [] || d.KiroOwned? {
      PushedBack(d, root, container, items, entry, done);
    } else {
      EventBack(d, root, container[1].name, entry, done);
    }
  }

  lemma CleanSeq(d: Dialect, items: seq<Json>)
    requires forall j | 0 <= j < |items| :: Clean(d, items[j])
    ensures forall item | item in items :: Clean(d, item)
  {}

  lemma PushedBack(d: Dialect, root: Json, container: Path, items: seq<Json>, entry: Json, done: Json)
    requires ContainerPath(d) == Some(container) && Items(root, container) == Some(items)
    requires Write(root, container, entry, true) == Ok(done) && Get(done, container).Some?
    requires items != [] || d.KiroOwned?
    ensures root.Obj? && (Put(done, container, Arr(items)) == root <==> Restorable(d, root))
  {
    if Get(root, container).Some? {
      if items != [] { ItemsAt(root, container); } else { ItemsOfKiro(root); }
      WriteThrough(root, container, [], entry, true);
      assert container + [] == container;
      PutPut(root, container, Arr(items + [entry]), Arr(items));
      PutSame(root, container);
      if !d.KiroOwned? { HooksNotEmpty(root, container); }
    } else {
      if items != [] { ItemsAt(root, container); }
      ItemsOfKiro(root);
      GetPut(done, container, Arr(items));
    }
  }

  lemma ItemsOfKiro(root: Json)
    requires Items(root, [Key("hooks")]).Some?
    ensures root.Obj?
    ensures Get(root, [Key("hooks")]) == if "hooks" in root.members then Some(Arr(Items(root, [Key("hooks")]).value)) else None
  {
    assert [Key("hooks")][1..] == [];
  }

  lemma HooksNotEmpty(root: Json, container: Path)
    requires |container| == 2 && container[0] == Key("hooks") && container[1].Key? && Get(root, container).Some?
    ensures root.Obj? && "hooks" in root.members && !IsEmpty(root.members["hooks"])
  {
    assert Get(root, container) == Get(root.members["hooks"], container[1..]);
  }

  lemma EventBack(d: Dialect, root: Json, event: string, entry: Json, done: Json)
    requires ContainerPath(d) == Some([Key("hooks"), Key(event)]) && Items(root, [Key("hooks"), Key(event)]) == Some([])
    requires Write(root, [Key("hooks"), Key(event)], entry, true) == Ok(done)
    requires Get(done, [Key("hooks"), Key(event)]).Some?
    ensures root.Obj? && (WithoutEvent(done, event) == root <==> Restorable(d, root))
  {
    var path := [Key("hooks"), Key(event)];
    assert path[1..] == [Key(event)] && [Key(event)][1..] == [];
    if "hooks" !in root.members {
      assert Build([Key(event)], Arr([entry])) == Ok(Obj(map[event := Arr([entry])]));
      assert map[event := Arr([entry])] - {event} == map[];
      assert root.members["hooks" := Obj(map[event := Arr([entry])])] - {"hooks"} == root.members;
    } else {
      var hooks := root.members["hooks"];
      assert Get(root, path) == Get(hooks, [Key(event)]);
      assert Items(root, path) == Items(hooks, [Key(event)]);
      var list := done.members["hooks"].members[event];
      assert done == Obj(root.members["hooks" := Obj(hooks.members[event := list])]);
      var rest := hooks.members[event := list] - {event};
      assert rest == hooks.members - {event};
      if event in hooks.members {
        assert Get(hooks, [Key(event)]) == Some(hooks.members[event]);
        assert Items(hooks, [Key(event)]) == Items(hooks.members[event], []);
        assert hooks.members[event] == Arr([]);
        assert event !in rest && Obj(rest) != hooks;
      } else {
        assert rest == hooks.members;
        assert root.members["hooks" := hooks] == root.members;
        assert done.members["hooks" := hooks] == root.members["hooks" := hooks];
      }
    }
  }

  /**
   * The program an install wrote is the program read back, unless the file
   * held only hand-written hooks of ours, which install leaves alone.
   */
  lemma StoredAfterInstall(d: Dialect, root: Json, harness: Harness, program: string)
    requires harness.Cursor? || harness.Kiro? || harness.Gemini? || harness.Qwen?
    requires Spellable(program) && IsCrystallineProgram(program) && OwnHooks(d, root).Some?
    ensures var done := ApplyEdits(root, PlanInstall(d, root, SessionCommand(harness, program)));
            var found := OwnHooks(d, root).value;
            && done.Ok?
            && (StoredProgram(d, done.value) == Some(program) <==> found == [] || OwnSpellings(found, 0) > 0)
  {
    hide ProfileCommandKind, ItemHooks, ApplyEdits, IsOwnProfileSpelling, SessionCommand, SplitProgram;
    var command := SessionCommand(harness, program);
    SessionCommandIsOwn(harness, program);
    SessionSplits(harness, program);
    var found := OwnHooks(d, root).value;
    if found == [] {
      var container, items, done := Pushed(d, root, command);
      assert FirstOwn(OwnHooks(d, done).value, 0) == 0;
    } else {
      var first := FirstOwn(found, 0);
      FirstOwnIs(found, 0, first);
      if first < |found| && found[first].command != Some(command) {
        var done := Rewritten(d, root, first, command);
        RewrittenAgain(found, first, command);
      } else {
        NoEdits(root);
        assert first == |found| ==> OwnSpellings(found, first) == 0;
      }
    }
  }

  lemma SessionSplits(harness: Harness, program: string)
    requires Spellable(program)
    ensures SplitProgram(SessionCommand(harness, program)) == Some((program, SESSION_WORDS + SessionTail(harness)))
  {
    hide SplitProgram, CommandLine, Spellable, SessionTail;
    var rest := SESSION_WORDS + SessionTail(harness);
    assert rest[0] == ' ';
    SplitPrint(program, rest);
  }
}
