/** Uninstall takes out exactly the hooks that are ours. */
module HookUninstall {
  import opened Options
  import opened JsonEdit
  import opened HarnessCommand
  import opened HookDialect

  // ----- what should be left, said without edits

  function KeptHooks(hooks: seq<Json>): seq<Json> {
    if hooks == [] then []
    else (if Ours(CommandOf(hooks[0])) then [] else [hooks[0]]) + KeptHooks(hooks[1..])
  }

  /** A container element with our hooks gone, `None` when it goes as a whole. */
  function KeptItem(d: Dialect, item: Json): Option<Json> {
    match d
    case ClaudeGroups(_, _) =>
      (match HookList(item)
       case None => Some(item)
       case Some(hooks) =>
         if hooks != [] && AllOurs(hooks) then None
         else Some(Obj(item.members["hooks" := Arr(KeptHooks(hooks))])))
    case FlatEventMap(_) => if Ours(CommandOf(item)) then None else Some(item)
    case KiroOwned => if KiroOurs(item) then None else Some(item)
    case _ => Some(item)
  }

  function KeptItems(d: Dialect, items: seq<Json>): seq<Json> {
    if items == [] then []
    else
      (match KeptItem(d, items[0]) case Some(item) => [item] case None => [])
      + KeptItems(d, items[1..])
  }

  /** The document without its event list, and without `hooks` when that held nothing else. */
  function WithoutEvent(root: Json, event: string): Json
    requires Get(root, [Key("hooks"), Key(event)]).Some?
  {
    assert Get(root, [Key("hooks"), Key(event)]) == Get(root.members["hooks"], [Key(event)]) by {
      assert [Key("hooks"), Key(event)][1..] == [Key(event)];
    }
    assert Child(root.members["hooks"], Key(event)).Some?;
    var rest := root.members["hooks"].members - {event};
    if rest == map[] then Obj(root.members - {"hooks"}) else Obj(root.members["hooks" := Obj(rest)])
  }

  /** The document an uninstall should leave. */
  function Uninstalled(d: Dialect, root: Json): Json {
    if !SessionHookPresent(d, root) then root
    else
      PresentContainer(d, root);
      var container := ContainerPath(d).value;
      var kept := KeptItems(d, Get(root, container).value.items);
      if kept == [] && !d.KiroOwned? then WithoutEvent(root, container[1].name)
      else Put(root, container, Arr(kept))
  }

  lemma PresentContainer(d: Dialect, root: Json)
    requires SessionHookPresent(d, root)
    ensures ContainerPath(d).Some?
    ensures var container := ContainerPath(d).value;
            && Get(root, container).Some? && Get(root, container).value.Arr?
            && Items(root, container) == Some(Get(root, container).value.items)
  {
    var container := ContainerPath(d).value;
    assert HooksFrom(d, [], 0) == [];
    ItemsAt(root, container);
  }

  lemma {:induction false} ItemsAt(node: Json, path: Path)
    requires Items(node, path).Some? && Items(node, path).value != []
    ensures Get(node, path) == Some(Arr(Items(node, path).value))
  {
    if path != [] {
      ItemsAt(node.members[path[0].name], path[1..]);
    }
  }

  // ----- which entries go, said of the document's members

  /** The object holds a command that runs our session line. */
  ghost predicate HoldsSession(v: Json) {
    v.Obj? && "command" in v.members && v.members["command"].Str? && RunsSession(v.members["command"].s)
  }

  /** A group goes when it has hooks and all are ours, an entry of the owned file also by its name. */
  ghost predicate Goes(d: Dialect, item: Json) {
    match d
    case ClaudeGroups(_, _) =>
      && item.Obj? && "hooks" in item.members && item.members["hooks"].Arr? && item.members["hooks"].items != []
      && forall h | h in item.members["hooks"].items :: HoldsSession(h)
    case FlatEventMap(_) => HoldsSession(item)
    case KiroOwned =>
      && item.Obj?
      && (|| ("name" in item.members && item.members["name"] == Str("crystalline-routing"))
          || ("action" in item.members && HoldsSession(item.members["action"])))
    case _ => false
  }

  lemma OursHolds(v: Json)
    ensures Ours(CommandOf(v)) <==> HoldsSession(v)
  {
    hide ProfileCommandKind, RunsSession;
    if CommandOf(v).Some? { OursIs(CommandOf(v).value); }
  }

  /** An uninstall takes exactly these elements. */
  lemma ItemGoes(d: Dialect, item: Json)
    ensures KeptItem(d, item).None? <==> Goes(d, item)
  {
    hide ProfileCommandKind, CommandOf, HoldsSession;
    OursHolds(item);
    match d
    case ClaudeGroups(_, _) =>
      if HookList(item).Some? {
        forall h | h in HookList(item).value
          ensures Ours(CommandOf(h)) <==> HoldsSession(h)
        {
          OursHolds(h);
        }
      }
    case KiroOwned =>
      if Child(item, Key("action")).Some? { OursHolds(Child(item, Key("action")).value); }
    case _ =>
  }

  lemma {:induction false} KeptAppend(a: seq<Json>, b: seq<Json>)
    ensures KeptHooks(a + b) == KeptHooks(a) + KeptHooks(b)
  {
    hide Ours;
    if a == [] {
      assert a + b == b;
    } else {
      assert (a + b)[1..] == a[1..] + b;
      KeptAppend(a[1..], b);
    }
  }

  /** Of a group that stays, each hook stays in its place unless it is ours. */
  lemma HookStays(before: seq<Json>, hook: Json, after: seq<Json>)
    ensures KeptHooks(before + [hook] + after)
         == KeptHooks(before) + (if HoldsSession(hook) then [] else [hook]) + KeptHooks(after)
  {
    hide Ours, HoldsSession;
    KeptAppend(before + [hook], after);
    KeptAppend(before, [hook]);
    OursHolds(hook);
    assert [hook][1..] == [];
  }

  // ----- the planned paths, element by element

  /** The removals inside one group, for its hooks from `hi` on. */
  function GroupRemovals(hooks: seq<Json>, gi: nat, hi: nat): seq<Path>
    requires hi <= |hooks|
    decreases |hooks| - hi
  {
    if hi == |hooks| then [] else HookRemoval(hooks[hi], gi, hi) + GroupRemovals(hooks, gi, hi + 1)
  }

  function HookRemoval(hook: Json, gi: nat, hi: nat): seq<Path> {
    if Ours(CommandOf(hook)) then [[Index(gi), Key("hooks"), Index(hi)]] else []
  }

  function ItemRemovals(d: Dialect, item: Json, i: nat): seq<Path> {
    if KeptItem(d, item).None? then [[Index(i)]]
    else if d.ClaudeGroups? && HookList(item).Some? then GroupRemovals(HookList(item).value, i, 0)
    else []
  }

  function RemovalsFrom(d: Dialect, items: seq<Json>, i: nat): seq<Path>
    requires i <= |items|
    decreases |items| - i
  {
    if i == |items| then [] else ItemRemovals(d, items[i], i) + RemovalsFrom(d, items, i + 1)
  }

  lemma {:induction false} RemovalsAppend(a: seq<OwnHook>, b: seq<OwnHook>)
    ensures Removals(a + b) == Removals(a) + Removals(b)
  {
    if a == [] {
      assert a + b == b;
    } else {
      assert (a + b)[1..] == a[1..] + b;
      RemovalsAppend(a[1..], b);
    }
  }

  lemma {:induction false} DedupAppend(a: seq<Path>, b: seq<Path>)
    requires a != [] && b != [] ==> a[|a| - 1] != b[0]
    ensures Dedup(a + b) == Dedup(a) + Dedup(b)
  {
    if |a| == 0 {
      assert a + b == b;
    } else if |a| == 1 {
      if b != [] { assert (a + b)[1..] == b; } else { assert a + b == a; }
    } else {
      assert (a + b)[1..] == a[1..] + b;
      DedupAppend(a[1..], b);
    }
  }

  /** Every path starts in the container's elements from `lo` up to, not including, `hi`. */
  ghost predicate Between(paths: seq<Path>, lo: nat, hi: nat) {
    forall k | 0 <= k < |paths| :: paths[k] != [] && paths[k][0].Index? && lo <= paths[k][0].at < hi
  }

  lemma {:induction false} GroupRemovalPaths(hooks: seq<Json>, gi: nat, hi: nat)
    requires hi <= |hooks|
    ensures Removals(GroupHooks(hooks, gi, hi, false)) == GroupRemovals(hooks, gi, hi)
    ensures Between(GroupRemovals(hooks, gi, hi), gi, gi + 1)
    decreases |hooks| - hi
  {
    hide Ours, CommandOf, OwnAt, HookRemoval, Removals;
    if hi < |hooks| {
      GroupRemovalPaths(hooks, gi, hi + 1);
      OwnRemoval(hooks[hi], gi, hi);
      RemovalsAppend(OwnAt(hooks[hi], gi, hi, false), GroupHooks(hooks, gi, hi + 1, false));
      BetweenBoth(HookRemoval(hooks[hi], gi, hi), GroupRemovals(hooks, gi, hi + 1), gi, gi + 1);
      hide Between;
    } else {
      NoRemovals();
    }
  }

  lemma NoRemovals()
    ensures Removals([]) == []
  {}

  lemma BetweenBoth(a: seq<Path>, b: seq<Path>, lo: nat, hi: nat)
    requires Between(a, lo, hi) && Between(b, lo, hi)
    ensures Between(a + b, lo, hi)
  {}

  /** What one hook of a group adds to the removals. */
  lemma OwnRemoval(hook: Json, gi: nat, hi: nat)
    ensures Removals(OwnAt(hook, gi, hi, false)) == HookRemoval(hook, gi, hi) && Between(HookRemoval(hook, gi, hi), gi, gi + 1)
  {
    hide Ours, CommandOf;
  }

  lemma {:induction false} GroupRemovalsDistinct(hooks: seq<Json>, gi: nat, hi: nat)
    requires hi <= |hooks|
    ensures Dedup(GroupRemovals(hooks, gi, hi)) == GroupRemovals(hooks, gi, hi)
    ensures GroupRemovals(hooks, gi, hi) != [] ==>
              exists k: nat :: k >= hi && GroupRemovals(hooks, gi, hi)[0] == [Index(gi), Key("hooks"), Index(k)]
    decreases |hooks| - hi
  {
    hide Ours, CommandOf;
    if hi < |hooks| {
      GroupRemovalsDistinct(hooks, gi, hi + 1);
      var own, rest := HookRemoval(hooks[hi], gi, hi), GroupRemovals(hooks, gi, hi + 1);
      DedupOne(own);
      if own == [] {
        assert [] + rest == rest;
      } else if rest != [] {
        var k: nat :| k >= hi + 1 && rest[0] == [Index(gi), Key("hooks"), Index(k)];
        assert own[0][2] != rest[0][2];
      }
      hide Dedup;
      DedupAppend(own, rest);
    }
  }

  lemma DedupOne(paths: seq<Path>)
    requires |paths| <= 1
    ensures Dedup(paths) == paths
  {}

  /** A group that is all ours names itself once for each of its hooks. */
  lemma {:induction false} WholeGroupPaths(hooks: seq<Json>, gi: nat, hi: nat)
    requires hi <= |hooks| && AllOurs(hooks)
    ensures Dedup(Removals(GroupHooks(hooks, gi, hi, true))) == if hi == |hooks| then [] else [[Index(gi)]]
    ensures forall p | p in Removals(GroupHooks(hooks, gi, hi, true)) :: p == [Index(gi)]
    decreases |hooks| - hi
  {
    hide Ours, CommandOf, Dedup;
    WholeGroupRemovals(hooks, gi, hi);
    Repeated([Index(gi)], Removals(GroupHooks(hooks, gi, hi, true)));
  }

  lemma {:induction false} WholeGroupRemovals(hooks: seq<Json>, gi: nat, hi: nat)
    requires hi <= |hooks| && AllOurs(hooks)
    ensures var paths := Removals(GroupHooks(hooks, gi, hi, true));
            |paths| == |hooks| - hi && forall p | p in paths :: p == [Index(gi)]
    decreases |hooks| - hi
  {
    hide Ours, CommandOf;
    if hi < |hooks| {
      WholeGroupRemovals(hooks, gi, hi + 1);
      assert hooks[hi] in hooks;
      WholeRemoval(hooks[hi], gi, hi);
      hide OwnAt, Removals;
      RemovalsAppend(OwnAt(hooks[hi], gi, hi, true), GroupHooks(hooks, gi, hi + 1, true));
    }
  }

  lemma WholeRemoval(hook: Json, gi: nat, hi: nat)
    requires Ours(CommandOf(hook))
    ensures Removals(OwnAt(hook, gi, hi, true)) == [[Index(gi)]]
  {
    hide Ours, CommandOf;
  }

  lemma {:induction false} Repeated(path: Path, paths: seq<Path>)
    requires forall p | p in paths :: p == path
    ensures Dedup(paths) == if paths == [] then [] else [path]
  {
    if |paths| > 1 {
      assert paths[0] in paths && paths[1] in paths;
      assert forall p | p in paths[1..] :: p in paths;
      Repeated(path, paths[1..]);
    } else if |paths| == 1 {
      assert paths[0] in paths;
    }
  }

  lemma ItemRemovalPaths(d: Dialect, item: Json, i: nat)
    ensures Dedup(Removals(ItemHooks(d, item, i))) == ItemRemovals(d, item, i)
    ensures Between(Removals(ItemHooks(d, item, i)), i, i + 1)
  {
    if d.ClaudeGroups? && HookList(item).Some? {
      var hooks := HookList(item).value;
      if AllOurs(hooks) {
        WholeGroupPaths(hooks, i, 0);
        var paths := Removals(GroupHooks(hooks, i, 0, true));
        assert forall k | 0 <= k < |paths| :: paths[k] in paths;
      } else {
        GroupRemovalPaths(hooks, i, 0);
        GroupRemovalsDistinct(hooks, i, 0);
      }
    }
  }

  /** `dedup` names every element and every hook to remove once, in document order. */
  lemma {:induction false} RemovalPaths(d: Dialect, items: seq<Json>, i: nat)
    requires i <= |items|
    ensures Dedup(Removals(HooksFrom(d, items, i))) == RemovalsFrom(d, items, i)
    ensures Between(Removals(HooksFrom(d, items, i)), i, |items|)
    decreases |items| - i
  {
    if i < |items| {
      RemovalPaths(d, items, i + 1);
      ItemRemovalPaths(d, items[i], i);
      RemovalsAppend(ItemHooks(d, items[i], i), HooksFrom(d, items, i + 1));
      DedupApart(Removals(ItemHooks(d, items[i], i)), Removals(HooksFrom(d, items, i + 1)), i, |items|);
    }
  }

  lemma DedupApart(a: seq<Path>, b: seq<Path>, i: nat, n: nat)
    requires Between(a, i, i + 1) && Between(b, i + 1, n) && i < n
    ensures Dedup(a + b) == Dedup(a) + Dedup(b) && Between(a + b, i, n)
  {
    if a != [] && b != [] {
      assert a[|a| - 1][0] != b[0][0];
    }
    DedupAppend(a, b);
  }

  // ----- applying the removals, last first

  lemma {:induction false} BackwardsAppend(c: Path, a: seq<Path>, b: seq<Path>, prune: Prune)
    ensures RemoveBackwards(c, a + b, prune) == RemoveBackwards(c, b, prune) + RemoveBackwards(c, a, prune)
  {
    if a == [] {
      assert a + b == b;
    } else {
      assert (a + b)[1..] == a[1..] + b;
      BackwardsAppend(c, a[1..], b, prune);
    }
  }

  /** What a run of edits has to show: it applies, ends in `after`, and every path means what it meant in `plan`. */
  ghost predicate Runs(plan: Json, v: Json, edits: seq<Edit>, after: Json) {
    ApplyEdits(v, edits) == Ok(after) && Addresses(plan, v, edits)
  }

  lemma RunsOn(plan: Json, v: Json, a: seq<Edit>, mid: Json, b: seq<Edit>, after: Json)
    requires Runs(plan, v, a, mid) && Runs(plan, mid, b, after)
    ensures Runs(plan, v, a + b, after)
  {
    ApplyAppend(plan, v, a, b);
  }

  lemma RunsNone(plan: Json, v: Json)
    ensures Runs(plan, v, [], v)
  {}

  lemma RunsOne(plan: Json, v: Json, path: Path, prune: Prune)
    requires Get(v, path).Some? && Get(v, path) == Get(plan, path)
    ensures Runs(plan, v, [Remove(path, prune)], Take(v, path, prune))
  {
    var edits := [Remove(path, prune)];
    assert edits[1..] == [];
  }

  lemma {:induction false} KeptForeign(hooks: seq<Json>, f: nat)
    requires f < |hooks| && !Ours(CommandOf(hooks[f]))
    ensures KeptHooks(hooks) != []
  {
    if f > 0 { KeptForeign(hooks[1..], f - 1); }
  }

  /** The hooks of a mixed group from `hi` on, removed last first: the rest keeps its order. */
  lemma {:induction false} GroupFilter(plan: Json, v: Json, p: Path, hooks: seq<Json>, gi: nat, hi: nat, f: nat, c: Path, prune: Prune)
    requires p == c + [Index(gi), Key("hooks")]
    requires Get(v, p) == Some(Arr(hooks)) && Get(plan, p) == Some(Arr(hooks))
    requires hi <= |hooks| && f < |hooks| && !Ours(CommandOf(hooks[f]))
    ensures Runs(plan, v, RemoveBackwards(c, GroupRemovals(hooks, gi, hi), prune),
                 Put(v, p, Arr(hooks[..hi] + KeptHooks(hooks[hi..]))))
    decreases |hooks| - hi
  {
    hide Runs, Put, Get, KeptHooks, HookRemoval, RemoveBackwards;
    if hi == |hooks| {
      KeptNone();
      assert hooks[hi..] == [] && hooks[..hi] + [] == hooks;
      PutSame(v, p);
      RunsNone(plan, v);
      NothingBackwards(c, prune);
    } else {
      GroupFilter(plan, v, p, hooks, gi, hi + 1, f, c, prune);
      var rest := GroupRemovals(hooks, gi, hi + 1);
      BackwardsAppend(c, HookRemoval(hooks[hi], gi, hi), rest, prune);
      HookStep(plan, v, p, hooks, gi, hi, f, c, prune);
      RunsOn(plan, v, RemoveBackwards(c, rest, prune), Put(v, p, Arr(hooks[..hi + 1] + KeptHooks(hooks[hi + 1..]))),
             RemoveBackwards(c, HookRemoval(hooks[hi], gi, hi), prune), Put(v, p, Arr(hooks[..hi] + KeptHooks(hooks[hi..]))));
    }
  }

  lemma KeptNone()
    ensures KeptHooks([]) == []
  {}

  lemma HookStep(plan: Json, v: Json, p: Path, hooks: seq<Json>, gi: nat, hi: nat, f: nat, c: Path, prune: Prune)
    requires p == c + [Index(gi), Key("hooks")]
    requires Get(v, p).Some? && Get(plan, p) == Some(Arr(hooks))
    requires hi < |hooks| && f < |hooks| && !Ours(CommandOf(hooks[f]))
    ensures Runs(plan, Put(v, p, Arr(hooks[..hi + 1] + KeptHooks(hooks[hi + 1..]))),
                 RemoveBackwards(c, HookRemoval(hooks[hi], gi, hi), prune),
                 Put(v, p, Arr(hooks[..hi] + KeptHooks(hooks[hi..]))))
  {
    hide Runs, Put, Get, KeptHooks, RemoveBackwards, Ours, CommandOf;
    var tail := KeptHooks(hooks[hi + 1..]);
    KeptHooksStep(hooks, hi);
    if Ours(CommandOf(hooks[hi])) {
      if f > hi { KeptForeign(hooks[hi + 1..], f - hi - 1); }
      GroupStep(plan, v, p, hooks, hi, tail, prune);
      OneBackwards(c, gi, hi, prune);
    } else {
      assert hooks[..hi + 1] + tail == hooks[..hi] + ([hooks[hi]] + tail);
      RunsNone(plan, Put(v, p, Arr(hooks[..hi + 1] + tail)));
      NothingBackwards(c, prune);
    }
  }

  lemma KeptHooksStep(hooks: seq<Json>, hi: nat)
    requires hi < |hooks|
    ensures KeptHooks(hooks[hi..])
         == if Ours(CommandOf(hooks[hi])) then KeptHooks(hooks[hi + 1..]) else [hooks[hi]] + KeptHooks(hooks[hi + 1..])
  {
    hide Ours, CommandOf;
    assert hooks[hi..][1..] == hooks[hi + 1..];
  }

  lemma OneBackwards(c: Path, gi: nat, hi: nat, prune: Prune)
    ensures RemoveBackwards(c, [[Index(gi), Key("hooks"), Index(hi)]], prune)
         == [Remove(c + [Index(gi), Key("hooks")] + [Index(hi)], prune)]
  {
    assert c + [Index(gi), Key("hooks"), Index(hi)] == c + [Index(gi), Key("hooks")] + [Index(hi)];
  }

  lemma GroupStep(plan: Json, v: Json, p: Path, hooks: seq<Json>, hi: nat, tail: seq<Json>, prune: Prune)
    requires Get(v, p).Some? && Get(plan, p) == Some(Arr(hooks)) && hi < |hooks|
    requires hi > 0 || tail != []
    ensures Runs(plan, Put(v, p, Arr(hooks[..hi + 1] + tail)), [Remove(p + [Index(hi)], prune)],
                 Put(v, p, Arr(hooks[..hi] + tail)))
  {
    hide Get, Put, Take, Runs, Without;
    var now := hooks[..hi + 1] + tail;
    var w := Put(v, p, Arr(now));
    GetPut(v, p, Arr(now));
    GetThrough(w, p, [Index(hi)]);
    GetThrough(plan, p, [Index(hi)]);
    WithoutAt(hooks, hi, tail);
    RunsOne(plan, w, p + [Index(hi)], prune);
    TakeInside(w, p, Index(hi), prune);
    PutPut(v, p, Arr(now), Arr(hooks[..hi] + tail));
  }

  lemma WithoutAt(hooks: seq<Json>, hi: nat, tail: seq<Json>)
    requires hi < |hooks|
    ensures var now := hooks[..hi + 1] + tail;
            && Get(Arr(now), [Index(hi)]) == Some(hooks[hi]) == Get(Arr(hooks), [Index(hi)])
            && Without(Arr(now), Index(hi)) == Arr(hooks[..hi] + tail)
            && Arr(hooks[..hi] + tail).Arr?
  {
    var now := hooks[..hi + 1] + tail;
    assert now[..hi] + now[hi + 1..] == hooks[..hi] + tail;
  }

  /** Where the run stands when the elements from `i` on are done. */
  function Standing(d: Dialect, root: Json, c: Path, items: seq<Json>, i: nat): Json
    requires Get(root, c).Some? && i <= |items|
  {
    var left := items[..i] + KeptItems(d, items[i..]);
    if left == [] && items != [] && !d.KiroOwned? then Take(root, c, Emptied) else Put(root, c, Arr(left))
  }

  lemma KeptStep(d: Dialect, items: seq<Json>, i: nat)
    requires i < |items|
    ensures KeptItems(d, items[i..])
         == (match KeptItem(d, items[i]) case Some(item) => [item] case None => []) + KeptItems(d, items[i + 1..])
  {
    assert items[i..][1..] == items[i + 1..];
  }

  lemma {:induction false} ItemsFilter(d: Dialect, root: Json, c: Path, items: seq<Json>, i: nat)
    requires c != [] && Get(root, c) == Some(Arr(items)) && i <= |items|
    ensures Runs(root, root, RemoveBackwards(c, RemovalsFrom(d, items, i), PruneOf(d)), Standing(d, root, c, items, i))
    decreases |items| - i
  {
    hide Runs, Put, Get, Take, KeptItem, ItemRemovals, RemoveBackwards;
    var prune := PruneOf(d);
    if i == |items| {
      assert items[i..] == [] && items[..i] + [] == items;
      PutSame(root, c);
      RunsNone(root, root);
      NothingBackwards(c, prune);
    } else {
      ItemsFilter(d, root, c, items, i + 1);
      BackwardsAppend(c, ItemRemovals(d, items[i], i), RemovalsFrom(d, items, i + 1), prune);
      ItemStep(d, root, c, items, i);
      RunsOn(root, root, RemoveBackwards(c, RemovalsFrom(d, items, i + 1), prune), Standing(d, root, c, items, i + 1),
             RemoveBackwards(c, ItemRemovals(d, items[i], i), prune), Standing(d, root, c, items, i));
    }
  }

  lemma NothingBackwards(c: Path, prune: Prune)
    ensures RemoveBackwards(c, [], prune) == []
  {}

  lemma ItemStep(d: Dialect, root: Json, c: Path, items: seq<Json>, i: nat)
    requires c != [] && Get(root, c) == Some(Arr(items)) && i < |items|
    ensures Runs(root, Standing(d, root, c, items, i + 1), RemoveBackwards(c, ItemRemovals(d, items[i], i), PruneOf(d)),
                 Standing(d, root, c, items, i))
  {
    hide Runs, Put, Get, Take, RemoveBackwards;
    var tail := KeptItems(d, items[i + 1..]);
    KeptStep(d, items, i);
    assert items[..i + 1] + tail != [];
    if KeptItem(d, items[i]).None? {
      DropItem(d, root, c, items, i, tail);
    } else if d.ClaudeGroups? && HookList(items[i]).Some? {
      TrimGroup(d, root, c, items, i, tail);
    } else {
      assert items[..i + 1] + tail == items[..i] + ([items[i]] + tail);
      RunsNone(root, Standing(d, root, c, items, i));
      NothingBackwards(c, PruneOf(d));
    }
  }

  lemma DropItem(d: Dialect, root: Json, c: Path, items: seq<Json>, i: nat, tail: seq<Json>)
    requires c != [] && Get(root, c) == Some(Arr(items)) && i < |items|
    requires KeptItems(d, items[i..]) == tail
    ensures Runs(root, Put(root, c, Arr(items[..i + 1] + tail)), RemoveBackwards(c, [[Index(i)]], PruneOf(d)),
                 Standing(d, root, c, items, i))
  {
    hide Runs, Put, Get, Take;
    var now := items[..i + 1] + tail;
    var w := Put(root, c, Arr(now));
    GetPut(root, c, Arr(now));
    GetThrough(w, c, [Index(i)]);
    GetThrough(root, c, [Index(i)]);
    ElementAt(now, i);
    ElementAt(items, i);
    RunsOne(root, w, c + [Index(i)], PruneOf(d));
    assert RemoveBackwards(c, [[Index(i)]], PruneOf(d)) == [Remove(c + [Index(i)], PruneOf(d))];
    assert now[..i] + now[i + 1..] == items[..i] + tail;
    assert Without(Arr(now), Index(i)) == Arr(items[..i] + tail);
    if items[..i] + tail == [] && !d.KiroOwned? {
      TakeLast(w, c, Index(i));
      ParentOfCut(root, c, Arr(now));
    } else {
      TakeInside(w, c, Index(i), PruneOf(d));
      PutPut(root, c, Arr(now), Arr(items[..i] + tail));
    }
  }

  lemma ElementAt(items: seq<Json>, i: nat)
    requires i < |items|
    ensures Child(Arr(items), Index(i)) == Some(items[i]) && Get(Arr(items), [Index(i)]) == Some(items[i])
  {
    assert [Index(i)][1..] == [];
  }

  lemma TrimGroup(d: Dialect, root: Json, c: Path, items: seq<Json>, i: nat, tail: seq<Json>)
    requires c != [] && Get(root, c) == Some(Arr(items)) && i < |items|
    requires d.ClaudeGroups? && HookList(items[i]).Some? && KeptItem(d, items[i]).Some?
    requires KeptItems(d, items[i..]) == [KeptItem(d, items[i]).value] + tail
    ensures Runs(root, Put(root, c, Arr(items[..i + 1] + tail)),
                 RemoveBackwards(c, GroupRemovals(HookList(items[i]).value, i, 0), Emptied),
                 Standing(d, root, c, items, i))
  {
    hide Runs, Put, Get, Take, RemoveBackwards;
    var group, hooks := items[i], HookList(items[i]).value;
    var now := items[..i + 1] + tail;
    var w := Put(root, c, Arr(now));
    var kept := Obj(group.members["hooks" := Arr(KeptHooks(hooks))]);
    var p := c + [Index(i), Key("hooks")];
    GetPut(root, c, Arr(now));
    GroupAt(w, c, now, i);
    GroupAt(root, c, items, i);
    assert now[i := kept] == items[..i] + ([kept] + tail);
    PutGroup(w, c, now, i, Arr(KeptHooks(hooks)));
    PutPut(root, c, Arr(now), Arr(now[i := kept]));
    if hooks == [] {
      assert group.members["hooks" := Arr([])] == group.members;
      assert now[i := group] == now;
      RunsNone(root, w);
      NothingBackwards(c, Emptied);
    } else {
      var f :| 0 <= f < |hooks| && !Ours(CommandOf(hooks[f]));
      GroupFilter(root, w, p, hooks, i, 0, f, c, Emptied);
      assert hooks[0..] == hooks && hooks[..0] + KeptHooks(hooks) == KeptHooks(hooks);
    }
  }

  lemma GroupAt(v: Json, c: Path, items: seq<Json>, i: nat)
    requires Get(v, c) == Some(Arr(items)) && i < |items| && HookList(items[i]).Some?
    ensures Get(v, c + [Index(i), Key("hooks")]) == Some(Arr(HookList(items[i]).value))
  {
    GetThrough(v, c, [Index(i), Key("hooks")]);
    assert [Index(i), Key("hooks")][1..] == [Key("hooks")] && [Key("hooks")][1..] == [];
    assert Get(Arr(items), [Index(i), Key("hooks")]) == Get(items[i], [Key("hooks")]);
    assert Get(items[i], [Key("hooks")]) == Get(items[i].members["hooks"], []);
  }

  lemma PutGroup(v: Json, c: Path, items: seq<Json>, i: nat, x: Json)
    requires Get(v, c) == Some(Arr(items)) && i < |items| && HookList(items[i]).Some?
    ensures Get(v, c + [Index(i), Key("hooks")]).Some?
    ensures Put(v, c + [Index(i), Key("hooks")], x)
         == Put(v, c, Arr(items[i := Obj(items[i].members["hooks" := x])]))
  {
    GroupAt(v, c, items, i);
    GetThrough(v, c, [Index(i), Key("hooks")]);
    PutThrough(v, c, [Index(i), Key("hooks")], x);
    assert [Index(i), Key("hooks")][1..] == [Key("hooks")] && [Key("hooks")][1..] == [];
    assert Put(items[i], [Key("hooks")], x) == Obj(items[i].members["hooks" := x]);
  }

  /** With an event list and a `hooks` object, taking the list and pruning is dropping the event. */
  lemma TakeEvent(root: Json, event: string)
    requires Get(root, [Key("hooks"), Key(event)]).Some?
    ensures Take(root, [Key("hooks"), Key(event)], Emptied) == WithoutEvent(root, event)
  {
    var path := [Key("hooks"), Key(event)];
    assert path[1..] == [Key(event)] && [Key(event)][1..] == [] && [Key("hooks")][1..] == [];
    var hooks := root.members["hooks"];
    assert Get(root, path) == Get(hooks, [Key(event)]);
    assert Get(root, [Key("hooks")]) == Some(hooks);
    var rest := Without(hooks, Key(event));
    assert [Key("hooks")] + [Key(event)] == path;
    if IsEmpty(rest) {
      TakeLast(root, [Key("hooks")], Key(event));
    } else {
      TakeInside(root, [Key("hooks")], Key(event), Emptied);
    }
  }

  /**
   * Uninstall is exactly a filter: its edits apply in order, each path still
   * means what it meant when planned, and the result is the document with
   * our hooks left out.
   */
  lemma UninstallIsFilter(d: Dialect, root: Json)
    ensures ApplyEdits(root, PlanUninstall(d, root)) == Ok(Uninstalled(d, root))
    ensures Addresses(root, root, PlanUninstall(d, root))
  {
    if SessionHookPresent(d, root) {
      PresentContainer(d, root);
      var container := ContainerPath(d).value;
      var items := Get(root, container).value.items;
      RemovalPaths(d, items, 0);
      ItemsFilter(d, root, container, items, 0);
      assert items[0..] == items && items[..0] + KeptItems(d, items) == KeptItems(d, items);
      if !d.KiroOwned? { TakeEvent(root, container[1].name); }
      assert items != [];
    }
  }

  // ----- nothing of ours is left

  /** An element that holds no hook of ours. */
  predicate Clean(d: Dialect, item: Json) {
    match d
    case ClaudeGroups(_, _) =>
      HookList(item).Some? ==> forall h | h in HookList(item).value :: !Ours(CommandOf(h))
    case FlatEventMap(_) => !Ours(CommandOf(item))
    case KiroOwned => !KiroOurs(item)
    case _ => true
  }

  lemma {:induction false} NoGroupHooks(hooks: seq<Json>, gi: nat, hi: nat, whole: bool)
    requires hi <= |hooks|
    ensures GroupHooks(hooks, gi, hi, whole) == [] <==> forall j | hi <= j < |hooks| :: !Ours(CommandOf(hooks[j]))
    decreases |hooks| - hi
  {
    hide Ours, CommandOf;
    if hi < |hooks| { NoGroupHooks(hooks, gi, hi + 1, whole); }
  }

  lemma CleanItem(d: Dialect, item: Json, i: nat)
    ensures Clean(d, item) <==> ItemHooks(d, item, i) == []
  {
    hide Ours, CommandOf;
    if d.ClaudeGroups? && HookList(item).Some? {
      NoGroupHooks(HookList(item).value, i, 0, AllOurs(HookList(item).value));
    }
  }

  lemma {:induction false} CleanItems(d: Dialect, items: seq<Json>, i: nat)
    requires i <= |items|
    ensures HooksFrom(d, items, i) == [] <==> forall j | i <= j < |items| :: Clean(d, items[j])
    decreases |items| - i
  {
    hide Clean, ItemHooks;
    if i < |items| {
      CleanItem(d, items[i], i);
      CleanItems(d, items, i + 1);
    }
  }

  lemma {:induction false} KeptHooksForeign(hooks: seq<Json>)
    ensures forall h | h in KeptHooks(hooks) :: !Ours(CommandOf(h))
    ensures (forall h | h in hooks :: !Ours(CommandOf(h))) ==> KeptHooks(hooks) == hooks
  {
    hide Ours, CommandOf;
    if hooks != [] { KeptHooksForeign(hooks[1..]); }
  }

  lemma KeptItemClean(d: Dialect, item: Json)
    ensures KeptItem(d, item).Some? ==> Clean(d, KeptItem(d, item).value)
    ensures Clean(d, item) ==> KeptItem(d, item) == Some(item)
  {
    hide Ours, CommandOf;
    if d.ClaudeGroups? && HookList(item).Some? {
      var hooks := HookList(item).value;
      KeptHooksForeign(hooks);
      assert hooks != [] ==> hooks[0] in hooks;
      if Clean(d, item) {
        assert item.members["hooks" := Arr(hooks)] == item.members;
      }
    }
  }

  lemma {:induction false} KeptItemsClean(d: Dialect, items: seq<Json>)
    ensures forall item | item in KeptItems(d, items) :: Clean(d, item)
    ensures (forall item | item in items :: Clean(d, item)) ==> KeptItems(d, items) == items
  {
    hide Clean, KeptItem;
    if items != [] {
      KeptItemClean(d, items[0]);
      KeptItemsClean(d, items[1..]);
    }
  }

  lemma {:induction false} ItemsOfPut(node: Json, path: Path, items: seq<Json>)
    requires Get(node, path).Some? && Items(node, path).Some?
    ensures Items(Put(node, path, Arr(items)), path) == Some(items)
  {
    if path != [] { ItemsOfPut(node.members[path[0].name], path[1..], items); }
  }

  /** After an uninstall no hook of ours is present, and a second uninstall plans nothing. */
  lemma UninstallLeavesNone(d: Dialect, root: Json)
    ensures !SessionHookPresent(d, Uninstalled(d, root))
    ensures PlanUninstall(d, Uninstalled(d, root)) == []
  {
    hide KeptItem, KeptItems, ItemHooks, GroupHooks, OwnAt, Ours;
    if SessionHookPresent(d, root) {
      PresentContainer(d, root);
      var container := ContainerPath(d).value;
      var kept := KeptItems(d, Get(root, container).value.items);
      KeptItemsClean(d, Get(root, container).value.items);
      CleanItems(d, kept, 0);
      if kept != [] || d.KiroOwned? {
        ItemsOfPut(root, container, kept);
      } else {
        EventGone(root, container[1].name);
      }
    }
  }

  lemma EventGone(root: Json, event: string)
    requires Get(root, [Key("hooks"), Key(event)]).Some?
    ensures Items(WithoutEvent(root, event), [Key("hooks"), Key(event)]) == Some([])
  {
    assert [Key("hooks"), Key(event)][1..] == [Key(event)];
  }
}
