/** Which files of a build the lazy route loads beyond the main entry: two worklists against plain reachability. */
module BundleBudget {
  import opened Options

  datatype Chunk = Chunk(file: string, imports: seq<string>, dynamicImports: seq<string>, css: seq<string>)

  type Manifest = map<string, Chunk>

  const GAME_ENTRY := "src/game/ExploreRoute.tsx"
  const MAIN_ENTRY := "index.html"
  const GAME_BUDGET_BYTES := 1_474_560
  const MAIN_GUIDELINE_BYTES := 178_000

  // ----- reachability, said with paths

  /** The keys a chunk leads to; `lazy` counts its dynamic imports too. */
  function Edges(chunk: Chunk, lazy: bool): seq<string> {
    chunk.imports + if lazy then chunk.dynamicImports else []
  }

  ghost predicate Enters(m: Manifest, avoid: set<string>, key: string) {
    key in m && key !in avoid
  }

  /** A walk over entered keys, each an edge of the one before. */
  ghost predicate IsPath(m: Manifest, lazy: bool, avoid: set<string>, path: seq<string>) {
    && path != []
    && (forall i | 0 <= i < |path| :: Enters(m, avoid, path[i]))
    && (forall i | 0 < i < |path| :: path[i] in Edges(m[path[i - 1]], lazy))
  }

  ghost predicate Reachable(m: Manifest, lazy: bool, avoid: set<string>, entry: string, key: string) {
    exists path :: IsPath(m, lazy, avoid, path) && path[0] == entry && path[|path| - 1] == key
  }

  lemma ReachEntry(m: Manifest, lazy: bool, avoid: set<string>, entry: string)
    requires Enters(m, avoid, entry)
    ensures Reachable(m, lazy, avoid, entry, entry)
  {
    assert IsPath(m, lazy, avoid, [entry]);
  }

  lemma ReachOn(m: Manifest, lazy: bool, avoid: set<string>, entry: string, key: string, next: string)
    requires Reachable(m, lazy, avoid, entry, key) && key in m
    requires Enters(m, avoid, next) && next in Edges(m[key], lazy)
    ensures Reachable(m, lazy, avoid, entry, next)
  {
    var path :| IsPath(m, lazy, avoid, path) && path[0] == entry && path[|path| - 1] == key;
    var longer := path + [next];
    assert IsPath(m, lazy, avoid, longer);
  }

  /** A set that holds the entry and is closed under the edges. */
  ghost predicate Closed(m: Manifest, lazy: bool, avoid: set<string>, entry: string, keys: set<string>) {
    && (Enters(m, avoid, entry) ==> entry in keys)
    && forall k, next | k in keys && k in m && next in Edges(m[k], lazy) && Enters(m, avoid, next) :: next in keys
  }

  lemma ClosedHoldsPath(m: Manifest, lazy: bool, avoid: set<string>, entry: string, keys: set<string>, path: seq<string>, i: nat)
    requires Closed(m, lazy, avoid, entry, keys)
    requires IsPath(m, lazy, avoid, path) && path[0] == entry && i < |path|
    ensures path[i] in keys
  {
    if i > 0 { ClosedHoldsPath(m, lazy, avoid, entry, keys, path, i - 1); }
  }

  /** What is reachable is in every closed set: reachability is the least of them. */
  lemma ReachableIsLeast(m: Manifest, lazy: bool, avoid: set<string>, entry: string, keys: set<string>)
    requires Closed(m, lazy, avoid, entry, keys)
    ensures forall k | Reachable(m, lazy, avoid, entry, k) :: k in keys
  {
    forall k | Reachable(m, lazy, avoid, entry, k)
      ensures k in keys
    {
      var path :| IsPath(m, lazy, avoid, path) && path[0] == entry && path[|path| - 1] == k;
      ClosedHoldsPath(m, lazy, avoid, entry, keys, path, |path| - 1);
    }
  }

  // ----- the worklists

  /** Where a worklist stands: what it has visited is reachable, and what it still misses is on the stack. */
  ghost predicate Standing(m: Manifest, lazy: bool, avoid: set<string>, entry: string, visited: set<string>, stack: seq<string>) {
    && (forall k | k in visited :: Enters(m, avoid, k) && Reachable(m, lazy, avoid, entry, k))
    && (forall s | s in stack && Enters(m, avoid, s) :: Reachable(m, lazy, avoid, entry, s))
    && (Enters(m, avoid, entry) ==> entry in visited || entry in stack)
    && (forall k, next | k in visited && next in Edges(m[k], lazy) && Enters(m, avoid, next) ::
          next in visited || next in stack)
  }

  lemma Begin(m: Manifest, lazy: bool, avoid: set<string>, entry: string)
    ensures Standing(m, lazy, avoid, entry, {}, [entry])
  {
    if Enters(m, avoid, entry) { ReachEntry(m, lazy, avoid, entry); }
  }

  lemma Skip(m: Manifest, lazy: bool, avoid: set<string>, entry: string, visited: set<string>, stack: seq<string>)
    requires stack != [] && Standing(m, lazy, avoid, entry, visited, stack)
    requires stack[|stack| - 1] in visited || !Enters(m, avoid, stack[|stack| - 1])
    ensures Standing(m, lazy, avoid, entry, visited, stack[..|stack| - 1])
  {
    assert stack == stack[..|stack| - 1] + [stack[|stack| - 1]];
  }

  lemma Visit(m: Manifest, lazy: bool, avoid: set<string>, entry: string, visited: set<string>, stack: seq<string>)
    requires stack != [] && Standing(m, lazy, avoid, entry, visited, stack)
    requires Enters(m, avoid, stack[|stack| - 1])
    ensures var key := stack[|stack| - 1];
            Standing(m, lazy, avoid, entry, visited + {key}, stack[..|stack| - 1] + Edges(m[key], lazy))
  {
    var key := stack[|stack| - 1];
    assert stack == stack[..|stack| - 1] + [key];
    forall next | next in Edges(m[key], lazy) && Enters(m, avoid, next)
      ensures Reachable(m, lazy, avoid, entry, next)
    {
      ReachOn(m, lazy, avoid, entry, key, next);
    }
  }

  lemma End(m: Manifest, lazy: bool, avoid: set<string>, entry: string, visited: set<string>)
    requires Standing(m, lazy, avoid, entry, visited, [])
    ensures forall k :: k in visited <==> Reachable(m, lazy, avoid, entry, k)
    ensures forall k | k in visited :: Enters(m, avoid, k)
  {
    ReachableIsLeast(m, lazy, avoid, entry, visited);
  }

  /** What a first visit loads: the keys that static imports of the main entry lead to. */
  method MainKeys(m: Manifest) returns (keys: set<string>)
    ensures forall k :: k in keys <==> Reachable(m, false, {}, MAIN_ENTRY, k)
  {
    keys := {};
    var stack := [MAIN_ENTRY];
    Begin(m, false, {}, MAIN_ENTRY);
    while stack != []
      invariant Standing(m, false, {}, MAIN_ENTRY, keys, stack)
      decreases m.Keys - keys, |stack|
    {
      var key := stack[|stack| - 1];
      if key in keys || key !in m {
        Skip(m, false, {}, MAIN_ENTRY, keys, stack);
        stack := stack[..|stack| - 1];
        continue;
      }
      Visit(m, false, {}, MAIN_ENTRY, keys, stack);
      assert key in m.Keys - keys;
      stack := stack[..|stack| - 1] + m[key].imports;
      keys := keys + {key};
    }
    End(m, false, {}, MAIN_ENTRY, keys);
  }

  // ----- the files

  function Elements(s: seq<string>): set<string> {
    set x | x in s
  }

  predicate Distinct(s: seq<string>) {
    forall i, j | 0 <= i < j < |s| :: s[i] != s[j]
  }

  /** A file of a visited key: its script or one of its style sheets. */
  predicate FileOf(m: Manifest, keys: set<string>, file: string) {
    exists k | k in keys :: k in m && (file == m[k].file || file in m[k].css)
  }

  method AddFile(seen: set<string>, files: seq<string>, file: string) returns (seen': set<string>, files': seq<string>)
    requires Distinct(files) && seen == Elements(files)
    ensures Distinct(files') && seen' == Elements(files') == seen + {file} && files <= files'
  {
    if file in seen { return seen, files; }
    seen', files' := seen + {file}, files + [file];
  }

  method AddChunk(seen: set<string>, files: seq<string>, chunk: Chunk) returns (seen': set<string>, files': seq<string>)
    requires Distinct(files) && seen == Elements(files)
    ensures Distinct(files') && seen' == Elements(files') == seen + {chunk.file} + Elements(chunk.css)
  {
    seen', files' := AddFile(seen, files, chunk.file);
    for i := 0 to |chunk.css|
      invariant Distinct(files') && seen' == Elements(files') == seen + {chunk.file} + Elements(chunk.css[..i])
    {
      seen', files' := AddFile(seen', files', chunk.css[i]);
      assert chunk.css[..i + 1] == chunk.css[..i] + [chunk.css[i]];
    }
    assert chunk.css[..|chunk.css|] == chunk.css;
  }

  /** The files of the keys the route reaches by ways that never enter a main key. */
  ghost predicate GameFile(m: Manifest, file: string) {
    exists k :: GameKey(m, k) && (file == m[k].file || file in m[k].css)
  }

  ghost predicate MainKey(m: Manifest, k: string) {
    Reachable(m, false, {}, MAIN_ENTRY, k)
  }

  ghost function MainSet(m: Manifest): set<string> {
    set x | x in m && MainKey(m, x)
  }

  ghost predicate GameKey(m: Manifest, k: string) {
    k in m && Reachable(m, true, MainSet(m), GAME_ENTRY, k)
  }

  method GameFiles(m: Manifest) returns (files: seq<string>)
    ensures Distinct(files)
    ensures forall f :: f in files <==> GameFile(m, f)
  {
    hide Standing, Reachable, FileOf, GameFile, Distinct, Elements;
    if GAME_ENTRY !in m {
      NoRoute(m);
      NoFiles();
      return [];
    }
    var main := MainKeys(m);
    var visited, seen: set<string>, stack := {}, {}, [GAME_ENTRY];
    files := [];
    NoFiles();
    NoFileYet(m);
    Begin(m, true, main, GAME_ENTRY);
    while stack != []
      invariant Standing(m, true, main, GAME_ENTRY, visited, stack)
      invariant Distinct(files) && seen == Elements(files)
      invariant forall f :: f in seen <==> FileOf(m, visited, f)
      decreases m.Keys - visited, |stack|
    {
      var key := stack[|stack| - 1];
      if key in visited || key in main || key !in m {
        Skip(m, true, main, GAME_ENTRY, visited, stack);
        stack := stack[..|stack| - 1];
        continue;
      }
      Visit(m, true, main, GAME_ENTRY, visited, stack);
      assert key in m.Keys - visited;
      FilesGrow(m, visited, key);
      ElementsIn(m[key].css);
      stack := stack[..|stack| - 1] + (m[key].imports + m[key].dynamicImports);
      visited := visited + {key};
      seen, files := AddChunk(seen, files, m[key]);
    }
    End(m, true, main, GAME_ENTRY, visited);
    ElementsIn(files);
    GameFilesAre(m, main, visited);
  }

  lemma NoFiles()
    ensures Distinct([]) && Elements([]) == {}
  {}

  lemma NoFileYet(m: Manifest)
    ensures forall f :: !FileOf(m, {}, f)
  {}

  lemma ElementsIn(s: seq<string>)
    ensures forall x :: x in Elements(s) <==> x in s
  {}

  lemma FilesGrow(m: Manifest, visited: set<string>, key: string)
    requires key in m
    ensures forall f :: FileOf(m, visited + {key}, f) <==> FileOf(m, visited, f) || f == m[key].file || f in m[key].css
  {
    assert key in visited + {key};
    forall f | FileOf(m, visited, f)
      ensures FileOf(m, visited + {key}, f)
    {
      var k :| k in visited && k in m && (f == m[k].file || f in m[k].css);
      assert k in visited + {key};
    }
  }

  lemma NoRoute(m: Manifest)
    requires GAME_ENTRY !in m
    ensures forall f :: !GameFile(m, f)
  {
    forall k
      ensures !GameKey(m, k)
    {
      assert forall path | IsPath(m, true, MainSet(m), path) :: path[0] in m;
    }
  }

  lemma GameFilesAre(m: Manifest, main: set<string>, visited: set<string>)
    requires forall k :: k in main <==> Reachable(m, false, {}, MAIN_ENTRY, k)
    requires forall k :: k in visited <==> Reachable(m, true, main, GAME_ENTRY, k)
    requires forall k | k in visited :: k in m
    ensures forall f :: FileOf(m, visited, f) <==> GameFile(m, f)
  {
    assert forall k | k in main :: k in m by {
      forall k | k in main
        ensures k in m
      {
        var path :| IsPath(m, false, {}, path) && path[0] == MAIN_ENTRY && path[|path| - 1] == k;
      }
    }
    assert main == MainSet(m);
    assert forall k :: k in visited <==> GameKey(m, k);
  }

  // ----- the measure

  function Sum(files: seq<string>, size: string -> nat): nat {
    if files == [] then 0 else size(files[0]) + Sum(files[1..], size)
  }

  /** The bytes of a list without repeats depend only on which files it holds. */
  lemma {:induction false} SumOfSet(a: seq<string>, b: seq<string>, size: string -> nat)
    requires Distinct(a) && Distinct(b) && Elements(a) == Elements(b)
    ensures Sum(a, size) == Sum(b, size)
  {
    if a == [] {
      if b != [] { HasElement(b); }
    } else {
      assert a[0] in Elements(b);
      var i :| 0 <= i < |b| && b[i] == a[0];
      SumWithout(b, i, size);
      SameRest(a, b, i);
      SumOfSet(a[1..], b[..i] + b[i + 1..], size);
    }
  }

  lemma HasElement(s: seq<string>)
    requires s != []
    ensures Elements(s) != {}
  {
    assert s[0] in Elements(s);
  }

  lemma {:induction false} SumWithout(s: seq<string>, i: nat, size: string -> nat)
    requires i < |s|
    ensures Sum(s, size) == size(s[i]) + Sum(s[..i] + s[i + 1..], size)
  {
    if i == 0 {
      assert s[..i] + s[i + 1..] == s[1..];
    } else {
      SumWithout(s[1..], i - 1, size);
      var rest := s[..i] + s[i + 1..];
      assert rest[1..] == s[1..][..i - 1] + s[1..][i..];
    }
  }

  lemma SameRest(a: seq<string>, b: seq<string>, i: nat)
    requires a != [] && i < |b| && b[i] == a[0] && Distinct(a) && Distinct(b) && Elements(a) == Elements(b)
    ensures Distinct(a[1..]) && Distinct(b[..i] + b[i + 1..])
    ensures Elements(a[1..]) == Elements(b[..i] + b[i + 1..])
  {
    var rest := b[..i] + b[i + 1..];
    assert Elements(a[1..]) == Elements(a) - {a[0]} by {
      assert forall x | x in a :: x == a[0] || x in a[1..];
    }
    assert Elements(rest) == Elements(b) - {b[i]} by {
      assert forall x | x in b :: x == b[i] || x in rest by {
        forall x | x in b && x != b[i]
          ensures x in rest
        {
          var k :| 0 <= k < |b| && b[k] == x;
          assert rest[if k < i then k else k - 1] == x;
        }
      }
    }
  }

  datatype BudgetReport = BudgetReport(routePresent: bool, gameBytes: nat, mainBytes: nat, overBudget: bool, overGuideline: bool)

  /** The report of a build; it fails without a main entry. */
  method Measure(m: Manifest, gzipSize: string -> nat) returns (r: Result<BudgetReport>)
    ensures r.Ok? <==> MAIN_ENTRY in m
    ensures r.Ok? ==>
              && (r.value.routePresent <==> GAME_ENTRY in m)
              && (forall files | Distinct(files) && (forall f :: f in files <==> GameFile(m, f)) ::
                    r.value.gameBytes == Sum(files, gzipSize))
              && (r.value.overBudget <==> r.value.gameBytes > GAME_BUDGET_BYTES)
              && r.value.mainBytes == gzipSize(m[MAIN_ENTRY].file)
              && (r.value.overGuideline <==> r.value.mainBytes > MAIN_GUIDELINE_BYTES)
  {
    var files := GameFiles(m);
    if MAIN_ENTRY !in m { return Err; }
    var gameBytes := Sum(files, gzipSize);
    var mainBytes := gzipSize(m[MAIN_ENTRY].file);
    forall other | Distinct(other) && (forall f :: f in other <==> GameFile(m, f))
      ensures gameBytes == Sum(other, gzipSize)
    {
      SumOfSet(files, other, gzipSize);
    }
    return Ok(BudgetReport(GAME_ENTRY in m, gameBytes, mainBytes,
                           gameBytes > GAME_BUDGET_BYTES, mainBytes > MAIN_GUIDELINE_BYTES));
  }
}
