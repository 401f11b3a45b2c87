/** What a reflection's relative links point at. */
module ReflectionAssets {
  import opened Options
  import opened Text

  /** ASCII lower case, which decides a comparison with an ASCII word that holds no `k`. */
  function LowerChar(c: char): char {
    if 'A' <= c <= 'Z' then c + ' ' else c
  }

  function Lower(s: string): string {
    if s == "" then "" else [LowerChar(s[0])] + Lower(s[1..])
  }

  /** What stands before the path's last slash; no folder when it has none. */
  function FolderOf(path: string): string {
    var at := LastIndexOf(path, '/');
    if at < 0 then "" else path[..at]
  }

  function NonEmpty(segments: seq<string>): seq<string> {
    if segments == [] then []
    else (if segments[0] != "" then [segments[0]] else []) + NonEmpty(segments[1..])
  }

  /** The segments of the folder a page is in. */
  function FolderParts(page: string): seq<string> {
    NonEmpty(Split(FolderOf(page), '/'))
  }

  // ----- following a relative link

  /** The folder stack after the segments, `None` when one of them climbs above the root. */
  function Follow(parts: seq<string>, segments: seq<string>): Option<seq<string>>
    decreases |segments|
  {
    if segments == [] then Some(parts)
    else if segments[0] == "" || segments[0] == "." then Follow(parts, segments[1..])
    else if segments[0] == ".." then
      if parts == [] then None else Follow(parts[..|parts| - 1], segments[1..])
    else Follow(parts + [segments[0]], segments[1..])
  }

  function Resolved(page: string, target: string): Option<string> {
    match Follow(FolderParts(page), Split(target, '/'))
    case Some(parts) => Some(Join(parts, '/'))
    case None => None
  }

  method ResolveFrom(page: string, target: string) returns (r: Option<string>)
    ensures r == Resolved(page, target)
  {
    var parts := FolderParts(page);
    var segments := Split(target, '/');
    for i := 0 to |segments|
      invariant Follow(parts, segments[i..]) == Follow(FolderParts(page), segments)
    {
      assert segments[i..][0] == segments[i] && segments[i..][1..] == segments[i + 1..];
      var segment := segments[i];
      if segment == "" || segment == "." { continue; }
      if segment == ".." {
        if parts == [] { return None; }
        parts := parts[..|parts| - 1];
      } else {
        parts := parts + [segment];
      }
    }
    return Some(Join(parts, '/'));
  }

  // ----- writing a relative link

  function Common(a: seq<string>, b: seq<string>): (n: nat)
    ensures n <= |a| && n <= |b| && a[..n] == b[..n]
    ensures n < |a| && n < |b| ==> a[n] != b[n]
  {
    if a == [] || b == [] || a[0] != b[0] then 0 else Common(a[1..], b[1..]) + 1
  }

  function Ups(n: nat): seq<string> {
    if n == 0 then [] else [".."] + Ups(n - 1)
  }

  /** The segments of the relative link from a folder to a target. */
  function RelativeParts(from: seq<string>, to: seq<string>): seq<string> {
    var common := Common(from, to);
    Ups(|from| - common) + to[common..]
  }

  function Relative(page: string, target: string): string {
    Join(RelativeParts(FolderParts(page), Split(target, '/')), '/')
  }

  method RelativeTo(page: string, target: string) returns (r: string)
    ensures r == Relative(page, target)
  {
    hide FolderParts, Split;
    var from, to := FolderParts(page), Split(target, '/');
    var common := 0;
    while common < |from| && common < |to| && from[common] == to[common]
      invariant common <= |from| && common <= |to|
      invariant Common(from, to) == common + Common(from[common..], to[common..])
    {
      assert from[common..][1..] == from[common + 1..] && to[common..][1..] == to[common + 1..];
      common := common + 1;
    }
    r := Join(Ups(|from| - common) + to[common..], '/');
  }

  // ----- climbing

  /** How a run of segments changes the depth. */
  function Depth(segments: seq<string>): int {
    if segments == [] then 0
    else (if segments[0] == "" || segments[0] == "." then 0 else if segments[0] == ".." then -1 else 1) + Depth(segments[1..])
  }

  lemma {:induction false} DepthSplit(segments: seq<string>, j: nat)
    requires 0 < j <= |segments|
    ensures Depth(segments[..j]) == Depth(segments[..1]) + Depth(segments[1..][..j - 1])
  {
    assert segments[..j][1..] == segments[1..][..j - 1];
    assert segments[..1][1..] == [];
  }

  /** Some start of the segments climbs above a folder that lies `depth` deep. */
  predicate Climbs(depth: nat, segments: seq<string>) {
    exists j :: 0 <= j <= |segments| && depth + Depth(segments[..j]) < 0
  }

  lemma {:induction false} FollowClimbs(parts: seq<string>, segments: seq<string>)
    ensures Follow(parts, segments).None? <==> Climbs(|parts|, segments)
    decreases |segments|
  {
    if segments == [] {
      assert segments[..0] == [];
    } else {
      var next :=
        if segments[0] == "" || segments[0] == "." then parts
        else if segments[0] == ".." then (if parts == [] then [] else parts[..|parts| - 1])
        else parts + [segments[0]];
      var rest := segments[1..];
      FollowClimbs(next, rest);
      assert segments[..1] == [segments[0]] && [segments[0]][1..] == [];
      forall j | 0 < j <= |segments|
        ensures Depth(segments[..j]) == Depth([segments[0]]) + Depth(rest[..j - 1])
      {
        DepthSplit(segments, j);
      }
      if segments[0] == ".." && parts == [] {
        assert rest[..0] == [];
        assert |parts| + Depth(segments[..1]) < 0;
      } else if j :| 0 <= j <= |rest| && |next| + Depth(rest[..j]) < 0 {
        assert |parts| + Depth(segments[..j + 1]) < 0;
      }
    }
  }

  /** A link resolves nowhere exactly when some start of it climbs above the root. */
  lemma NullIffClimbs(page: string, target: string)
    ensures Resolved(page, target).None?
        <==> Climbs(|FolderParts(page)|, Split(target, '/'))
  {
    hide FolderParts, Split;
    FollowClimbs(FolderParts(page), Split(target, '/'));
  }

  // ----- links that lead back

  predicate Normal(segment: string) {
    segment != "" && segment != "." && segment != ".."
  }

  predicate AllNormal(segments: seq<string>) {
    forall i | 0 <= i < |segments| :: Normal(segments[i])
  }

  lemma {:induction false} FollowUps(parts: seq<string>, k: nat, rest: seq<string>)
    requires k <= |parts|
    ensures Follow(parts, Ups(k) + rest) == Follow(parts[..|parts| - k], rest)
    decreases k
  {
    if k == 0 {
      assert Ups(0) + rest == rest && parts[..|parts|] == parts;
    } else {
      var up := parts[..|parts| - 1];
      assert (Ups(k) + rest)[0] == ".." && (Ups(k) + rest)[1..] == Ups(k - 1) + rest;
      FollowUps(up, k - 1, rest);
      assert up[..|up| - (k - 1)] == parts[..|parts| - k];
    }
  }

  lemma {:induction false} FollowNormal(parts: seq<string>, segments: seq<string>)
    requires AllNormal(segments)
    ensures Follow(parts, segments) == Some(parts + segments)
    decreases |segments|
  {
    if segments != [] {
      FollowNormal(parts + [segments[0]], segments[1..]);
      assert parts + [segments[0]] + segments[1..] == parts + segments;
    } else {
      assert parts + segments == parts;
    }
  }

  /** What is left is a start of the stack and names from the segments, fewer than all of them if one was no name. */
  lemma {:induction false} FollowParts(parts: seq<string>, segments: seq<string>) returns (k: nat, pushed: seq<string>)
    requires Follow(parts, segments).Some?
    ensures k <= |parts| && Follow(parts, segments).value == parts[..k] + pushed
    ensures forall i | 0 <= i < |pushed| :: pushed[i] in segments && Normal(pushed[i])
    ensures |pushed| <= |segments| && (!AllNormal(segments) ==> k + |pushed| < |parts| + |segments|)
    decreases |segments|
  {
    if segments == [] {
      k, pushed := |parts|, [];
      assert parts[..k] + pushed == parts;
    } else {
      var x, rest := segments[0], segments[1..];
      assert segments == [x] + rest;
      assert AllNormal(segments) <==> Normal(x) && AllNormal(rest);
      if x == "" || x == "." {
        k, pushed := FollowParts(parts, rest);
      } else if x == ".." {
        k, pushed := FollowParts(parts[..|parts| - 1], rest);
        assert parts[..|parts| - 1][..k] == parts[..k];
      } else {
        k, pushed := FollowParts(parts + [x], rest);
        if k > |parts| {
          k, pushed := |parts|, [x] + pushed;
          assert (parts + [x])[..|parts| + 1] + pushed[1..] == parts[..k] + pushed;
        } else {
          assert (parts + [x])[..k] == parts[..k];
        }
      }
    }
  }

  /** No segment holds a slash or is empty. */
  ghost predicate Names(segments: seq<string>) {
    forall i | 0 <= i < |segments| :: segments[i] != "" && '/' !in segments[i]
  }

  lemma {:induction false} NonEmptyNames(segments: seq<string>)
    requires forall s | s in segments :: '/' !in s
    ensures Names(NonEmpty(segments))
  {
    if segments != [] { NonEmptyNames(segments[1..]); }
  }

  lemma FolderNames(page: string)
    ensures Names(FolderParts(page))
  {
    NonEmptyNames(Split(FolderOf(page), '/'));
  }

  lemma SplitNames(names: seq<string>)
    requires Names(names)
    ensures Split(Join(names, '/'), '/') == if names == [] then [""] else names
  {
    if names != [] {
      assert forall s | s in names :: '/' !in s;
      SplitJoin(names, '/');
    }
  }

  lemma {:induction false} UpsNames(n: nat)
    ensures |Ups(n)| == n && Names(Ups(n)) && forall i | 0 <= i < n :: Ups(n)[i] == ".."
  {
    if n > 0 { UpsNames(n - 1); }
  }

  /** The written link splits back into its segments, or into one empty segment. */
  lemma RelativeSplits(from: seq<string>, to: seq<string>)
    requires Names(from) && (forall s | s in to :: '/' !in s)
    ensures var parts := RelativeParts(from, to);
            Split(Join(parts, '/'), '/') == if parts == [] then [""] else parts
  {
    var parts, common := RelativeParts(from, to), Common(from, to);
    UpsNames(|from| - common);
    if parts != [] {
      assert forall s | s in parts :: '/' !in s by {
        assert forall s | s in parts :: s in Ups(|from| - common) || s in to[common..];
      }
      SplitJoin(parts, '/');
    }
  }

  lemma FollowEmpty(parts: seq<string>)
    ensures Follow(parts, [""]) == Some(parts) == Follow(parts, [])
  {
    assert [""][1..] == [];
  }

  /** Following the written link from its folder walks back to the common part and on to the target. */
  lemma FollowRelative(base: seq<string>, from: seq<string>, to: seq<string>)
    requires Names(from) && (forall s | s in to :: '/' !in s)
    ensures var common := Common(from, to);
            Follow(base + from, Split(Join(RelativeParts(from, to), '/'), '/'))
            == Follow(base + to[..common], to[common..])
  {
    hide Split;
    var common := Common(from, to);
    RelativeSplits(from, to);
    FollowEmpty(base + from);
    FollowUps(base + from, |from| - common, to[common..]);
    assert (base + from)[..|base + from| - (|from| - common)] == base + from[..common];
  }

  /**
   * A relative link leads back to the target it was written for exactly when
   * every segment past the common folders is a plain name, or there is no
   * target at all.
   */
  lemma RelativeLeadsBack(page: string, target: string)
    ensures Resolved(page, Relative(page, target)) == Some(target)
        <==> var to := Split(target, '/');
             target == "" || AllNormal(to[Common(FolderParts(page), to)..])
  {
    hide FolderParts, Split, Follow, Join, AllNormal, RelativeParts, Common;
    FolderNames(page);
    PartsLeadBack(FolderParts(page), Split(target, '/'), target);
  }

  predicate LeadsTo(end: Option<seq<string>>, target: string) {
    end.Some? && Join(end.value, '/') == target
  }

  lemma PartsLeadBack(from: seq<string>, to: seq<string>, target: string)
    requires Names(from) && to == Split(target, '/')
    ensures LeadsTo(Follow(from, Split(Join(RelativeParts(from, to), '/'), '/')), target)
        <==> target == "" || AllNormal(to[Common(from, to)..])
  {
    hide Split, Follow, Join, AllNormal, RelativeParts, Common, Names, LeadsTo;
    var common := Common(from, to);
    FollowRelative([], from, to);
    assert [] + from == from && [] + to[..common] == to[..common];
    SharedNames(from, to, common);
    if target == "" { EmptyTarget(from); }
    FromCommon(to, common, target);
  }

  lemma FromCommon(to: seq<string>, common: nat, target: string)
    requires to == Split(target, '/') && common <= |to| && Names(to[..common])
    requires target == "" ==> common == 0
    ensures LeadsTo(Follow(to[..common], to[common..]), target) <==> target == "" || AllNormal(to[common..])
  {
    hide Split, Follow, Join, AllNormal, Names;
    JoinSplit(target, '/');
    assert to[..common] + to[common..] == to;
    if target == "" {
      EmptyTarget([]);
      JoinNone();
      assert to[..0] == [] && to[0..] == to;
    } else if AllNormal(to[common..]) {
      FollowNormal(to[..common], to[common..]);
    } else {
      Strays(to, common);
    }
  }

  lemma SharedNames(from: seq<string>, to: seq<string>, n: nat)
    requires n <= |from| && n <= |to| && from[..n] == to[..n] && Names(from)
    ensures Names(to[..n])
  {
    assert forall i | 0 <= i < n :: to[..n][i] == from[i];
  }

  /** A link with a segment that is no name past the common folders leads elsewhere. */
  lemma Strays(to: seq<string>, common: nat)
    requires common <= |to| && Names(to[..common]) && (forall s | s in to :: '/' !in s)
    requires !AllNormal(to[common..]) && Join(to, '/') != "" && Split(Join(to, '/'), '/') == to
    ensures match Follow(to[..common], to[common..])
            case Some(parts) => Join(parts, '/') != Join(to, '/')
            case None => true
  {
    hide Split, Join, Follow;
    var start, rest := to[..common], to[common..];
    if Follow(start, rest).Some? {
      var k, pushed := FollowParts(start, rest);
      var parts := start[..k] + pushed;
      assert Names(parts) by {
        assert forall i | 0 <= i < |pushed| :: pushed[i] in to;
      }
      SplitNames(parts);
      assert |parts| < |to|;
      JoinNone();
    }
  }

  lemma JoinNone()
    ensures Join([], '/') == ""
  {}

  lemma EmptyTarget(from: seq<string>)
    requires Names(from)
    ensures Split("", '/') == [""] && Names([]) && Common(from, [""]) == 0 && Follow([], [""]) == Some([])
  {
    assert [""][1..] == [];
  }

  // ----- what a link is classified as

  datatype Target = Reflection(path: string) | Engram | Other

  const SCHEME := "crystalline://"

  predicate IsUnderAssets(rel: string) {
    Lower(Split(rel, '/')[0]) == "assets"
  }

  predicate IsLetter(c: char) {
    'a' <= c <= 'z' || 'A' <= c <= 'Z'
  }

  predicate IsSchemeChar(c: char) {
    IsLetter(c) || '0' <= c <= '9' || c == '+' || c == '.' || c == '-'
  }

  /** The link names a scheme, so it is a URL. */
  predicate SchemeLike(s: string) {
    exists k :: 0 < k < |s| && s[k] == ':' && IsLetter(s[0]) && forall i | 0 <= i < k :: IsSchemeChar(s[i])
  }

  function Slashed(s: string): (r: string)
    ensures |r| == |s| && forall i | 0 <= i < |s| :: r[i] == if s[i] == '\\' then '/' else s[i]
  {
    if s == "" then "" else [if s[0] == '\\' then '/' else s[0]] + Slashed(s[1..])
  }

  predicate EndsWith(s: string, end: string) {
    |end| <= |s| && s[|s| - |end|..] == end
  }

  /** An address under the `crystalline:` scheme: an engram attachment, or not ours. */
  function ClassifyAddress(rest: string): Target {
    var slash := IndexOf(rest, '/');
    var domain := if slash < 0 then rest else rest[..slash];
    var tail := if slash < 0 then "" else rest[slash + 1..];
    var glob := tail == "*" || EndsWith(tail, "/*");
    if domain != "" && !glob && "assets/" <= tail then Engram else Other
  }

  /** A path inside the domain, seen from its `reflections` folder. */
  function ClassifyLanded(landed: string): Target {
    if Lower(Split(landed, '/')[0]) == "reflections" then
      var slash := IndexOf(landed, '/');
      var inner := if slash < 0 then "" else landed[slash + 1..];
      if !IsUnderAssets(inner) then Other
      else
        var sep := IndexOf(inner, '/');
        var path := if sep < 0 then "assets" else "assets/" + inner[sep + 1..];
        if |path| > |"assets/"| then Reflection(path) else Other
    else if IsUnderAssets(landed) then Engram else Other
  }

  function Classify(target: string, page: string): Target {
    if SCHEME <= target then ClassifyAddress(target[|SCHEME|..])
    else if target == "" || SchemeLike(target) then Other
    else
      var slashed := Slashed(target);
      if "/" <= slashed then (if IsUnderAssets(slashed[1..]) then Engram else Other)
      else
        match Resolved("reflections/" + page, slashed)
        case Some(landed) => ClassifyLanded(landed)
        case None => Other
  }

  lemma SchemeIsUrl(s: string)
    requires SCHEME <= s
    ensures SchemeLike(s)
  {
    assert s[..14] == SCHEME;
    assert s[11] == SCHEME[11] == ':';
    assert forall i | 0 <= i < 11 :: s[i] == SCHEME[i] && IsSchemeChar(SCHEME[i]);
  }

  /** The folder of a page in `reflections/` is its own folder under `reflections`. */
  lemma PageFolder(page: string)
    ensures FolderParts("reflections/" + page) == ["reflections"] + FolderParts(page)
  {
    hide Split;
    var full := "reflections/" + page;
    assert full == "reflections" + ['/'] + page;
    LastIndexAppend("reflections", page, '/');
    SplitPlain("reflections", '/');
    if LastIndexOf(page, '/') < 0 {
      assert FolderOf(full) == "reflections";
      OneFolder();
    } else {
      var folder := FolderOf(page);
      assert FolderOf(full) == "reflections" + ['/'] + folder;
      SplitAppend("reflections", folder, '/');
      assert (["reflections"] + Split(folder, '/'))[1..] == Split(folder, '/');
    }
  }

  lemma OneFolder()
    ensures NonEmpty(["reflections"]) == ["reflections"] && NonEmpty(Split("", '/')) == []
  {
    assert ["reflections"][1..] == [] && [""][1..] == [];
  }

  /** The segments of an asset path: `assets`, then at least one name. */
  ghost predicate AssetParts(to: seq<string>) {
    |to| >= 2 && to[0] == "assets" && AllNormal(to) && Names(to)
  }

  predicate IsLower(s: string) {
    forall i | 0 <= i < |s| :: !('A' <= s[i] <= 'Z')
  }

  lemma {:induction false} LowerStays(s: string)
    requires IsLower(s)
    ensures Lower(s) == s
  {
    if s != "" { LowerStays(s[1..]); }
  }

  lemma LowerWords()
    ensures Lower("assets") == "assets" && Lower("reflections") == "reflections"
  {
    LowerStays("assets");
    LowerStays("reflections");
  }

  /** Where a link lands inside `reflections/assets/`, its path is the landed one, `assets` in lower case. */
  lemma LandedPath(parts: seq<string>)
    requires |parts| >= 3 && Names(parts) && Lower(parts[0]) == "reflections" && Lower(parts[1]) == "assets"
    ensures ClassifyLanded(Join(parts, '/')) == Reflection("assets/" + Join(parts[2..], '/'))
  {
    hide Lower, Split;
    var inner, rest := Join(parts[1..], '/'), Join(parts[2..], '/');
    var landed := Join(parts, '/');
    assert landed == parts[0] + ['/'] + inner && parts[1..][1..] == parts[2..];
    assert inner == parts[1] + ['/'] + rest;
    SplitNames(parts);
    SplitNames(parts[1..]);
    IndexOfIs(landed, '/', |parts[0]|) by { assert landed[..|parts[0]|] == parts[0]; }
    IndexOfIs(inner, '/', |parts[1]|) by { assert inner[..|parts[1]|] == parts[1]; }
    assert landed[|parts[0]| + 1..] == inner && inner[|parts[1]| + 1..] == rest;
    assert rest != "" by { assert rest == parts[2] || rest[0] == parts[2][0]; }
  }

  lemma SlashedSame(s: string)
    requires '\\' !in s
    ensures Slashed(s) == s
  {}

  lemma RelativeStart(from: seq<string>, to: seq<string>)
    requires Names(from) && Names(to)
    ensures var rel := Join(RelativeParts(from, to), '/');
            rel != "" ==> rel[0] != '/'
  {
    var parts, common := RelativeParts(from, to), Common(from, to);
    UpsNames(|from| - common);
    if parts != [] {
      var rel := Join(parts, '/');
      assert rel[0] == parts[0][0];
    }
  }

  /** An asset's relative link, read as a link and not a URL, is that asset. */
  lemma AssetLinkLands(page: string, to: seq<string>, rel: string)
    requires AssetParts(to) && rel == Join(RelativeParts(FolderParts(page), to), '/')
    requires rel != "" && !SchemeLike(rel) && '\\' !in rel
    ensures Classify(rel, page) == Reflection(Join(to, '/'))
  {
    hide FolderParts, Split, RelativeParts, SchemeLike, Slashed, ClassifyLanded, ClassifyAddress, AssetParts, Join, Follow;
    if SCHEME <= rel { SchemeIsUrl(rel); }
    FolderNames(page);
    SlashedSame(rel);
    AssetPartsAre(to);
    RelativeStart(FolderParts(page), to);
    PageFolder(page);
    AssetFollow(FolderParts(page), to, rel);
    AssetLands(to);
  }

  lemma AssetPartsAre(to: seq<string>)
    requires AssetParts(to)
    ensures Names(to)
  {}

  lemma AssetLands(to: seq<string>)
    requires AssetParts(to)
    ensures ClassifyLanded(Join(["reflections"] + to, '/')) == Reflection(Join(to, '/'))
  {
    hide Lower, ClassifyLanded;
    var parts := ["reflections"] + to;
    AssetNames(to);
    LowerWords();
    LandedPath(parts);
    assert parts[2..] == to[1..];
    assert Join(to, '/') == "assets" + ['/'] + Join(to[1..], '/');
  }

  lemma AssetNames(to: seq<string>)
    requires AssetParts(to)
    ensures Names(["reflections"] + to)
  {}

  lemma AssetFollow(from: seq<string>, to: seq<string>, rel: string)
    requires Names(from) && AssetParts(to) && rel == Join(RelativeParts(from, to), '/')
    ensures Follow(["reflections"] + from, Split(rel, '/')) == Some(["reflections"] + to)
  {
    hide Split, Follow, RelativeParts;
    var common := Common(from, to);
    assert forall s | s in to :: '/' !in s;
    FollowRelative(["reflections"], from, to);
    FollowNormal(["reflections"] + to[..common], to[common..]);
    assert ["reflections"] + to[..common] + to[common..] == ["reflections"] + to;
  }

  lemma {:induction false} SlashedAppend(a: string, b: string)
    ensures Slashed(a + b) == Slashed(a) + Slashed(b)
  {
    if a == "" {
      assert a + b == b;
    } else {
      assert (a + b)[1..] == a[1..] + b;
      SlashedAppend(a[1..], b);
    }
  }

  /** A backslash splits segments further, but never the climb in front of them. */
  lemma {:induction false} SlashedUps(n: nat, rest: seq<string>)
    requires rest != []
    ensures Split(Slashed(Join(Ups(n) + rest, '/')), '/') == Ups(n) + Split(Slashed(Join(rest, '/')), '/')
  {
    if n == 0 {
      assert Ups(0) + rest == rest;
    } else {
      var tail := Ups(n - 1) + rest;
      JoinUp(n, rest);
      hide Ups, Join;
      SlashedUp(Join(tail, '/'));
      SlashedUps(n - 1, rest);
      UpsMore(n);
      var after := Split(Slashed(Join(rest, '/')), '/');
      assert [".."] + (Ups(n - 1) + after) == [".."] + Ups(n - 1) + after;
    }
  }

  lemma JoinUp(n: nat, rest: seq<string>)
    requires n > 0 && rest != []
    ensures Join(Ups(n) + rest, '/') == "../" + Join(Ups(n - 1) + rest, '/')
  {
    UpsMore(n);
    hide Ups;
    var tail := Ups(n - 1) + rest;
    assert Ups(n) + rest == [".."] + tail && ([".."] + tail)[1..] == tail;
    assert tail != [];
  }

  lemma UpsMore(n: nat)
    requires n > 0
    ensures Ups(n) == [".."] + Ups(n - 1)
  {}

  lemma SlashedUp(rest: string)
    ensures Split(Slashed("../" + rest), '/') == [".."] + Split(Slashed(rest), '/')
  {
    hide Slashed, Split;
    SlashedAppend("../", rest);
    SlashedSame("../");
    SplitAppend("..", Slashed(rest), '/');
    assert "../" + Slashed(rest) == ".." + ['/'] + Slashed(rest);
    SplitPlain("..", '/');
  }

  lemma {:induction false} SplitLacks(s: string, sep: char, c: char)
    requires c !in s
    ensures forall p | p in Split(s, sep) :: c !in p
  {
    if s != "" {
      SubtextLacks(s, s[..1], s[1..], c);
      SplitLacks(s[1..], sep, c);
    }
  }

  lemma {:induction false} JoinHas(parts: seq<string>, c: char) returns (j: nat)
    requires c in Join(parts, '/') && c != '/'
    ensures j < |parts| && c in parts[j]
  {
    if |parts| == 1 || c in parts[0] {
      j := 0;
    } else {
      var j' := JoinHas(parts[1..], c);
      j := j' + 1;
    }
  }

  lemma LandedShort(parts: seq<string>)
    requires Names(parts) && |parts| <= 2
    ensures !ClassifyLanded(Join(parts, '/')).Reflection?
  {
    hide Lower, Split, ClassifyLanded;
    if |parts| == 2 {
      LandedTwo(parts[0], parts[1]);
      assert Join(parts, '/') == parts[0] + ['/'] + parts[1];
    } else {
      LandedOne(Join(parts, '/'));
    }
  }

  lemma LandedOne(landed: string)
    requires '/' !in landed
    ensures !ClassifyLanded(landed).Reflection?
  {
    hide Lower, Split;
    LowerEmpty();
    IndexOfNone(landed, '/');
  }

  lemma LandedTwo(folder: string, name: string)
    requires '/' !in folder && '/' !in name
    ensures !ClassifyLanded(folder + ['/'] + name).Reflection?
  {
    hide Lower, Split;
    var landed := folder + ['/'] + name;
    assert landed[..|folder|] == folder && landed[|folder| + 1..] == name;
    IndexOfIs(landed, '/', |folder|);
    IndexOfNone(name, '/');
  }

  lemma LandedFolders(parts: seq<string>)
    requires Names(parts) && |parts| >= 3 && ClassifyLanded(Join(parts, '/')).Reflection?
    ensures Lower(parts[0]) == "reflections" && Lower(parts[1]) == "assets"
  {
    hide Lower, Split;
    var landed, inner := Join(parts, '/'), Join(parts[1..], '/');
    assert landed == parts[0] + ['/'] + inner;
    SplitNames(parts);
    SplitNames(parts[1..]);
    IndexOfIs(landed, '/', |parts[0]|) by { assert landed[..|parts[0]|] == parts[0]; }
    assert landed[|parts[0]| + 1..] == inner;
  }

  /** A landing inside `reflections/assets/` names the asset of its own segments. */
  lemma LandedOnly(parts: seq<string>, path: string)
    requires Names(parts) && ClassifyLanded(Join(parts, '/')) == Reflection(path)
    ensures |parts| >= 3 && path == "assets/" + Join(parts[2..], '/')
  {
    hide Lower, Split, ClassifyLanded;
    if |parts| <= 2 {
      LandedShort(parts);
    } else {
      LandedFolders(parts);
      LandedPath(parts);
    }
  }

  lemma LowerEmpty()
    ensures Lower("") == ""
  {}

  /** A link with a backslash never names the asset it was written for. */
  lemma BackslashLeadsAstray(from: seq<string>, to: seq<string>, rel: string)
    requires Names(from) && AssetParts(to) && rel == Join(RelativeParts(from, to), '/') && '\\' in rel
    ensures match Follow(["reflections"] + from, Split(Slashed(rel), '/'))
            case Some(parts) => ClassifyLanded(Join(parts, '/')) != Reflection(Join(to, '/'))
            case None => true
  {
    hide Split, Follow, ClassifyLanded, Common, Slashed, Join;
    var common := Common(from, to);
    var ups, rest := |from| - common, to[common..];
    UpsNames(ups);
    var at := JoinHas(Ups(ups) + rest, '\\');
    assert at >= ups by { assert forall i | 0 <= i < ups :: (Ups(ups) + rest)[i] == ".."; }
    var j := at - ups + common;
    assert to[j] == rest[at - ups];
    SlashedUps(ups, rest);
    var base, more := ["reflections"] + from, Split(Slashed(Join(rest, '/')), '/');
    FollowUps(base, ups, more);
    var start := base[..|base| - ups];
    if Follow(start, more).Some? {
      var k, pushed := FollowParts(start, more);
      SplitLacks(Slashed(Join(rest, '/')), '/', '\\');
      AstrayParts(to, start, k, pushed, more, j);
    }
  }

  lemma AstrayParts(to: seq<string>, start: seq<string>, k: nat, pushed: seq<string>, more: seq<string>, j: nat)
    requires AssetParts(to) && Names(start) && k <= |start| <= j + 1 && j < |to| && '\\' in to[j]
    requires forall i | 0 <= i < |pushed| :: pushed[i] in more && Normal(pushed[i])
    requires forall p | p in more :: '/' !in p && '\\' !in p
    ensures ClassifyLanded(Join(start[..k] + pushed, '/')) != Reflection(Join(to, '/'))
  {
    hide Split, ClassifyLanded, AssetParts, Join, Names;
    var parts := start[..k] + pushed;
    PushedNames(start, k, pushed, more);
    AstrayTail(to, start, k, pushed, more, j);
    if ClassifyLanded(Join(parts, '/')) == Reflection(Join(to, '/')) {
      LandedOnly(parts, Join(to, '/'));
      SameTail(parts, to);
    }
  }

  lemma PushedNames(start: seq<string>, k: nat, pushed: seq<string>, more: seq<string>)
    requires k <= |start| && Names(start)
    requires forall i | 0 <= i < |pushed| :: pushed[i] in more && Normal(pushed[i])
    requires forall p | p in more :: '/' !in p && '\\' !in p
    ensures Names(start[..k] + pushed)
  {}

  lemma AstrayTail(to: seq<string>, start: seq<string>, k: nat, pushed: seq<string>, more: seq<string>, j: nat)
    requires AssetParts(to) && k <= |start| <= j + 1 && j < |to| && '\\' in to[j]
    requires forall i | 0 <= i < |pushed| :: pushed[i] in more
    requires forall p | p in more :: '\\' !in p
    ensures var parts := start[..k] + pushed;
            |parts| < 2 || parts[2..] != to[1..]
  {
    var parts := start[..k] + pushed;
    assert j >= 1;
    if |parts| == |to| + 1 {
      assert parts[j + 1] == pushed[j + 1 - k];
      assert parts[2..][j - 1] == parts[j + 1] && to[1..][j - 1] == to[j];
    }
  }

  lemma SameTail(parts: seq<string>, to: seq<string>)
    requires |parts| >= 3 && Names(parts) && AssetParts(to) && Join(to, '/') == "assets/" + Join(parts[2..], '/')
    ensures parts[2..] == to[1..]
  {
    hide Split;
    assert Join(to, '/') == "assets/" + Join(to[1..], '/');
    assert Join(to, '/')[7..] == Join(to[1..], '/') == Join(parts[2..], '/');
    SplitNames(parts[2..]);
    SplitNames(to[1..]);
  }

  /**
   * The relative link written from a page to an asset is classified as that
   * very asset exactly when it reads as a link at all: not empty, not like
   * the start of a URL, and without a backslash, which a browser reads as a
   * slash.
   */
  lemma AssetLinkIsAsset(page: string, asset: string)
    requires AssetParts(Split(asset, '/'))
    ensures var rel := Relative(page, asset);
            Classify(rel, page) == Reflection(asset) <==> rel != "" && !SchemeLike(rel) && '\\' !in rel
  {
    hide FolderParts, Split, RelativeParts, SchemeLike, Slashed, ClassifyLanded, AssetParts, Join, Follow;
    var rel, to := Relative(page, asset), Split(asset, '/');
    JoinSplit(asset, '/');
    if SCHEME <= rel { SchemeIsUrl(rel); }
    if rel != "" && !SchemeLike(rel) {
      if '\\' in rel {
        FolderNames(page);
        PageFolder(page);
        BackslashLeadsAstray(FolderParts(page), to, rel);
      } else {
        AssetLinkLands(page, to, rel);
      }
    }
  }

  /** So a page outside `assets/` links every asset without a backslash by a link that is that asset. */
  lemma OutsideAssetsLinks(page: string, asset: string)
    requires AssetParts(Split(asset, '/')) && '\\' !in asset
    requires FolderParts(page) == [] || FolderParts(page)[0] != "assets"
    ensures Classify(Relative(page, asset), page) == Reflection(asset)
  {
    hide Classify, Split, FolderParts;
    AssetLinkIsAsset(page, asset);
    JoinSplit(asset, '/');
    OutsideLink(FolderParts(page), Split(asset, '/'), asset);
  }

  lemma OutsideLink(from: seq<string>, to: seq<string>, asset: string)
    requires AssetParts(to) && (from == [] || from[0] != "assets") && asset == Join(to, '/') && '\\' !in asset
    ensures var rel := Join(RelativeParts(from, to), '/');
            rel != "" && !SchemeLike(rel) && '\\' !in rel
  {
    UpsNames(|from|);
    assert to[0..] == to;
    var rel := Join(Ups(|from|) + to, '/');
    if from == [] {
      assert Ups(0) + to == to;
      assert rel == "assets" + ['/'] + Join(to[1..], '/');
      assert rel[..6] == "assets" && !IsSchemeChar(rel[6]);
      assert forall i | 0 <= i < 6 :: rel[i] == "assets"[i];
    } else {
      assert rel[0] == '.' by { assert rel[0] == (Ups(|from|) + to)[0][0]; }
      UpsLack(|from|, to);
    }
  }

  lemma {:induction false} UpsLack(n: nat, to: seq<string>)
    requires to != [] && '\\' !in Join(to, '/')
    ensures '\\' !in Join(Ups(n) + to, '/')
  {
    if n == 0 {
      assert Ups(0) + to == to;
    } else {
      var tail := Ups(n - 1) + to;
      assert Ups(n) + to == [".."] + tail && ([".."] + tail)[1..] == tail;
      assert Join(Ups(n) + to, '/') == ".." + ['/'] + Join(tail, '/');
      UpsLack(n - 1, to);
    }
  }

  // ----- which links are what, said of their text

  /** The path's first segment is this folder, in any letter case, and there may be more behind it. */
  ghost predicate StartsIn(path: string, folder: string, more: Option<string>) {
    exists name :: '/' !in name && Lower(name) == folder && path == (if more.Some? then name + "/" + more.value else name)
  }

  ghost predicate UnderAssets(path: string) {
    StartsIn(path, "assets", None) || exists more :: StartsIn(path, "assets", Some(more))
  }

  /** A path falls apart at its first slash. */
  lemma FirstOf(path: string)
    ensures var slash := IndexOf(path, '/');
            Split(path, '/')[0] == if slash < 0 then path else path[..slash]
  {
    var slash := IndexOf(path, '/');
    if slash < 0 {
      SplitPlain(path, '/');
    } else {
      assert path == path[..slash] + ['/'] + path[slash + 1..];
      SplitAppend(path[..slash], path[slash + 1..], '/');
      SplitPlain(path[..slash], '/');
    }
  }

  lemma StartsInIs(path: string, folder: string, more: Option<string>)
    ensures var slash := IndexOf(path, '/');
            StartsIn(path, folder, more)
            <==> Lower(Split(path, '/')[0]) == folder && more == if slash < 0 then None else Some(path[slash + 1..])
  {
    hide Lower, Split;
    FirstOf(path);
    var slash := IndexOf(path, '/');
    if slash >= 0 { assert path == path[..slash] + "/" + path[slash + 1..]; }
    forall name | '/' !in name && path == (if more.Some? then name + "/" + more.value else name)
      ensures Split(path, '/')[0] == name && more == if slash < 0 then None else Some(path[slash + 1..])
    {
      if more.Some? {
        assert path[..|name|] == name && path[|name| + 1..] == more.value;
        IndexOfIs(path, '/', |name|);
      } else {
        IndexOfNone(path, '/');
      }
    }
  }

  lemma UnderAssetsIs(path: string)
    ensures IsUnderAssets(path) <==> UnderAssets(path)
  {
    hide Lower, Split, StartsIn;
    StartsInIs(path, "assets", None);
    forall more
      ensures StartsIn(path, "assets", Some(more))
         <==> Lower(Split(path, '/')[0]) == "assets" && Some(more) == if IndexOf(path, '/') < 0 then None else Some(path[IndexOf(path, '/') + 1..])
    {
      StartsInIs(path, "assets", Some(more));
    }
  }

  /** Of what a link lands on, a file under the `assets` folder of the reflections is theirs, and one under the domain's `assets` folder is an engram's. */
  lemma LandedIs(landed: string, path: string)
    ensures ClassifyLanded(landed).Engram? <==> UnderAssets(landed)
    ensures ClassifyLanded(landed) == Reflection(path)
       <==> exists inner, rest ::
              && StartsIn(landed, "reflections", Some(inner)) && StartsIn(inner, "assets", Some(rest))
              && rest != "" && path == "assets/" + rest
  {
    hide Lower, Split, StartsIn, UnderAssets, IsUnderAssets;
    UnderAssetsIs(landed);
    UnderIs(landed);
    UnderIs("");
    assert Lower("") != "assets" && Split("", '/')[0] == "" by { FirstOf(""); EmptyLower(); }
    forall inner
      ensures StartsIn(landed, "reflections", Some(inner))
         <==> Lower(Split(landed, '/')[0]) == "reflections" && Some(inner) == if IndexOf(landed, '/') < 0 then None else Some(landed[IndexOf(landed, '/') + 1..])
    {
      StartsInIs(landed, "reflections", Some(inner));
    }
    forall inner, rest
      ensures StartsIn(inner, "assets", Some(rest))
         <==> Lower(Split(inner, '/')[0]) == "assets" && Some(rest) == if IndexOf(inner, '/') < 0 then None else Some(inner[IndexOf(inner, '/') + 1..])
    {
      StartsInIs(inner, "assets", Some(rest));
    }
    forall inner
      ensures IsUnderAssets(inner) <==> Lower(Split(inner, '/')[0]) == "assets"
    {
      UnderIs(inner);
    }
  }

  lemma EmptyLower()
    ensures Lower("") == ""
  {}

  lemma UnderIs(rel: string)
    ensures IsUnderAssets(rel) <==> Lower(Split(rel, '/')[0]) == "assets"
  {
    hide Lower, Split;
  }

  /** A domain, the `assets` folder and more, and no wildcard at the end. */
  ghost predicate Attachment(address: string, domain: string, tail: string) {
    address == domain + "/assets/" + tail && domain != "" && '/' !in domain && tail != "*" && !EndsWith(tail, "/*")
  }

  ghost predicate AttachmentAddress(target: string) {
    exists address, domain, tail :: target == SCHEME + address && Attachment(address, domain, tail)
  }

  lemma Rejoined(domain: string, tail: string)
    ensures domain + "/" + ("assets/" + tail) == domain + "/assets/" + tail
  {
    assert "/" + ("assets/" + tail) == "/assets/" + tail;
  }

  lemma AddressFalls(rest: string, slash: nat)
    requires slash < |rest| && rest[slash] == '/'
    ensures rest == rest[..slash] + "/" + rest[slash + 1..]
  {}

  lemma TailOf(after: string)
    requires "assets/" <= after
    ensures after == "assets/" + after[|"assets/"|..]
  {}

  lemma AddressParts(rest: string)
    requires ClassifyAddress(rest).Engram?
    ensures exists domain, tail :: Attachment(rest, domain, tail)
  {
    hide EndsWith, IndexOf;
    var slash := IndexOf(rest, '/');
    var domain, after := rest[..slash], rest[slash + 1..];
    AddressFalls(rest, slash);
    var tail := after[|"assets/"|..];
    TailOf(after);
    Rejoined(domain, tail);
    GlobTail(tail);
    hide ClassifyAddress;
    assert Attachment(rest, domain, tail);
  }

  lemma AddressWith(rest: string, domain: string, tail: string)
    requires Attachment(rest, domain, tail)
    ensures ClassifyAddress(rest).Engram?
  {
    hide EndsWith;
    assert rest[..|domain|] == domain && rest[|domain|] == '/';
    IndexOfIs(rest, '/', |domain|);
    assert rest[|domain| + 1..] == "assets/" + tail;
    GlobTail(tail);
  }

  lemma AddressIs(rest: string)
    ensures ClassifyAddress(rest).Engram? <==> exists domain, tail :: Attachment(rest, domain, tail)
  {
    hide ClassifyAddress, Attachment;
    if ClassifyAddress(rest).Engram? { AddressParts(rest); }
    if domain, tail :| Attachment(rest, domain, tail) { AddressWith(rest, domain, tail); }
  }

  lemma GlobTail(tail: string)
    ensures "assets/" + tail != "*"
    ensures EndsWith("assets/" + tail, "/*") <==> tail == "*" || EndsWith(tail, "/*")
  {
    var s := "assets/" + tail;
    assert s[0] == 'a' && s[6] == '/';
    if |tail| >= 2 {
      assert s[|s| - 2..] == tail[|tail| - 2..];
    } else if |tail| == 1 {
      assert s[|s| - 2..] == "/" + tail;
      assert tail == [tail[0]];
      assert "/" + tail == "/*" <==> tail == "*" by { assert ("/" + tail)[1] == tail[0]; }
    } else {
      assert s == "assets/" && s[|s| - 2..] == "s/";
    }
  }

  /** A link that is no URL, with its backslashes read as slashes. */
  predicate IsFileLink(target: string) {
    target != "" && !(SCHEME <= target) && !SchemeLike(target)
  }

  /** A link is an engram's attachment exactly when it is an attachment's address, or a file link that leads under the domain's `assets` folder, from the root or from the page's own folder. */
  lemma EngramIs(target: string, page: string)
    ensures Classify(target, page).Engram?
       <==> || AttachmentAddress(target)
            || (IsFileLink(target) && exists rel :: Slashed(target) == "/" + rel && UnderAssets(rel))
            || (IsFileLink(target) && Slashed(target)[0] != '/'
                && exists landed :: Resolved("reflections/" + page, Slashed(target)) == Some(landed) && UnderAssets(landed))
  {
    hide SchemeLike, Slashed, ClassifyLanded, ClassifyAddress, UnderAssets, IsUnderAssets, Resolved, Attachment;
    if SCHEME <= target {
      var rest := target[|SCHEME|..];
      assert target == SCHEME + rest;
      AddressIs(rest);
      forall address
        ensures target == SCHEME + address ==> address == rest
      {
        assert (SCHEME + address)[|SCHEME|..] == address;
      }
    } else {
      NoAddress(target);
      if IsFileLink(target) {
        var slashed := Slashed(target);
        if "/" <= slashed {
          assert slashed == "/" + slashed[1..];
          UnderAssetsIs(slashed[1..]);
          forall rel
            ensures slashed == "/" + rel <==> rel == slashed[1..]
          {}
        } else {
          assert slashed[0] != '/' by { assert slashed == [slashed[0]] + slashed[1..]; }
          var r := Resolved("reflections/" + page, slashed);
          if r.Some? { LandedIs(r.value, ""); }
        }
      }
    }
  }

  lemma NoAddress(target: string)
    requires !(SCHEME <= target)
    ensures !AttachmentAddress(target)
  {
    forall address
      ensures target != SCHEME + address
    {
      assert SCHEME <= SCHEME + address;
    }
  }
}
