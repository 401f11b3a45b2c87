# Crystalline, modelled and proved

Crystalline keeps a knowledge base as markdown files. This project models the algorithms behind its browser pages and
its command line that carry real invariants, and proves them for all inputs and all runs:

- **Wikilinks, WikilinkResolver, WikilinkReadings**: the bracket grammar `domain:target#heading|alias`, its printer, and the tables one
  engram page resolves its links with.
- **JsonEdit, HarnessCommand, HookDialect, HookUninstall, HookInstall**: planning edits to another program's JSON hook
  file, so that an uninstall is a filter and an install can be repeated and undone.
- **ReflectionText, SectionStarts, PageOffset, QuoteWalk, SourcePieces, SourceRows**: coordinates between a page, its
  sections and its rendered text, and the numbering of quotes.
- **Markup, CodeRuns, EmphasisPairs, LinkPairs, DisplayQuote**: which delimiters belong together, and quotes shown
  without half of a pair.
- **BundleBudget, Anchors, DomainNames, Snippet, ReflectionAssets, ManifestProse**: fast tables, worklists and cutting
  loops against what they are for.
- **DesktopState, DesktopVerdicts, NamesAgree, GithubSettings, VirtualImport, DesktopMerge, MergeReport, MergeRun**: the
  merge of a second state into this machine's, wherever it stops, and what a repeat does.
- **StopHook, StopRuns, AskRuns**: the hooks of any number of sessions, interleaved at every file access: one nudge a
  session, and asks a day apart.
- **Credentials, CredentialRuns, SignInRuns, DisconnectRuns**: any number of sign-ins and disconnects, interleaved call
  by call, while accounts are removed, swept and made again.

`Options` and `Text` hold what the others share. `dafny verify dfyconfig.toml` checks everything.

Where the original loops over variables or updates an object, the model is a `method` with a loop or a `class`, proved
equal to a specification function, and the properties are lemmas about that function. Where the code does not do what
its own comments promise, the model follows the code, and a lemma says exactly when the promise holds:

- `innerOf` says a printed target asks the resolver the same question. It does not when a fallback reading is tried and
  a blank stands beside the colon (`PrintedReadings`, `LooseColonExample`).
- `occurrenceAt` never returns on an empty quote with a start past the beginning (`NumberingEnds`).
- A second install of a command that install would not write itself plans another edit when the file holds several
  hooks in such spellings (`SecondInstall`).
- An install undone by an uninstall loses containers that were there and empty (`InstallThenUninstall`).
- Search marks leave the second of two overlapping matches of one term half unmarked (`MarksMissOnlyOverlaps`).
- Repeating the merge on its own result can register a name the first run refused: a newly merged domain may list the
  alias the name was refused for, and an alias listed twice means nothing (`RepeatCanRegister`). A repeat registers
  nothing exactly when every refused name is refused still (`RepeatRegistersNothing`).
- A session can be nudged twice with every write landing: a reset, a prompt or a Stop that read the file before the
  mark writes its whole state back over it (`ResetUndoesMark`, `FirstUnmark`, `NudgedOnce`).
- Two sessions can both ask within a day: both load the record before either stamps it (`BothAsk`, `AsksOverlap`).
- The sweep that follows a removal can take the token of the account made since (`LateSweepTakesTheNewToken`), and until
  it has found the name clear a former account's token can be stored (`FormerToken`).
- A disconnect strands a link that a sign-in makes while it runs (`DisconnectStrands`).
- A refused sign-in leaves its token when taking it back fails (`RefusedLeavesToken`), and a second asking that fails
  for another reason leaves a live link without its token (`LinkWithoutToken`).
- The body's first line is meant to be the one behind the frontmatter. A closing fence on the page's last line is the
  body instead (`BodyAfterFence`, `FenceIsBody`).

## Model

| member | source | states |
|---|---|---|
| Wikilinks.ParsePrintStable | fluid/src/wikilinks.ts:107-194 | for every bracket text, printing its parse and parsing that again gives the same domain, target, fragment, whole and alias |
| Wikilinks.PrintedReadings | fluid/src/wikilinks.ts:156-268 | the printed form asks the resolver the same question exactly when no fallback reading is tried or no blank stands beside the first colon of the title |
| Wikilinks.LooseColonExample | fluid/src/wikilinks.ts:178-194 | `a: b` is a bracket text whose printed form has lost the title its fallback looks for |
| Wikilinks.TightTitle | fluid/src/wikilinks.ts:138-150 | a trimmed title with a prefix is spelled `prefix:rest` exactly when no blank stands beside its first colon |
| WikilinkResolver.KeysApart | fluid/src/wikilinks.ts:220-231 | two lookup keys are equal exactly when the domains and the folded texts are, for domains without a space |
| WikilinkResolver.ReadIndex | fluid/src/wikilinks.ts:292-300 | the index table has exactly the keys some reference has, and says resolved exactly when some reference with the key was |
| WikilinkResolver.Locate | fluid/src/wikilinks.ts:302-344 | the place table gives each key the first neighbour that answers to it by title or permalink, else the address of the first reference that carries one |
| WikilinkResolver.FirstAnswers | fluid/src/wikilinks.ts:302-327 | the neighbour placed under a key is the first one that answers to it, and there is none exactly when nobody does |
| WikilinkResolver.Resolver.constructor | fluid/src/wikilinks.ts:278-344 | after building, both tables say of every key what the references and the neighbours say |
| WikilinkResolver.Resolver.Resolve | fluid/src/wikilinks.ts:346-398 | the answer is the verdict of the first reading the index knows, and for a resolved one the first reading that is placed, with its words |
| WikilinkResolver.VerdictIgnoresOrder | fluid/src/wikilinks.ts:288-300 | a verdict depends only on which references there are, not on their order or repeats |
| WikilinkResolver.OnlyReferencesLink | fluid/src/wikilinks.ts:360-372 | a bracket text has a verdict exactly when one of its readings is a reference of the page |
| WikilinkResolver.PrintedAnswersTheSame | fluid/src/wikilinks.ts:180-194 | a target written back from its parse gets the same answer, except in the family PrintedReadings excludes |
| WikilinkReadings.SplitReadings | fluid/src/wikilinks.ts:235-268 | a text with a heading is asked with its hash kept first, exactly when that names the same domain; then as the target before the heading; then, exactly when the prefix is in no listing, with all before the hash as a title |
| WikilinkReadings.WholeReadings | fluid/src/wikilinks.ts:235-268 | a text without a heading is asked as it reads, and then, exactly when its prefix is in no listing, whole as a title |
| WikilinkReadings.EveryText | fluid/src/wikilinks.ts:107-168 | every bracket text falls apart in one of these two ways, with its display text, prefix and heading read off the text |
| WikilinkReadings.WholeTextWins | fluid/src/wikilinks.ts:360-385 | a page that mentions the whole text, hash and all, takes its verdict, whatever the split says |
| WikilinkReadings.SplitDecides | fluid/src/wikilinks.ts:360-372 | otherwise the target before the heading decides, and last the title, when the prefix is in no listing |
| WikilinkReadings.WordsShown | fluid/src/wikilinks.ts:376-398 | the display text wins the words; else they are the title of the page reached, or the target when it has none, with the heading behind |
| WikilinkReadings.AskedAlike | fluid/src/wikilinks.ts:213-231 | questions are looked up alike exactly when they name one domain, under any of its spellings, and fold to one text |
| HarnessCommand.SplitPrint | crates/cli/src/harness_command.rs:21-43 | a program and its rest are read back from the command line exactly when the program is not empty and is spelled as its quoting needs |
| HarnessCommand.OwnSpellingIsOurs | crates/cli/src/harness_command.rs:46-96 | only commands that count as ours are ever rewritten |
| HarnessCommand.SessionCommandIsOwn | crates/cli/src/hook_dialect.rs:37-51 | the command a profile install writes is one it may rewrite later, and ours |
| HarnessCommand.SplitIs | crates/cli/src/harness_command.rs:21-34 | a command splits exactly into a bare or quoted program its text begins with and what follows |
| HarnessCommand.OursIs | crates/cli/src/harness_command.rs:43-51 | a command is ours exactly when its text runs `crystalline`, by name or by a path from the root that ends in it, with ` prompt system` and then nothing or a blank |
| HarnessCommand.OwnSpellingIs | crates/cli/src/harness_command.rs:53-79 | a command may be rewritten exactly when it runs our program with the session words and one of the tails an install writes |
| JsonEdit.TakeInside | crates/core/src/jsonc_edit.rs:585-618 | a removal inside a container that stays non-empty changes that container alone |
| JsonEdit.TakeLast | crates/core/src/jsonc_edit.rs:585-618 | removing the last thing of a container with pruning takes the container too |
| HookDialect.FindItems | crates/cli/src/hook_dialect.rs:292-312 | the walk to the container: its elements, none when something on the way is missing, and a refusal on foreign data |
| HookDialect.FindOwnHooks | crates/cli/src/hook_dialect.rs:292-370 | the hooks found are those of the document, in order, with the paths of command and removal |
| HookDialect.ScanItem | crates/cli/src/hook_dialect.rs:312-370 | one container element yields its own hooks, a group that is all ours being removed whole |
| HookUninstall.RemovalPaths | crates/cli/src/hook_dialect.rs:122-138 | deduplicating the planned removals names every element, or every hook of a mixed group, once and in document order |
| HookUninstall.UninstallIsFilter | crates/cli/src/hook_dialect.rs:122-138 | applying the planned removals in order succeeds, every path still means what it meant when planned, and the result is the document with our hooks filtered out and all else in order |
| HookUninstall.UninstallLeavesNone | crates/cli/src/hook_dialect.rs:122-144 | after an uninstall no hook of ours is found and a second one plans nothing |
| HookUninstall.ItemGoes | crates/cli/src/hook_dialect.rs:312-370 | an uninstall takes exactly the groups whose hooks all run our session line, the entries that do, and in the owned file also the entry of our name |
| HookUninstall.HookStays | crates/cli/src/hook_dialect.rs:312-345 | in a group that stays, each hook stays in its place unless it runs our session line |
| HookInstall.InstallApplies | crates/cli/src/hook_dialect.rs:88-115 | the planned install always applies |
| HookInstall.Pushed | crates/cli/src/hook_dialect.rs:88-115 | on a file without our hook, the install appends exactly one entry at the end of the container, creating what is missing, and it is found as our only hook |
| HookInstall.Rewritten | crates/cli/src/hook_dialect.rs:88-115 | rewriting an older spelling changes the command of that hook and nothing else that is found |
| HookInstall.SecondInstall | crates/cli/src/hook_dialect.rs:88-115 | a second install of the same command plans nothing exactly when the command is one install writes or the file holds at most one hook in such a spelling |
| HookInstall.SessionInstallIsIdempotent | crates/cli/src/hook_dialect.rs:37-115 | installing the session command of a profile harness twice plans nothing the second time |
| HookInstall.InstallThenUninstall | crates/cli/src/hook_dialect.rs:88-138 | on a file without our hook, install then uninstall gives the file back exactly when no empty container stood on the path (for the owned file: when it has its list) |
| HookInstall.StoredAfterInstall | crates/cli/src/hook_dialect.rs:147-158 | after an install the stored program is the installed one exactly when there was no hook of ours before or one in a spelling install wrote |
| ReflectionText.FindStarts | fluid/src/reflectionText.ts:86-102 | each section starts at its own line when that is a heading not cut yet, else at the next line that reads like it below the cut before |
| ReflectionText.CutPage | fluid/src/reflectionText.ts:76-139 | the page is cut into the top and one section for each start found, each with its text and the page line of each of its lines |
| ReflectionText.CutOne | fluid/src/reflectionText.ts:117-139 | one section is its lines up to the next start, the id line under its heading spliced out of text and map alike |
| ReflectionText.StartsIncrease | fluid/src/reflectionText.ts:89-103 | the starts that are found are level-two headings in strictly increasing order |
| ReflectionText.BodyLinesCovered | fluid/src/reflectionText.ts:76-139 | every body line is in exactly one line map, in page order, except an id line directly under a heading, which is in none |
| SectionStarts.LevelTwoIs | fluid/src/reflectionText.ts:173-197 | a line is a heading of the second level exactly when it is up to three spaces, two hashes, and nothing or a blank and more |
| SectionStarts.HeadingTextIs | fluid/src/reflectionText.ts:179-193 | its text is what follows, trimmed, without a closing run of hashes that a blank sets off |
| SectionStarts.IdLineIs | fluid/src/reflectionText.ts:23-29 | an id line holds the comment with 4 to 16 hex digits and at most blanks around it |
| SectionStarts.StartIs | fluid/src/reflectionText.ts:91-102 | a section starts at its own line exactly when that is a heading at or past the cursor, else at the first line from there on with its text, and nowhere exactly when there is none |
| SectionStarts.StartsAre | fluid/src/reflectionText.ts:86-103 | the starts of a page are the one list in which every section starts so, each searched for behind the one before |
| SectionStarts.SectionHasCut | fluid/src/reflectionText.ts:117-139 | every section that starts somewhere has its cut, in order: its own heading and the lines up to the next start, but an id line under the heading |
| SectionStarts.RightLinesCut | fluid/src/reflectionText.ts:76-139 | when the lines given are increasing headings of the body, each section is cut at its own line, and nothing else is cut |
| ReflectionText.BodyAfterFence | fluid/src/reflectionText.ts:81-84 | the body starts on the line behind the closing fence exactly when the page has one; a fence on the last line is itself the body |
| ReflectionText.BodyFromTop | fluid/src/reflectionText.ts:81-84 | the body starts on the first line exactly when no frontmatter block opens the page |
| ReflectionText.FenceIsBody | fluid/src/reflectionText.ts:81-84 | a page that ends with its fence has the fence for its body |
| PageOffset.FindOffset | fluid/src/reflectionText.ts:147-171 | the loop finds the place an offset has by its line and column in the section: that column of the page line |
| PageOffset.OffsetSamePlace | fluid/src/reflectionText.ts:134-171 | a place that is given holds the same character as the section text, or the line break, CR included, where the text has a newline |
| PageOffset.OffsetNowhere | fluid/src/reflectionText.ts:147-171 | an offset inside a section has no place exactly when the section has no lines or the offset lies past a CR that ends the page |
| PageOffset.OffsetsIncrease | fluid/src/reflectionText.ts:147-171 | places of one section are strictly increasing in the offset |
| QuoteWalk.OccurrenceAt | fluid/src/reflectionText.ts:208-223 | the numbering loop ends and gives how many walked matches start up to the given one, at least 1 |
| QuoteWalk.LocateQuote | fluid/src/reflectionText.ts:229-249 | the finding loop ends on every input with the range of the numbered walked match, if there is one |
| QuoteWalk.WalkCovers | fluid/src/reflectionText.ts:208-249 | no true match is missed: the walk meets it or the one match that overlaps it from the left |
| QuoteWalk.NumberOfLocated | fluid/src/reflectionText.ts:208-249 | for a non-empty quote, the number given to the n-th located match is n |
| QuoteWalk.LocatedOfNumber | fluid/src/reflectionText.ts:208-249 | locating the number of a true match start gives that start, or the unique walked match that overlaps it from the left |
| QuoteWalk.NumberingEnds | fluid/src/reflectionText.ts:208-223 | the numbering loop returns exactly when the quote is not empty or the start is not past the beginning |
| QuoteWalk.LocatedEdges | fluid/src/reflectionText.ts:229-249 | the empty quote is the whole text, a number below one is the first match, and nothing is found exactly past the last match |
| BundleBudget.MainKeys | fluid/scripts/bundleBudget.ts:109-126 | the worklist ends on every manifest, cyclic ones too, with exactly the keys reachable from the main entry over imports |
| BundleBudget.ReachableIsLeast | fluid/scripts/bundleBudget.ts:109-178 | what is reachable lies in every closed set that holds the entry |
| BundleBudget.GameFiles | fluid/scripts/bundleBudget.ts:136-178 | the list has no repeats and holds exactly the script and style files of the keys reachable from the game entry, over both kinds of edges, by paths that avoid every main key |
| BundleBudget.SumOfSet | fluid/scripts/bundleBudget.ts:312-335 | the bytes of a list without repeats depend only on which files it holds |
| BundleBudget.Measure | fluid/scripts/bundleBudget.ts:312-335 | the report fails exactly without a main entry, and its bytes and verdicts are those of the files reached |
| Anchors.DecimalInjective | fluid/src/anchors.ts:48-63 | two numbers with the same decimal digits are the same |
| Anchors.DecimalReads | fluid/src/anchors.ts:48-63 | the digits of a number are digits and read back as it |
| Anchors.TakenNames | fluid/src/anchors.ts:48-63 | only as many numbered names can be taken as there are taken names, so the counting loop ends |
| Anchors.CountOn | fluid/src/anchors.ts:48-63 | counting on from the count a base was left at reaches the first free name of base, base-1, base-2 |
| Anchors.SlugAssigner.Assign | fluid/src/anchors.ts:48-63 | each call gives the id the naive rule gives, whatever came before, and records it |
| Anchors.NaiveDistinct | fluid/src/anchors.ts:48-63 | over any sequence of headings the ids are pairwise distinct |
| Anchors.NaiveUnique | fluid/src/anchors.ts:48-63 | the ids of a prefix do not depend on the headings after it |
| DomainNames.DomainSpellings | fluid/src/domainNames.ts:42-97 | the table built by the passes holds exactly the meanings of the rule |
| DomainNames.MeaningIs | fluid/src/domainNames.ts:42-97 | with unique local names, a spelling means a domain exactly when it is its local name, or not local and that domain alone claims it, or neither local nor claimed and that domain alone lists it |
| DomainNames.MeaningIsLocal | fluid/src/domainNames.ts:42-97 | a spelling never means anything but a listed domain |
| DomainNames.MeaningIgnoresOrder | fluid/src/domainNames.ts:42-97 | the table is the same for every permutation of the rows |
| Snippet.SearchTerms | fluid/src/snippet.ts:59-69 | the terms are the folded words, without repeats |
| Snippet.WordsPart | fluid/src/snippet.ts:59-69 | a blank parts the words before and behind it and makes none |
| Snippet.WordAlone | fluid/src/snippet.ts:59-69 | a text without a blank is one word |
| Snippet.MatchRanges | fluid/src/snippet.ts:99-128 | the merged ranges are in order with a gap between each two and cover exactly the characters some term match covers |
| Snippet.RunsAreUnique | fluid/src/snippet.ts:99-128 | such ranges are fixed by what they cover: they are the maximal covered runs |
| Snippet.SnippetParts | fluid/src/snippet.ts:71-97 | the parts put together are the snippet, marked and unmarked ones alternate, and a character is marked exactly when it is covered |
| Snippet.MarksIgnoreOrder | fluid/src/snippet.ts:99-128 | the ranges do not depend on the order of the terms or on repeats |
| Snippet.MarksMissOnlyOverlaps | fluid/src/snippet.ts:99-128 | every true match of a term is covered in every text exactly when no two matches of it can overlap |
| ReflectionAssets.ResolveFrom | fluid/src/reflectionAssets.ts:40-57 | the loop drops empty and `.` segments, climbs on `..` and descends on names from the folder of the page, and refuses to climb above the root |
| ReflectionAssets.NullIffClimbs | fluid/src/reflectionAssets.ts:40-57 | a link resolves nowhere exactly when some start of it climbs above the root |
| ReflectionAssets.RelativeTo | fluid/src/reflectionAssets.ts:166-183 | the loop writes one `..` for each folder past the common ones and then the rest of the target |
| ReflectionAssets.RelativeLeadsBack | fluid/src/reflectionAssets.ts:40-183 | a relative link leads back to its target exactly when every segment past the common folders is a plain name, or there is no target |
| ReflectionAssets.AssetLinkIsAsset | fluid/src/reflectionAssets.ts:60-183 | the relative link from a page to an asset is classified as that very asset exactly when it is not empty, does not read as a URL and holds no backslash |
| ReflectionAssets.OutsideAssetsLinks | fluid/src/reflectionAssets.ts:60-183 | a page outside `assets/` links every asset without a backslash by a link that is that asset |
| ReflectionAssets.LandedIs | fluid/src/reflectionAssets.ts:91-104 | what a link lands on is an engram attachment exactly under the `assets` folder, and the file of a reflection exactly under `assets` in the reflections folder |
| ReflectionAssets.EngramIs | fluid/src/reflectionAssets.ts:60-104 | a link is an engram attachment exactly when it is an attachment address without a wildcard, or a file link that leads under the `assets` folder |
| SourcePieces.SpanBase | fluid/src/reflectionQuotes.ts:35-60 | a base that is given lies in the span and the source holds the value there |
| SourcePieces.SpanPieces | fluid/src/reflectionQuotes.ts:74-119 | the cutting loop gives one piece for a node that stands in its span whole, else one for each line and break, placed where the source holds it |
| SourcePieces.PiecesAreFaithful | fluid/src/reflectionQuotes.ts:74-119 | the pieces put together are the value; each placed piece is the source slice at its base inside the span, and placed pieces stand one after another |
| SourcePieces.WholeNode | fluid/src/reflectionQuotes.ts:35-119 | a node whose value stands in its span in one piece is one placed piece |
| SourceRows.RowsArePlaced | fluid/src/reflectionQuotes.ts:75-116 | a node the source writes row by row, behind prefixes of blanks and quote marks, is cut into its lines, every one at its place, unless its words stand in one piece |
| Markup.FindCodeSpans | fluid/src/reflectionQuotes.ts:536-559 | the code-span loop pairs each unescaped tick run with the next run of its length |
| Markup.LoneTick | fluid/src/reflectionQuotes.ts:536-559 | an unescaped tick run outside every code span is followed by no run of its length |
| CodeRuns.RunsAre | fluid/src/reflectionQuotes.ts:543-563 | the runs of a text are all its maximal runs of one mark |
| CodeRuns.EscapedIs | fluid/src/reflectionQuotes.ts:514-521 | a character is escaped exactly behind an odd number of backslashes |
| CodeRuns.CodeIs | fluid/src/reflectionQuotes.ts:543-560 | two tick runs make a code span exactly when the first is unescaped and no earlier span has it, and the second is the next run of its length |
| Markup.FindEmphasis | fluid/src/reflectionQuotes.ts:560-590 | each run outside code closes the last open run of the same text, dropping the openers between, where a word precedes it, and opens where a word follows; the stack loop finds exactly these pairs |
| EmphasisPairs.EmphasisIs | fluid/src/reflectionQuotes.ts:562-590 | two runs belong together exactly when the later one can close and the earlier is the last before it with its text that can open and no pair closed by then has used or passed over |
| Markup.FindLinks | fluid/src/reflectionQuotes.ts:592-613 | each unescaped `]` outside code takes the last open `[`, and the two are a link, or an image after `!`, when a destination in parentheses follows; the loop finds exactly these pairs |
| LinkPairs.LinksAre | fluid/src/reflectionQuotes.ts:592-613 | the links are exactly the pairs of a bracket and the one that closes it, all between them being balanced, with a destination right behind |
| LinkPairs.TakesOne | fluid/src/reflectionQuotes.ts:592-605 | a closing bracket closes one opening bracket at most |
| Markup.MarkupPairs | fluid/src/reflectionQuotes.ts:536-615 | the pairs are code spans, then emphasis, then links |
| Markup.MarkupIsLaminar | fluid/src/reflectionQuotes.ts:524-615 | code spans are disjoint, code and emphasis pairs are nested or apart, and the two delimiters of a pair are runs of the same text |
| Markup.LaminarMarksApart | fluid/src/reflectionQuotes.ts:524-590 | two such pairs share no character of a delimiter: each run is used once |
| DisplayQuote.CutsCover | fluid/src/reflectionQuotes.ts:626-641 | a character is cut exactly when it belongs to a delimiter of a pair the quote does not hold whole |
| DisplayQuote.CutOut | fluid/src/reflectionQuotes.ts:642-651 | over cuts that may overlap, the loop leaves exactly the characters outside all of them, in order |
| DisplayQuote.DisplayQuote | fluid/src/reflectionQuotes.ts:626-654 | the shown quote is what is left with its comments taken out, or the quote as it is when that would show nothing |
| DisplayQuote.WholeQuote | fluid/src/reflectionQuotes.ts:619-651 | nothing is cut exactly when no delimiter of a split pair reaches into the quote |
| DisplayQuote.HeldMarkupStays | fluid/src/reflectionQuotes.ts:619-651 | a delimiter of a code or emphasis pair the quote holds whole is cut exactly when a part of a split link covers it |
| ManifestProse.FenceTracker.InFence | fluid/src/manifestProse.ts:122-145 | a line opens a fence, closes the one that is open by its own character, length and blank rest, or leaves it; it is fenced when a fence was open or opens on it |
| ManifestProse.FencedIs | fluid/src/manifestProse.ts:117-145 | a line is fenced exactly when some line up to it opens a fence, outside any other, that nothing between closes |
| ManifestProse.Cut | fluid/src/manifestProse.ts:149-189 | sections start at exactly the level-two headings outside fences, and the eyebrow is the first line with text when that is a level-one heading before any section |
| ManifestProse.SplitIsLossless | fluid/src/manifestProse.ts:149-189 | head, eyebrow line, headings and section lines, in order, are exactly the body lines |
| ManifestProse.KeepConfig | fluid/src/manifestProse.ts:190-199 | the loop keeps exactly the first section of each configuration key |
| ManifestProse.ConfigIsFirst | fluid/src/manifestProse.ts:190-199 | a section is kept exactly when its key is a configuration key and no earlier section has it |
| ManifestProse.ConfigDistinct | fluid/src/manifestProse.ts:190-199 | kept sections have pairwise different keys |
| ManifestProse.ConfigHasKey | fluid/src/manifestProse.ts:190-199 | every configuration key some section has is kept |
| ManifestProse.ProsePlaces | fluid/src/manifestProse.ts:196-210 | the prose holds exactly the sections whose key is not a configuration key, in the order of the document |
| ManifestProse.RailPlaces | fluid/src/manifestProse.ts:186-202 | the rail holds exactly the first section of each configuration key, in the order of the document |
| ManifestProse.Notes | fluid/src/manifestProse.ts:206-245 | the notes are exactly the lines that are no top-level bullet outside a fence and stay with none |
| ManifestProse.FirstParagraph | fluid/src/manifestProse.ts:265-285 | the lead is the first run of lines with text, unless that starts another block, and the rest follows |
| ManifestProse.SplitManifest | fluid/src/manifestProse.ts:149-204 | the page has the eyebrow, lead, intro, prose sections in file order and configuration sections of the body |
| StopHook.FocusDomains | crates/cli/src/hook.rs:800-822 | a maintenance ask names exactly the pending domains this machine can still write to and the sources' pending ones |
| StopHook.AskIsDue | crates/cli/src/hook.rs:384-405 | a nudge asks for maintenance exactly when the last ask is a day old, or there was none, and a domain is pending, here and writable or at a source, or seven days have passed since the last sweep, or since the machine was first seen |
| StopHook.ReflectIsDue | crates/cli/src/hook.rs:845-868 | a nudge asks for reflection exactly when the last ask is a day old, or there was none, and something is open in a domain that counts: of a source, or shown here, and recalled from when the session recalled anything; it names those, with their counts |
| StopHook.PendingAfter | crates/engine/src/maintenance.rs:530-560 | a record leaves a domain pending exactly when it was, or is recorded so, and no sweep covered it |
| StopHook.StateDir.RunStop | crates/cli/src/hook.rs:685-884 | with any disk found at each file access, one Stop leaves what its process leaves access by access, and says exactly what the process says: the file read first, the mark written, the record loaded, then read again and written for each stamp |
| StopHook.StateDir.ResetRecalled | crates/cli/src/hook.rs:1041-1051 | a reset reads the session file and, whatever happened since, writes back the whole state it read with the recalled list emptied; a missing file or an empty list writes nothing |
| StopHook.StopAlone | crates/cli/src/hook.rs:685-884 | left alone, a Stop says and leaves its closed form: the state counted and marked, each stamp on its own field |
| StopHook.SaysWhatItLoaded | crates/cli/src/hook.rs:792-884 | what a call says is settled when it loads the record, whatever its stamps find later |
| StopHook.NudgesAgain | crates/cli/src/hook.rs:753-763 | the same call right after a nudge nudges again exactly when the mark was not written |
| StopHook.LostStampAsksAgain | crates/cli/src/hook.rs:816-822 | another session in the same state asks again at the same instant exactly when the stamp was lost |
| StopRuns.ReadAtStart | crates/cli/src/hook.rs:736-763 | in any interleaving, what a hook or recorder writes back was read when it started |
| StopRuns.DecidedAtStart | crates/cli/src/hook.rs:317-353 | in any interleaving, a Stop has spoken exactly when the session file as it was when the call started earns a nudge |
| StopRuns.MarkIsLast | crates/cli/src/hook.rs:753-763 | after a mark is written, the session is unmarked exactly when an event took the mark away since and none wrote it after that |
| StopRuns.FirstUnmark | crates/cli/src/hook.rs:1041-1051 | the first event to take a written mark away is the loss of the file, or a hook, reset included, that writes back a state read before the mark |
| StopRuns.NudgedOnce | crates/cli/src/hook.rs:736-763 | in any interleaving of file accesses, two nudges in one session mean that the later call had read the file before the first mark was written, or that mark did not land, was lost, or was undone by a write-back of a state read before it |
| StopRuns.NudgesAgainWhen | crates/cli/src/hook.rs:736-763 | after a mark, a counted Stop with open gates and a substantial transcript nudges again exactly when the mark was taken away before it read and not written again |
| StopRuns.ResetUndoesMark | crates/cli/src/hook.rs:1041-1051 | a run in which a reset that read before a nudge and wrote after it makes the next Stop nudge again, with every write landing |
| StopRuns.FileSays | crates/cli/src/hook.rs:1008-1020 | while no write of the session straddles another and its Stops' writes land, its file holds the number of counted Stops, capped at 32 bits, and whether one nudged |
| StopRuns.NudgesWhen | crates/cli/src/hook.rs:317-353 | then a counted Stop nudges exactly when the gates are open, no earlier one did, and the transcript is substantial, or unreadable with two counted Stops before |
| StopRuns.ThirdStop | crates/cli/src/hook.rs:317-353 | then, with open gates and no transcript, the nudge comes at exactly the third counted Stop |
| AskRuns.RecordRead | crates/engine/src/maintenance.rs:510-600 | a recorder or stamp writes back the record as the same process read it before, whatever was written in between |
| AskRuns.StampMoves | crates/engine/src/maintenance.rs:510-600 | an event changes when an ask was last stamped only by stamping it, by writing back a record read earlier, or by losing the record |
| AskRuns.CloseAsks | crates/cli/src/hook.rs:384-405 | across all sessions, two maintenance asks, or two reflect asks, less than 24 hours apart mean that the later call loaded the record before the earlier one's stamp was written, or that stamp was put back in between: a lost record, an older record written back, or the late stamp of a call that loaded before |
| AskRuns.AsksOverlap | crates/cli/src/hook.rs:792-822 | when no stamp is put back and calls are brief, two asks are less than 24 hours apart exactly when the later call loaded the record before the earlier one's stamp was written |
| AskRuns.NextAsk | crates/cli/src/hook.rs:384-405 | for any clocks, the next call to ask does so at least 24 hours after the stamp it follows, as long as no other stamp, older record or loss came in between |
| AskRuns.BothAsk | crates/cli/src/hook.rs:792-822 | a run in which two sessions' Stops both make the maintenance ask at the same instant, whatever lands |
| AskRuns.QuietWeek | crates/cli/src/hook.rs:391-405 | in a run that starts fresh, every maintenance ask of the first seven days has a pending domain behind it, whatever is written back by whom |
| DesktopState.OneOutcome | crates/cli/src/desktop_state.rs:494-565 | every private domain has one outcome, and its name is in a list exactly when that outcome is one the list takes |
| DesktopVerdicts.VerdictsAre | crates/cli/src/desktop_state.rs:494-565 | every private domain comes to the verdict its name, its folder and its team state call for, said of the two lists and the file system |
| DesktopState.EntriesStay | crates/cli/src/desktop_state.rs:494-565 | no entry of this machine changes, and a new name is one that was judged to be registered |
| DesktopState.RootsStayDistinct | crates/cli/src/desktop_state.rs:494-565 | a config whose file domains have distinct folders keeps distinct folders |
| DesktopState.SharedFolder | crates/cli/src/desktop_state.rs:499-512 | of two private names with one folder, the second is skipped once the first is registered |
| DesktopState.RegisteredStaysPut | crates/cli/src/desktop_state.rs:251-260 | a registered folder never lies inside the private folder the rename moves |
| DesktopState.SpellingStays | crates/core/src/names.rs:1-22 | after registrations whose spellings meant nothing, a spelling still means a domain unless it did so only as an alias that a new registration lists too |
| DesktopState.ResolvesOnMerged | crates/core/src/names.rs:1-22 | a spelling means a domain after the merge exactly when, counting the domains here before and those that join, it is a name, the canonical name of one, or the alias of one that nobody claims |
| NamesAgree.ResolvesIsMeaning | crates/core/src/names.rs:1-22 | a spelling means a domain to the merge exactly when it does to the browser, for any listing of the same domains |
| DesktopState.RepeatRegistersNothing | crates/cli/src/desktop_state.rs:494-565 | a repeat on the unchanged result registers nothing exactly when every name the merge refused is refused still: its name means a domain here or of those that joined, or its folder is taken or unusable, or its team state stands in the way |
| DesktopState.RepeatCanRegister | crates/cli/src/desktop_state.rs:266-292 | a concrete private list where a repeat does register a name the first run refused |
| GithubSettings.GlobalConfig.CarryGithub | crates/cli/src/desktop_state.rs:156-213 | each key unset here takes the private value and is listed in order; a block appears only when a key was carried |
| GithubSettings.GithubKeys | crates/cli/src/desktop_state.rs:153-213 | a key set here keeps its value, a key set only privately comes over, and exactly those are reported |
| GithubSettings.GithubAgain | crates/cli/src/desktop_state.rs:153-213 | carrying again carries nothing and changes nothing |
| DesktopMerge.MergeKeeps | crates/cli/src/desktop_state.rs:442-449 | wherever the merge stops or fails, no entry, no set key, no team state and no engram of this machine changes |
| DesktopMerge.MergeKeepsRootsDistinct | crates/cli/src/desktop_state.rs:494-595 | wherever the merge stops or fails, distinct folders stay distinct |
| DesktopMerge.SaveFailure | crates/cli/src/desktop_state.rs:568-575 | a failed save leaves everything but the team states copied whose removal failed, and the files are as before exactly when there is none |
| MergeReport.ReportSays | crates/cli/src/desktop_state.rs:449-684 | each list of the report gains exactly the private domains that are so, in order, wherever the merge stops |
| MergeReport.RegisteredTwice | crates/cli/src/desktop_state.rs:545-565 | a name registered here and privately in two ways is a conflict exactly when the private one is virtual or its folder is there to stay, and is kept exactly when that folder lies in the private one, is missing or not named |
| MergeReport.RenamedWhen | crates/cli/src/desktop_state.rs:671-678 | the folder is renamed exactly when the merge ends well, no private domain clashes or is refused, and every virtual domain came over whole |
| DesktopMerge.EngramsAccounted | crates/cli/src/desktop_state.rs:597-664 | after a merge that ends well every virtual domain it took is what the import leaves, its counts are reported exactly, and each private engram is here with its text, or among the differing ones the report counts, or among those warned of, with the domain newly reported as not moved |
| DesktopMerge.MergedDomains | crates/cli/src/desktop_state.rs:494-664 | the config, settings and team states a merge that ends well leaves |
| DesktopMerge.RepeatSavesNothing | crates/cli/src/desktop_state.rs:565-595 | a repeat on the unchanged result saves no domain, team state or setting exactly when every name the merge refused is refused still |
| VirtualImport.ImportDomain | crates/engine/src/engine/transfer.rs:177-345 | both passes of an import: collisions against what was here before, then the writes in order, with the exact counts of written, skipped and warned |
| VirtualImport.ImportAccounts | crates/engine/src/engine/transfer.rs:177-345 | every exported engram has one fate: written and here with its text, skipped and listed as differing exactly when this side has another text or none at its path, or warned about; and nothing else came |
| VirtualImport.ImportAgain | crates/engine/src/engine/transfer.rs:177-345 | importing the same engrams again writes nothing and changes nothing |
| VirtualImport.WrittenWhen | crates/engine/src/engine/transfer.rs:212-345 | an engram is written exactly when it reads, its path and permalink are new here, the store takes it, and none written before it has its permalink |
| VirtualImport.TwinIsSkippedAgain | crates/engine/src/engine/transfer.rs:296-345 | of two exported engrams with one permalink the second is not written; on a repeat it is a collision, no longer a warning |
| MergeRun.SortDomains | crates/cli/src/desktop_state.rs:494-565 | the domain loop fills the config, the team states and every list as the outcomes say |
| MergeRun.Save | crates/cli/src/desktop_state.rs:565-586 | registrations and settings are saved together, or the copied team states are taken away again |
| MergeRun.Machine.MoveVirtuals | crates/cli/src/desktop_state.rs:597-664 | the loop over the virtual domains registers and imports as specified and stops at the first failure |
| MergeRun.MergeInto | crates/cli/src/desktop_state.rs:449-684 | the whole merge leaves exactly the specified files and report, wherever it stops |
| Credentials.ConnectPerson | crates/cli/src/cmd.rs:3875-3935 | asking, linking, saving and asking again, with arbitrary changes between the steps, leave exactly the stores the specification says at every early return |
| Credentials.PlayIsConnect | crates/cli/src/cmd.rs:3875-3935 | a sign-in taken one call at a time, on any worlds the calls find and with any luck, leaves and answers what the whole connect does |
| Credentials.RefusedLeavesToken | crates/cli/src/cmd.rs:3759-3775 | a refused connect leaves its own token stored exactly when it was saved, is still there as it is taken back, and the reading or the deleting fails |
| Credentials.LinkWithoutToken | crates/cli/src/cmd.rs:3875-3935 | even undisturbed a connect leaves a live link without a token exactly when the save and the marking both fail with no token before, or the second asking fails and the token is taken back |
| Credentials.DisconnectPerson | crates/cli/src/cmd.rs:4002-4052 | the link goes before the token and the token before the left-over file, with a stop at the first failure |
| Credentials.PlayIsDisconnect | crates/cli/src/cmd.rs:4002-4052 | a disconnect taken one call at a time leaves, after each call, what the whole disconnect does |
| Credentials.DisconnectAgain | crates/cli/src/cmd.rs:4002-4052 | a disconnect run again after any failure, undisturbed, leaves no link and no token |
| CredentialRuns.RunsAreSafe | crates/engine/src/engine/github.rs:1380-1470 | in every interleaving of the calls of any number of sign-ins, disconnects, removals with their later sweep and creations with theirs: a stored token is its sign-in's save, and when that succeeded for an account no longer there, the sweep of that removal has not found the name clear; a link is there only with the account its sign-in began for |
| SignInRuns.SignInsAreConnects | crates/cli/src/cmd.rs:3875-3935 | every sign-in of every run does what the connect method does on the worlds its calls found |
| SignInRuns.SuccessSawItsAccount | crates/cli/src/cmd.rs:3714-3775 | in every run, a sign-in that succeeded found its account when it asked before its save and when it asked again after it, saved in between, and linked no other |
| SignInRuns.ChangedIsRefused | crates/cli/src/cmd.rs:3748-3775 | in every run, a sign-in that asks and finds another account, or none, or gets no answer, never succeeds |
| SignInRuns.RefusedIsGone | crates/cli/src/cmd.rs:3759-3775 | the token of a refused sign-in is not stored, however the others run; only one that could not be taken back can be |
| SignInRuns.FormerToken | crates/engine/src/engine/github.rs:1380-1470 | the stored token of a sign-in that succeeded belongs to a former account exactly while the sweep of that account's removal has not found the name clear |
| SignInRuns.LinkGoesWithItsAccount | crates/identity/src/auth_store.rs:2303-2399 | a link never lands on, nor stays with, a later account under the name |
| SignInRuns.OnlyItsSave | crates/cli/src/cmd.rs:3759-3775 | only its own save puts a sign-in's token there |
| SignInRuns.TakeBackIsLate | crates/cli/src/cmd.rs:3759-3775 | between its read and its delete a take-back deletes its own token exactly when nobody changed the stored one in between |
| SignInRuns.LateSweepTakesTheNewToken | crates/engine/src/engine/github.rs:1405-1470 | a run in which the sweep of a removed account takes the token of the account made since |
| DisconnectRuns.DisconnectsAreDisconnects | crates/cli/src/cmd.rs:4002-4052 | every disconnect of every run does what the disconnect method does on the worlds its calls found |
| DisconnectRuns.DisconnectStrands | crates/cli/src/cmd.rs:4034-4052 | in every run, a disconnect that deletes the token strands a link exactly when a sign-in linked since the disconnect removed the link, or found none, and that link was not dropped since |
| DisconnectRuns.DoneLeaves | crates/cli/src/cmd.rs:4002-4052 | in every run, a disconnect that is done leaves no left-over file, a link exactly when a sign-in linked since it removed the link or found none, and a token exactly when a sign-in saved since it deleted the token or found none |
| DisconnectRuns.LinksKeepTheirToken | crates/cli/src/cmd.rs:4034-4052 | at every point of every run of disconnects, removals, sweeps, creations and sign-ins that neither link nor take back, a link has its token |

## Left out

- QuoteWalk.OccurrenceAt: asks that the quote is not empty or the start is not past the beginning, because the loop does not end
  otherwise; NumberingEnds says so.
- StopRuns.FileSays: no hook writes the session's file from a state another hook has changed since, no file is lost and the
  Stops' writes land. Without that the counter can lose a Stop, as the mark can (StopRuns.FirstUnmark).
- AskRuns.CloseAsks: calls load the record in the order of their clocks; AskRuns.NextAsk does without.
- AskRuns.AsksOverlap: the calls that load before a stamp is written do so within a day of it. Two writers of one process,
  which a lock keeps apart, may straddle each other in these runs.
- StopHook.StateDir.RunStop: a stamp that a packaged hook hands to the daemon is one that lands or does not.
- Credentials.LinkWithoutToken: between the steps nothing happens, so that the cause is the connect itself.
- DisconnectRuns.LinksKeepTheirToken: no sign-in links or takes back in the run; Credentials.LinkWithoutToken,
  DisconnectRuns.StrandsBy and DisconnectRuns.DisconnectStrands say what those do.
- CredentialRuns.RunsAreSafe: renewing a token, and a link made by the engine for a sign-in in the browser, are not modelled.
- DesktopMerge.EngramsAccounted: the export of a virtual domain is given; attachments and linked files are not modelled.
- VirtualImport.ImportDomain: imports that complete notes, overwrite, or only preview.
- Strings are sequences of Dafny characters, not of UTF-16 code units; lower-casing, word characters, the headings'
  slugs, the folding of a section title, the test for a block at the start of a paragraph and the removal of HTML
  comments are parameters. Numbers do not overflow except where the code caps them.
- JSON documents are values: key order, layout, comments, duplicate keys and the prototype keys of JavaScript objects
  are not modelled, nor is the byte-level editing behind the three edits.
- The Windows rule for what counts as the `crystalline` program, and the harnesses whose hooks are text files.
- Clocks, files, sockets, the network, the keychain and the database are parameters, or steps that may fail; the file a
  keychain failure leaves is only deleted, never read.
- The printed reports and their wording; merge reports hold domain names in place of sentences.
- The staging folder of a copied team state, and the files two exports are compared by.
- The routes and slugs of resolved links, the browser's own parts (selections, ranges, painting), and React.
- Reading HTML for eager scripts, snippet markup, layout and storage preferences, formatting and report printing.
