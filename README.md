# Autolinks and list sorting, modelled in Dafny

This project models two parts of a Git extension.

**The autolink engine** (`src/autolinks/autolinks.utils.ts`) finds issue and pull-request references in text and turns them into link records:

- An autolink reference is classified as dynamic (it brings its own `parse`) or cacheable (it has a `prefix` and a URL template with a `<num>` placeholder).
- A cacheable reference lazily builds and caches its matchers.
- `getAutolinks` scans a commit message and fills a map keyed by the matched number.
- `getBranchAutolinks` scans a branch name. It works as follows:
  - It splits the name on `/` for references without a prefix.
  - It skips release-like chunks (`v2`, `release-1.0`). A bare release word (`release`) also skips the next chunk.
  - It numbers the chunks it scans and keys the links by their URL, keeping the smallest offset.
  - It removes numbers that also occur in the reference's own slugified title.
  - It finally sorts the links by relevance. For references without a prefix, relevance comes from a priority string built by `calculatePriority`.
- `serializeAutolink` copies a link without its ranking data.

**The list orderings** (`src/git/utils/-webview/sorting.ts`) sort branches, contributors, remotes, repositories, tags and worktrees in place. Each ordering is a chain of tie-breaks: flags first, then dates or counts, then names.

Modules:

| module | file | contents |
|---|---|---|
| `Wrappers` | `wrappers.dfy` | `Option`, and `Slot` for an object property that is missing, present but `null`/`undefined`, or given |
| `Comparators` | `comparators.dfy` | comparator combinators (`a - b \|\| …` chains), `IsComparator`, an in-place insertion sort standing in for `Array.prototype.sort` |
| `OrderedMaps` | `ordered_maps.dfy` | a JavaScript `Map`: entries in insertion order with distinct keys; overwriting a key keeps its position |
| `JsText` | `text.dfy` | character classes (`\d`, `\w`, `\s`), ASCII case folding, `<num>` replacement |
| `Autolinks` | `autolinks.dfy` | links, references (a class whose matcher cache is updated in place), classification, `ensureCachedRegex`, `serializeAutolink` |
| `MessageScan` | `message_scan.dfy` | the message pattern as a scanner, and `getAutolinks` |
| `BranchMatching` | `branch_match.dfy` | `split('/')`, the release-chunk pattern, and the two branch-name patterns as scanners |
| `BranchPriority` | `priority.dfy` | `calculatePriority` |
| `AutolinkRanking` | `ranking.dfy` | `compareAutolinks` as written, the corrected order, and the final sort |
| `BranchScan` | `branch_scan.dfy` | `getBranchAutolinks`: the chunk walk, URL keys, title removal |
| `GitSorting` | `sorting.dfy` | every `sortX` function and its comparator chain |

Each regular expression is a function that says whether the pattern matches at a given position, and what it captures. `exec` from `lastIndex` becomes `ExecFrom`, the first match at or after a position. `matchAll`, and a `do … while` loop over a global regex, become `AllMatches`. The scanning methods run the source's loops over these functions. Their postconditions tie the result to a specification function, such as `ScanRefSets` or `ScanBranchRefSets`. The lemmas state what those functions guarantee.

## Model

| member | source | states |
|---|---|---|
| Autolinks.Reference.constructor | src/autolinks/autolinks.utils.ts:14-29 | a new reference holds the given settings and no cached matchers, so its cache is consistent |
| Autolinks.IsDynamic | src/autolinks/autolinks.utils.ts:117-119 | a reference is dynamic exactly when both `prefix` and `url` are missing; a property present as `null` or `undefined` keeps it from being dynamic |
| Autolinks.IsCacheable | src/autolinks/autolinks.utils.ts:121-123 | a reference is cacheable exactly when both `prefix` and `url` are present and not null; a cacheable reference is never dynamic |
| Autolinks.MessagePatternOf | src/autolinks/autolinks.utils.ts:184-187 | the message pattern carries the reference's prefix, `\w` ids when `alphanumeric` and `\d` otherwise, and the `i` flag exactly when `ignoreCase` holds |
| Autolinks.DynamicAndCacheableExclusive | src/autolinks/autolinks.utils.ts:117-123 | no reference is both dynamic and cacheable; a reference with only one of `prefix`/`url`, or one of them null, is neither |
| Autolinks.BranchPatternOf | src/autolinks/autolinks.utils.ts:188-198 | the fixed number-chunk pattern is chosen exactly when the prefix is empty and ids are numeric; otherwise the pattern carries the reference's own prefix and id class, never its `ignoreCase` |
| Autolinks.EnsureCachedRegex | src/autolinks/autolinks.utils.ts:183-200 | afterwards both matchers are present and built from the reference's own settings; if they were already cached, the reference is unchanged |
| Autolinks.ReplaceIn | src/autolinks/autolinks.utils.ts:236 | an optional template gives a result exactly when it is present |
| Autolinks.SerializeAutolink | src/autolinks/autolinks.utils.ts:77-99 | the copy equals the input in every field except the priority string and the reference type, which are dropped |
| Autolinks.SerializeIdempotent | src/autolinks/autolinks.utils.ts:77-99 | serialising an already serialised link changes nothing |
| JsText.IdRunEnd | src/autolinks/autolinks.utils.ts:185 | the greedy `\d+`/`\w+` run from a position: every character up to the end is an id character, and the next one is not |
| JsText.Replace | src/autolinks/autolinks.utils.ts:236 | `replace(/<num>/g, id)` grows the text when the id has at least five characters and shrinks it when it has at most five: each replacement trades the five-character placeholder for the id |
| JsText.ReplaceWithoutPlaceholder | src/autolinks/autolinks.utils.ts:207 | a template without `<num>` is returned unchanged |
| JsText.ReplaceLeavesNoPlaceholder | src/autolinks/autolinks.utils.ts:236-241 | after replacement, no `<num>` is left when the id is non-empty and has none of the characters `<`, `n`, `u`, `m`, `>` (every number qualifies) |
| JsText.ReplaceCanLeavePlaceholder | src/autolinks/autolinks.utils.ts:207 | the replacement is a single left-to-right pass: the template `<<num>>` with id `num` gives `<num>` |
| OrderedMaps.Empty | src/autolinks/autolinks.utils.ts:210 | a new map has no entries |
| OrderedMaps.Get | src/autolinks/autolinks.utils.ts:330 | the value stored under a key, and `None` exactly when no entry has that key |
| OrderedMaps.Set | src/autolinks/autolinks.utils.ts:231 | the key now maps to the value and every other key keeps its value; an existing key keeps its position, and a new key is appended |
| OrderedMaps.Delete | src/autolinks/autolinks.utils.ts:360 | the key is gone and every other key keeps its value; deleting an absent key leaves the map as it was |
| OrderedMaps.DeleteIdempotent | src/autolinks/autolinks.utils.ts:360 | deleting the same key twice is the same as deleting it once |
| OrderedMaps.PermutationKeepsKeysDistinct | src/autolinks/autolinks.utils.ts:366 | reordering the entries of a map keeps its keys distinct, so the sorted entries form a map again |
| MessageScan.BodyAt | src/autolinks/autolinks.utils.ts:185 | a result means the prefix is at the position (ignoring case exactly when `ignoreCase`) and is followed by an id run that ends at a word boundary |
| MessageScan.BodyAtExact | src/autolinks/autolinks.utils.ts:185 | the body matches with a given end exactly when the prefix is there and the id run ends at that word boundary |
| MessageScan.MatchAt | src/autolinks/autolinks.utils.ts:185 | a match found at a position starts there and ends within the message |
| MessageScan.MatchAtShape | src/autolinks/autolinks.utils.ts:185 | a match is an optional opener (start of text, whitespace, `(`, `[` or `{`), then the prefix, then the id, which is captured as written |
| MessageScan.NoMatchInMeans | src/autolinks/autolinks.utils.ts:226 | "no match in a range" holds exactly when no position in the range matches |
| MessageScan.ExecFrom | src/autolinks/autolinks.utils.ts:226 | `exec` returns the first match at or after `lastIndex`, or nothing when no later position matches |
| MessageScan.AllMatches | src/autolinks/autolinks.utils.ts:225-244 | every match the loop visits is a real match after the start, and there is none exactly when the first `exec` fails |
| MessageScan.MessageLink | src/autolinks/autolinks.utils.ts:231-243 | the link's id is the matched number, its index is where the match starts, and it carries no priority and no reference type |
| MessageScan.MessageLinkFilled | src/autolinks/autolinks.utils.ts:231-243 | for an id with none of the placeholder's characters, the stored url, and the title and description when present, hold no `<num>` |
| MessageScan.NumberLinkFilled | src/autolinks/autolinks.utils.ts:185-243 | for a reference taking numbers, every match of its message pattern gives a link whose url, title and description hold no `<num>` |
| MessageScan.SetMatches | src/autolinks/autolinks.utils.ts:231-243 | `autolinks.set` over the matches: keys already in the map keep their order, new ones follow, and every match's id ends up a key |
| MessageScan.ScanRef | src/autolinks/autolinks.utils.ts:215-244 | a reference without its own `parse` only adds links: the keys already present keep their order |
| MessageScan.ScanRefs | src/autolinks/autolinks.utils.ts:215-245 | over a provider's references, none dynamic, the keys already present keep their order |
| MessageScan.ScanRefSets | src/autolinks/autolinks.utils.ts:214-246 | over all reference sets, none dynamic, the keys already present keep their order |
| MessageScan.GetAutolinks | src/autolinks/autolinks.utils.ts:209-249 | the method's map equals the scan of every reference set in order, and every reference's matcher cache stays consistent |
| MessageScan.ScanProviderRefs | src/autolinks/autolinks.utils.ts:215-245 | the references of one provider: dynamic ones run their own `parse`; skipped ones change nothing; cacheable ones are scanned |
| MessageScan.SetAllMatches | src/autolinks/autolinks.utils.ts:225-244 | the `do … while` loop over `exec` sets one entry per match, in match order |
| MessageScan.LastWithId | src/autolinks/autolinks.utils.ts:231 | the last match with a given id, and `None` exactly when no match has that id |
| MessageScan.SetMatchesGet | src/autolinks/autolinks.utils.ts:231-243 | each matched number maps to the link of its last match; keys no match produced keep their old value |
| MessageScan.SetMatchesKeyedById | src/autolinks/autolinks.utils.ts:231-233 | every entry is stored under its own link id, and this is preserved |
| MessageScan.ScanKeyedById | src/autolinks/autolinks.utils.ts:209-249 | the whole scan keeps every entry keyed by its id, provided the dynamic parsers do too |
| MessageScan.ScanRefsKeyedById | src/autolinks/autolinks.utils.ts:215-245 | the scan of one provider's references keeps every entry keyed by its id |
| MessageScan.ActingRefs | src/autolinks/autolinks.utils.ts:216-221 | keeps exactly the references the message scan uses: cacheable ones with no reference type or `commit`, and dynamic ones |
| MessageScan.IgnoredRefsChangeNothing | src/autolinks/autolinks.utils.ts:216-221 | dropping the skipped references gives the same map |
| MessageScan.MessageLinkSerializesWhole | src/autolinks/autolinks.utils.ts:77-99 | a message link survives serialisation unchanged |
| MessageScan.RepeatedNumberMisses | src/autolinks/autolinks.utils.ts:185 | in `Fixes #1234 and #1234`, no match starts before either `#`, inside either number, or at the end |
| MessageScan.RepeatedNumberHits | src/autolinks/autolinks.utils.ts:185 | in that message, both occurrences of ` #1234` match, with id `1234` |
| MessageScan.RepeatedNumberMatches | src/autolinks/autolinks.utils.ts:225-244 | the loop visits exactly those two matches |
| MessageScan.RepeatedNumberStoredOnce | src/autolinks/autolinks.utils.ts:231-243 | the message gives a single entry `1234`, which holds the second match |
| MessageScan.PrefixCaseFollowsIgnoreCase | src/autolinks/autolinks.utils.ts:186 | prefix `GH-` matches `gh-12` with `ignoreCase` and fails without it |
| BranchMatching.Split | src/autolinks/autolinks.utils.ts:286 | `split('/')` gives at least one part, and no part contains `/` |
| BranchMatching.SplitJoin | src/autolinks/autolinks.utils.ts:286 | joining the parts with `/` gives back the branch name |
| BranchMatching.ReleaseLine | src/autolinks/autolinks.utils.ts:293 | a match on one line is a release word followed only by `[\d.-]` characters, and the captured number is that tail; it is shorter than the line, and a line made only of `[\d.-]` does not match |
| BranchMatching.ReleaseLineComplete | src/autolinks/autolinks.utils.ts:293 | conversely, every release word followed only by `[\d.-]` characters matches, capturing the tail |
| BranchMatching.LineEnd | src/autolinks/autolinks.utils.ts:293 | with the `m` flag, `$` holds at the next line terminator or at the end of the chunk |
| BranchMatching.ReleaseNumber | src/autolinks/autolinks.utils.ts:293 | `exec` with the `m` flag: the number it captures is made of `[\d.-]`, and text made only of those characters holds no release |
| BranchMatching.IsRelease | src/autolinks/autolinks.utils.ts:293-294 | a chunk of digits, dots and dashes alone (`123`, `1.2`) is never a release chunk, so it is scanned |
| BranchMatching.IsBareRelease | src/autolinks/autolinks.utils.ts:296-298 | a chunk whose release match has no number is a release chunk |
| BranchMatching.OneLine | src/autolinks/autolinks.utils.ts:293 | a chunk without line terminators is a single line |
| BranchMatching.ReleaseWordStart | src/autolinks/autolinks.utils.ts:293 | every release word starts with `v` or `r` |
| BranchMatching.BareReleaseExample | src/autolinks/autolinks.utils.ts:293-298 | `release` is a release chunk without a number, so it skips the next chunk |
| BranchMatching.NumberedReleaseExample | src/autolinks/autolinks.utils.ts:293-299 | `v1.2` is a release chunk with a number |
| BranchMatching.NumberFirstNoRelease | src/autolinks/autolinks.utils.ts:293 | `123-fix` is not a release chunk |
| BranchMatching.CapitalisedNoRelease | src/autolinks/autolinks.utils.ts:293 | `Release` is not a release chunk: the release pattern is case-sensitive |
| BranchMatching.NumberChunkAt | src/autolinks/autolinks.utils.ts:191 | a number chunk found there ends at the end of the chunk, at `/`, at `-` or at `_` |
| BranchMatching.NumberMatch | src/autolinks/autolinks.utils.ts:191 | a match starts at the given position and ends within the name |
| BranchMatching.NonPrefixedAt | src/autolinks/autolinks.utils.ts:191 | a match starts at the given position and ends within the name |
| BranchMatching.NonPrefixedShape | src/autolinks/autolinks.utils.ts:191 | a match is an optional delimiter, then the captured number chunk; the issue key is its leading digit run, optionally followed by one separator (`-`, `.`, `_`) and more digits; the chunk ends at a delimiter or at the end |
| BranchMatching.NumberAtStartExample | src/autolinks/autolinks.utils.ts:191 | `123-fix` matches at 0 with key `123`, and the ending `-` is consumed |
| BranchMatching.NumberChunkExample | src/autolinks/autolinks.utils.ts:191 | in `fix/12-3` the chunk is `12-3` and the key is `12` |
| BranchMatching.IdRunEndAt | src/autolinks/autolinks.utils.ts:185 | a run of id characters that stops at a position is the greedy run: `\d+` or `\w+` ends exactly there |
| BranchMatching.NumberChunkComplete | src/autolinks/autolinks.utils.ts:191 | conversely, digits, then an ending or a separator and more digits and then an ending, are found as a number chunk; the issue number is the first run of digits, and the separator form is taken when present |
| BranchMatching.NonPrefixedComplete | src/autolinks/autolinks.utils.ts:191 | conversely, the start of the text or a `/`, `-` or `_`, then such a number chunk, is a match at that position, with that issue number and number chunk |
| BranchMatching.KeyEnd | src/autolinks/autolinks.utils.ts:194-196 | the backtracking id run ends at the last position where the lookahead `$\|-\|_\|.\|/` holds, or nowhere |
| BranchMatching.PrefixedBodyAt | src/autolinks/autolinks.utils.ts:194-196 | a match starts at the given position and ends within the name |
| BranchMatching.PrefixedAt | src/autolinks/autolinks.utils.ts:193-197 | a match starts at the given position and ends within the name |
| BranchMatching.PrefixedShape | src/autolinks/autolinks.utils.ts:193-197 | a match is an optional delimiter, the prefix in any case, then an id run that ends before a delimiter or the end; the number chunk is the key itself |
| BranchMatching.PrefixedExample | src/autolinks/autolinks.utils.ts:193-197 | prefix `GH-` matches `-gh-42` in `feat-gh-42`, with key `42` |
| BranchMatching.PrefixedComplete | src/autolinks/autolinks.utils.ts:193-197 | conversely, the start of the text, or a `-`, `_`, `.` or `/` at any position (at position 0 when `^` does not match there), then the prefix up to ASCII case, then id characters up to a place where the lookahead holds, is a match; its key runs at least that far and ends where the lookahead holds, exactly there when the id characters stop there |
| BranchMatching.LeadingDelimiterExample | src/autolinks/autolinks.utils.ts:193-197 | in `_GH-42` with prefix `GH-`, the match at 0 consumes the leading `_` and has key `42` |
| BranchMatching.BranchMatchAt | src/autolinks/autolinks.utils.ts:190-197 | a match of either branch pattern starts at the given position and ends within the name |
| BranchMatching.NoMatchInMeans | src/autolinks/autolinks.utils.ts:305 | "no match in a range" holds exactly when no position in the range matches |
| BranchMatching.ExecFrom | src/autolinks/autolinks.utils.ts:305 | the next match is the first position at or after the start that matches, or nothing when none does |
| BranchMatching.AllMatches | src/autolinks/autolinks.utils.ts:305 | `matchAll` yields non-overlapping matches in increasing order, and none exactly when the first `exec` fails |
| BranchMatching.AllMatchesAreMatches | src/autolinks/autolinks.utils.ts:305 | every match `matchAll` yields is a match of the pattern at its own index |
| BranchPriority.ToUint16InRange | src/autolinks/autolinks.utils.ts:260-263 | `String.fromCharCode` keeps a code that is already within 16 bits |
| BranchPriority.KeyOf | src/autolinks/autolinks.utils.ts:258-263 | each code is its offset from `a` while that stays within 16 bits; the third is `b` exactly when the issue key is the whole number chunk, `a` otherwise |
| BranchPriority.Render | src/autolinks/autolinks.utils.ts:259-264 | the template literal is 18 code units: the four codes sit at positions 3, 7, 11 and 15, between a fixed opening, separators and closing |
| BranchPriority.CalculatePriority | src/autolinks/autolinks.utils.ts:252-265 | the priority string always has the same length, 18 code units |
| BranchPriority.PriorityOrder | src/autolinks/autolinks.utils.ts:259-264 | comparing two priority strings compares chunk code, edge code, exact flag and number code, in that order |
| BranchPriority.LexCompareCommonPrefix | src/autolinks/autolinks.utils.ts:141 | a common prefix does not change the string comparison |
| BranchPriority.LexCompareCons | src/autolinks/autolinks.utils.ts:141 | strings compare by their first code unit, then by the rest |
| BranchPriority.LaterChunkRanksHigher | src/autolinks/autolinks.utils.ts:260 | a later scanned chunk gives a greater priority, while its code fits in 16 bits |
| BranchPriority.NearerEdgeRanksHigher | src/autolinks/autolinks.utils.ts:261 | in the same chunk, a smaller edge distance gives a greater priority, within the 16-bit range |
| BranchPriority.ExactRanksHigher | src/autolinks/autolinks.utils.ts:258-262 | otherwise equal, a key that is the whole number chunk ranks above one that is not |
| BranchPriority.LargerNumberRanksHigher | src/autolinks/autolinks.utils.ts:263 | otherwise equal, a larger number ranks higher while its code fits in 16 bits |
| BranchPriority.NumberCodeWraps | src/autolinks/autolinks.utils.ts:263 | past 16 bits the code wraps: `65440` ranks below `12` |
| AutolinkRanking.LexCompare | src/autolinks/autolinks.utils.ts:141-146 | JavaScript string comparison on code units gives -1, 0 or 1, and 0 exactly on equal strings |
| AutolinkRanking.LexCompareAntisymmetric | src/autolinks/autolinks.utils.ts:141-146 | swapping the operands negates the result |
| AutolinkRanking.LexCompareTransitive | src/autolinks/autolinks.utils.ts:141-146 | the order is transitive |
| AutolinkRanking.LexCompareIsComparator | src/autolinks/autolinks.utils.ts:141-146 | string comparison is a consistent comparator |
| AutolinkRanking.CompareAutolinks | src/autolinks/autolinks.utils.ts:134-154 | as written: a longer prefix sorts first, and a tie (0) means equal prefix and id lengths and neither link at index 0 |
| AutolinkRanking.BothAtStartBothLose | src/autolinks/autolinks.utils.ts:149-150 | as written, two links with equal prefix length and priority, both at index 0, each compare as less relevant than the other |
| AutolinkRanking.CompareAutolinksNotAntisymmetric | src/autolinks/autolinks.utils.ts:134-154 | hence `compareAutolinks` is not antisymmetric, which a sort comparator must be |
| AutolinkRanking.RankOrder | src/autolinks/autolinks.utils.ts:134-154 | the corrected order (longer prefix, larger priority, at index 0, longer id, smaller index) is antisymmetric and transitive |
| AutolinkRanking.RankOrderAt | src/autolinks/autolinks.utils.ts:134-154 | the corrected order: longer prefix, then greater priority, then index 0, then longer id, then smaller index |
| AutolinkRanking.RankOrderAgrees | src/autolinks/autolinks.utils.ts:134-154 | on every pair with indexes where not both are at 0, the corrected order decides as `compareAutolinks` does |
| AutolinkRanking.RankOrderPrefixFirst | src/autolinks/autolinks.utils.ts:136-138 | a link ordered first never has a shorter prefix |
| AutolinkRanking.EntryOrder | src/autolinks/autolinks.utils.ts:366 | comparing `[url, link]` entries by their links is a consistent comparator |
| AutolinkRanking.SortLinks | src/autolinks/autolinks.utils.ts:366 | the sorted map has the same entries, ordered by relevance |
| AutolinkRanking.SortedPrefixesDescend | src/autolinks/autolinks.utils.ts:366 | in the sorted map, prefix lengths never increase |
| BranchScan.ChunksOf | src/autolinks/autolinks.utils.ts:282-287 | for a reference without a prefix, the chunks contain no `/` and join back to the name; otherwise the name is one chunk |
| BranchScan.SkipBeforeWitness | src/autolinks/autolinks.utils.ts:294-304 | when a chunk is skipped, an earlier bare release word precedes it, with only release chunks between |
| BranchScan.SkipBeforeFromWitness | src/autolinks/autolinks.utils.ts:294-304 | such a bare release word, with only release chunks after it, makes the chunk skipped |
| BranchScan.SkipBeforeMeans | src/autolinks/autolinks.utils.ts:294-304 | a chunk is skipped exactly when a bare release word precedes it with only release chunks between; so consecutive release words skip one chunk |
| BranchScan.NonPrefixedKeyDigits | src/autolinks/autolinks.utils.ts:191 | the issue key of a number-chunk match is all digits |
| BranchScan.NonPrefixedKeysAreNumbers | src/autolinks/autolinks.utils.ts:305 | every key the number-chunk pattern yields is all digits |
| BranchScan.MatchesFrom | src/autolinks/autolinks.utils.ts:305 | for a reference without a prefix, every key found is a number, so it can be passed to `calculatePriority` |
| BranchScan.EdgeDistance | src/autolinks/autolinks.utils.ts:326 | the distance is the smaller of the match's start index (which counts a consumed leading delimiter) and the characters after the number chunk minus one (one for the ending, even when the ending is the end of the name), so it is one of those two and at most each; `fix-123-x` gives 2 and a branch named `123` gives -1 |
| BranchScan.MergedIndex | src/autolinks/autolinks.utils.ts:330-333 | the new index is the smaller of the match's offset and the stored link's index, or the offset when no link is stored |
| BranchScan.BranchLink | src/autolinks/autolinks.utils.ts:341-358 | the link's id is the issue key, its URL is the template filled with the key, and its index is the merged index |
| BranchScan.AddMatch | src/autolinks/autolinks.utils.ts:328-358 | the link is stored under its URL, with the match's issue key and an index no later than the match's; keys already present keep their order |
| BranchScan.AddMatches | src/autolinks/autolinks.utils.ts:313-358 | adding a chunk's matches keeps the order of the keys already present |
| BranchScan.WalkChunk | src/autolinks/autolinks.utils.ts:292-307 | a release chunk, or the chunk after a bare release, adds nothing and is not counted; a bare release sets the skip flag; a scanned chunk clears it and is counted once; keys already present keep their order |
| BranchScan.WalkChunks | src/autolinks/autolinks.utils.ts:292-338 | title passes are only queued for a reference without a prefix that has a title; keys already present keep their order |
| BranchScan.WalkState | src/autolinks/autolinks.utils.ts:290-306 | after any number of chunks, the `skip` flag is `SkipBefore` and the chunk counter is the number of chunks scanned |
| BranchScan.WalkStep | src/autolinks/autolinks.utils.ts:292-308 | a release or skipped chunk leaves the map alone; a scanned chunk adds its matches, with the count of earlier scanned chunks as its index |
| BranchScan.DeleteMatchesGet | src/autolinks/autolinks.utils.ts:359-361 | after a title pass, a key is absent exactly when some title match has that URL; other keys are unchanged |
| BranchScan.DeleteMatchesAbsent | src/autolinks/autolinks.utils.ts:359-361 | a pass whose URLs are all absent leaves the map as it was |
| BranchScan.DeleteMatchesIdempotent | src/autolinks/autolinks.utils.ts:359-361 | a second pass over the same title matches changes nothing |
| BranchScan.DeleteRepeatedlyOnce | src/autolinks/autolinks.utils.ts:315-320 | any positive number of queued identical passes acts like one |
| BranchScan.TitleNumbersRemoved | src/autolinks/autolinks.utils.ts:310-361 | after the scan, a URL of a number in the slugified title is gone if any pass was queued; every other URL keeps what the chunk walk stored |
| BranchScan.BranchRefs | src/autolinks/autolinks.utils.ts:273-279 | keeps exactly the references the branch scan uses: cacheable, not a pull request, with no reference type or `branch` |
| BranchScan.SkippedRefsChangeNothing | src/autolinks/autolinks.utils.ts:273-279 | dropping the skipped references gives the same map |
| BranchScan.ScanBranchRef | src/autolinks/autolinks.utils.ts:273-362 | a reference the branch scan skips changes nothing; one without title passes only adds links, so keys already present keep their order |
| BranchScan.ScanBranchRefs | src/autolinks/autolinks.utils.ts:272-363 | over references none of which removes title numbers, keys already present keep their order |
| BranchScan.ScanBranchRefSets | src/autolinks/autolinks.utils.ts:271-364 | over all reference sets, when no reference removes title numbers, keys already present keep their order |
| BranchScan.AddMatchesKeyedByUrl | src/autolinks/autolinks.utils.ts:340-358 | adding matches keeps every entry keyed by its own URL |
| BranchScan.WalkChunksKeyedByUrl | src/autolinks/autolinks.utils.ts:313-362 | the chunk walk keeps every entry keyed by its URL |
| BranchScan.DeleteMatchesKeyedByUrl | src/autolinks/autolinks.utils.ts:359-361 | deleting keeps every entry keyed by its URL |
| BranchScan.ScanBranchRefKeyedByUrl | src/autolinks/autolinks.utils.ts:281-362 | the scan of one reference keeps every entry keyed by its URL |
| BranchScan.ScanBranchRefsKeyedByUrl | src/autolinks/autolinks.utils.ts:272-363 | the scan of one provider's references keeps every entry keyed by its URL |
| BranchScan.ScanBranchKeyedByUrl | src/autolinks/autolinks.utils.ts:267-365 | the whole branch scan keeps every entry keyed by its URL |
| BranchScan.AddMatchKeepsSmallerIndex | src/autolinks/autolinks.utils.ts:330-333 | a stored index at most a bound stays at most that bound, and the matched URL gets an index at most its offset |
| BranchScan.AddMatchesKeepStoredIndex | src/autolinks/autolinks.utils.ts:330-333 | a bound on a URL's stored index survives any further matches |
| BranchScan.AddMatchesKeepSmallestIndex | src/autolinks/autolinks.utils.ts:329-333 | after a chunk's matches, each match's URL has an index at most that match's offset, so repeats keep the smallest |
| BranchScan.BranchLinkFilled | src/autolinks/autolinks.utils.ts:328-356 | a branch link's URL, title and description hold no `<num>` |
| BranchScan.GetBranchAutolinks | src/autolinks/autolinks.utils.ts:267-367 | the result holds exactly the entries of the branch scan, sorted by relevance, and every reference's matcher cache stays consistent |
| BranchScan.ScanBranchProviderRefs | src/autolinks/autolinks.utils.ts:272-363 | one provider's references in order: skipped ones change nothing; the others are scanned after their matchers are cached |
| BranchScan.ScanBranchReference | src/autolinks/autolinks.utils.ts:282-362 | the chunk walk followed by the queued title passes computes the reference's scan |
| BranchScan.WalkBranchChunks | src/autolinks/autolinks.utils.ts:288-308 | the loop over the chunks computes the chunk walk: map, `skip` flag, counter and queued passes |
| BranchScan.WalkBranchChunk | src/autolinks/autolinks.utils.ts:293-307 | one chunk: a release sets or keeps `skip`; a skipped chunk clears it; otherwise the chunk is scanned |
| BranchScan.ScanBranchChunk | src/autolinks/autolinks.utils.ts:305-306 | a scanned chunk is recorded in `chunkIndexMap` with the current counter, and its matches are added |
| BranchScan.RepeatTitlePasses | src/autolinks/autolinks.utils.ts:315-320 | running the queued title passes one by one equals the repeated deletion |
| BranchScan.AddChunkMatches | src/autolinks/autolinks.utils.ts:313-338 | the loop over a chunk's matches adds them with the chunk's index, and queues one title pass per match when the reference has a title |
| BranchScan.AddBranchMatch | src/autolinks/autolinks.utils.ts:323-358 | one match: its link is stored under its URL, with the merged index and the priority |
| BranchScan.DeleteTitleMatches | src/autolinks/autolinks.utils.ts:359-361 | one title pass deletes the URL of every number in the slugified title |
| Comparators.AscendingIsComparator | src/git/utils/-webview/sorting.ts:133 | `a.x - b.x` is a consistent comparator |
| Comparators.DescendingIsComparator | src/git/utils/-webview/sorting.ts:225 | `b.x - a.x` is a consistent comparator |
| Comparators.FirstIfIsComparator | src/git/utils/-webview/sorting.ts:235 | `(a.flag ? -1 : 1) - (b.flag ? -1 : 1)` is a consistent comparator |
| Comparators.OnIsComparator | src/git/utils/-webview/sorting.ts:127-128 | comparing items by a key they carry is consistent whenever the key comparison is |
| Comparators.ReversedIsComparator | src/git/utils/-webview/sorting.ts:71 | swapping the operands of a consistent comparator keeps it consistent |
| Comparators.WhenIsComparator | src/git/utils/-webview/sorting.ts:30 | a step switched off by an option (`… : 0`) is consistent whenever the step is, or the option is off |
| Comparators.ThenIsComparator | src/git/utils/-webview/sorting.ts:235-238 | an `x \|\| y` tie-break chain is consistent whenever both links are |
| Comparators.SortInPlace | src/git/utils/-webview/sorting.ts:233 | sorting in place with a consistent comparator leaves a permutation of the input, ordered by the comparator |
| GitSorting.BranchDefaults | src/git/utils/-webview/sorting.ts:24 | after `{ current: true, groupByType: true, orderBy: <configured>, ...options }`: `current` and `groupByType` are on when missing or `true`, and off when given as `false`, `null` or `undefined`; `missingUpstream` is on only when `true`; the order is the configured one when missing, the given one when present, and matches no `case` when given as `null`/`undefined` |
| GitSorting.FlagOrTrue | src/git/utils/-webview/sorting.ts:24 | a flag defaulted to `true` by the spread is on exactly when it is missing or given as `true` |
| GitSorting.MergedOrderBy | src/git/utils/-webview/sorting.ts:24 | the spread order: the configured one when missing, the given one when present, and none of the `case` labels when given as `null`/`undefined` |
| GitSorting.PinnedNamesAt | src/git/utils/-webview/sorting.ts:51-53 | `main` comes before everything else, `master` before all but `main`, `develop` after those two; all other names tie |
| GitSorting.PinnedNames | src/git/utils/-webview/sorting.ts:51-53 | the `main`, `master`, `develop` steps are a consistent comparator |
| GitSorting.BranchLead | src/git/utils/-webview/sorting.ts:30-36 | the leading flag tie-breaks (missing upstream, current, opened worktree, starred) are a consistent comparator |
| GitSorting.BranchOrder | src/git/utils/-webview/sorting.ts:26-88 | the comparator of every `case` of `sortBranches` is consistent whenever `sortCompare` is |
| GitSorting.GroupByType | src/git/utils/-webview/sorting.ts:37 | the optional local-before-remote step is a consistent comparator |
| GitSorting.BranchTail | src/git/utils/-webview/sorting.ts:37-86 | the steps after the leading four, per `case`, are consistent whenever `sortCompare` is |
| GitSorting.SortBranches | src/git/utils/-webview/sorting.ts:23-89 | returns the same array, now a permutation of its old contents, ordered by the chosen branch order |
| GitSorting.BranchOrderAt | src/git/utils/-webview/sorting.ts:28-86 | the leading tie-breaks decide unless they all tie; the order-specific tail decides otherwise |
| GitSorting.GroupByTypeAt | src/git/utils/-webview/sorting.ts:37 | with `groupByType`, branches of different type never tie, and a local branch comes before a remote one |
| GitSorting.BranchLeadingTieBreaks | src/git/utils/-webview/sorting.ts:77-83 | missing upstream first (when set), then current (when set), then opened worktree, then starred: each decides once the earlier ones tie |
| GitSorting.LocalBeforeRemote | src/git/utils/-webview/sorting.ts:75-86 | with `groupByType`, once the earlier steps tie, a local branch comes before a remote branch in every order |
| GitSorting.PinnedBranchNames | src/git/utils/-webview/sorting.ts:51-55 | by name, once the flags tie, `main`, `master` and `develop` come first, in that order |
| GitSorting.NameDescReversesOnlyNames | src/git/utils/-webview/sorting.ts:42-71 | `name:desc` decides each pair as `name:asc` does, except that it reverses the final name comparison |
| GitSorting.BranchDateOrder | src/git/utils/-webview/sorting.ts:28-86 | `date:desc` puts newer branches first and a missing date (taken as -1) last; `date:asc` puts older first and a missing date first |
| GitSorting.ContributorDefaults | src/git/utils/-webview/sorting.ts:109 | after `{ picked: true, current: true, orderBy: <configured>, ...options }`: `picked` and `current` are on when missing or `true`, off when given as `false`, `null` or `undefined`; the order as for branches |
| GitSorting.ContributorKeys | src/git/utils/-webview/sorting.ts:123-229 | the tie-breaks on the unwrapped contributors, per `case`, are consistent whenever `sortCompare` is |
| GitSorting.ComparePicked | src/git/utils/-webview/sorting.ts:115-121 | `comparePicked` is antisymmetric; it is 0 when the option is off or either element is a plain contributor; on two quick-pick items it is negative exactly when the first is picked and the second is not |
| GitSorting.PlainContributorOrder | src/git/utils/-webview/sorting.ts:111-121 | for plain contributors the picked step ties, so the order is the key chain alone, and it is consistent |
| GitSorting.QuickPickContributorOrder | src/git/utils/-webview/sorting.ts:111-121 | for quick-pick items, picked ones come first (when on), then the key chain on the wrapped contributor; it is consistent |
| GitSorting.SortContributors | src/git/utils/-webview/sorting.ts:105-230 | contributors are permuted in place into the chosen order |
| GitSorting.SortContributorItems | src/git/utils/-webview/sorting.ts:105-230 | quick-pick items are permuted in place into the chosen order |
| GitSorting.ContributorOrder | src/git/utils/-webview/sorting.ts:115-229 | with `picked` on, a picked quick-pick item precedes an unpicked one; with it off, or for a plain contributor, the contributor tie-breaks alone decide |
| GitSorting.CountDescOrder | src/git/utils/-webview/sorting.ts:215-228 | by default, a larger contribution count comes first, then a later latest commit; equal on both, they tie |
| GitSorting.RemoteOrder | src/git/utils/-webview/sorting.ts:233-239 | the remote order is consistent whenever `sortCompare` is |
| GitSorting.SortRemotes | src/git/utils/-webview/sorting.ts:232-240 | remotes are permuted in place into the remote order |
| GitSorting.SortedRemotes | src/git/utils/-webview/sorting.ts:232-239 | in sorted remotes, default ones come first, then `origin`, then `upstream`, then the rest by name |
| GitSorting.RepositoryOrder | src/git/utils/-webview/sorting.ts:249-269 | each repository order is consistent whenever `sortCompare` is |
| GitSorting.SortRepositories | src/git/utils/-webview/sorting.ts:246-274 | `discovered`, an unknown order, or one given as `null`/`undefined` leaves the array untouched; the others permute it into order |
| GitSorting.StarredRepositoriesFirst | src/git/utils/-webview/sorting.ts:250-269 | in sorted repositories, no unstarred one precedes a starred one |
| GitSorting.TagOrder | src/git/utils/-webview/sorting.ts:283-293 | each tag order is consistent whenever `sortCompare` is |
| GitSorting.SortTags | src/git/utils/-webview/sorting.ts:280-294 | tags are permuted in place into the chosen order; an order given as `null`/`undefined` takes the `default` branch, newest first |
| GitSorting.SortedTagsNewestFirst | src/git/utils/-webview/sorting.ts:290-292 | by default, sorted tags have non-increasing dates (a missing date counts as 0) |
| GitSorting.WorktreeOrder | src/git/utils/-webview/sorting.ts:315-377 | each worktree order is consistent whenever `sortCompare` is |
| GitSorting.WorktreeLead | src/git/utils/-webview/sorting.ts:322-323 | opened first, then default: a consistent comparator |
| GitSorting.WorktreeTail | src/git/utils/-webview/sorting.ts:324-377 | the steps after the leading two, per `case`, are consistent whenever `sortCompare` is |
| GitSorting.SortWorktrees | src/git/utils/-webview/sorting.ts:305-378 | worktrees are permuted in place into the chosen order; an order given as `null`/`undefined` takes the `default` branch |
| GitSorting.SortWorktreeItems | src/git/utils/-webview/sorting.ts:305-378 | quick-pick worktree items are permuted in place, ordered by their wrapped worktree |
| GitSorting.WorktreeOrderAt | src/git/utils/-webview/sorting.ts:321-325 | opened worktrees come first, then the default one; only when both tie does the order-specific tail decide |
| GitSorting.WorktreeTieBreaks | src/git/utils/-webview/sorting.ts:315-377 | opened first, then default, in every order; then, in `date:asc` and by name, changes before unknown before clean; in the default `date:desc`, the newer date (a missing one taken as -1) |
| GitSorting.PinnedWorktreeNames | src/git/utils/-webview/sorting.ts:336-343 | by name, once the flags tie, `main`, `master` and `develop` come first, in that order |

## Left out

- The HTML and Markdown message matchers (`src/autolinks/autolinks.utils.ts:170-182`), and provider `tokenize` callbacks. They rely on escaping helpers that are not part of this model; only the plain-text path is modelled.
- `escapeRegex` is not part of this model. The message prefix is matched literally, which is what escaping achieves. The branch pattern at line 194 embeds the prefix unescaped; it is also matched literally. So a prefix holding regex metacharacters behaves differently in the original.
- Case-insensitive matching folds ASCII letters only. Strings are sequences of characters, not UTF-16 code units. Unicode case folding and surrogate pairs are not modelled.
- A dynamic reference's `parse` and the `slugify` library are function parameters. The lemmas that need it assume `parse` keeps entries keyed by id.
- `flatMap` is not part of this model. It is taken to be a lazy generator, so `chunkIndexMap.get(input)` is read while the current chunk is scanned, and yields that chunk's index.
- The `...ref` spread also copies the matcher fields and `tokenize` into each link; the `Autolink` datatype does not carry them.
- The async enrichment types (`EnrichedAutolink`, `MaybeEnrichedAutolink`) are not modelled.
- BranchPriority.CalculatePriority: requires an all-digit key. Only the number-chunk pattern calls it, and `BranchScan.NonPrefixedKeysAreNumbers` proves those keys are digits. `Number(issueKey)` on numbers above 2^53 loses precision in the original; the model uses exact values.
- BranchPriority.LaterChunkRanksHigher, BranchPriority.NearerEdgeRanksHigher, BranchPriority.LargerNumberRanksHigher: monotonicity holds only while the 16-bit code does not wrap; `BranchPriority.NumberCodeWraps` shows the wrap.
- JsText.ReplaceLeavesNoPlaceholder: holds only for ids without the placeholder's characters; an alphanumeric id can rebuild `<num>` (`JsText.ReplaceCanLeavePlaceholder`).
- GitSorting.ContributorOrder: not a consistent comparator on an array mixing plain contributors and quick-pick items, since `comparePicked` ties a plain contributor with everything. The source's overloads never mix the two, and `GitSorting.PlainContributorOrder` and `GitSorting.QuickPickContributorOrder` prove consistency for each kind.
- GitSorting.ContributorName: `a.name ?? a.username!` asserts that a contributor without a name has a username; the model compares a contributor with neither as the empty name.
- Comparators.SortInPlace: stands in for `Array.prototype.sort`; stability and the engine's algorithm are not modelled, only order and permutation.
- `sortCompare` is a parameter, required to be a consistent comparator. `configuration.get` is an explicit `configured` parameter.
- The `Reference.Valid` cache invariant is required of callers. It holds for every reference built by the constructor and kept up by `EnsureCachedRegex`.
- The title-pass queue is a counter. Every queued iterator scans the same slug, and the passes are idempotent (`BranchScan.DeleteRepeatedlyOnce`).
- Chunk priority: matches in a later scanned chunk get a greater priority string and rank first. This follows the code (`src/autolinks/autolinks.utils.ts:260`). The idea that earlier chunks win is not what the code does.

## Findings

| source | as written | input that shows it | evidently intended | confidence | as-written member | corrected member |
|---|---|---|---|---|---|---|
| src/autolinks/autolinks.utils.ts:149-150 | `compareAutolinks` returns 1 when `b.index === 0`, before it looks at `a`, so two links both at index 0 each sort after the other | branch `123-fix` with two prefix-less numeric references whose URLs differ: both links have prefix length 0, the same priority and index 0 | index 0 ranks first only when the other link is not at 0; two links at 0 fall through to the id-length and index steps, giving a consistent comparator for the sort | not executed | AutolinkRanking.CompareAutolinksNotAntisymmetric | AutolinkRanking.RankOrder |
