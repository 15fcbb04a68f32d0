/**
 * The orderings of `src/git/utils/-webview/sorting.ts`.  Each `sortX`
 * reorders the caller's array in place with `Array.prototype.sort` and a
 * comparator that is a `||` chain of tie-breaks; the chains are built here
 * from the pieces of module Comparators, link for link as the source writes
 * them.  The string collation `sortCompare` is a parameter (any consistent
 * comparator on names) and so is the configured default ordering that the
 * source reads with `configuration.get`.
 */
module GitSorting {
  import opened Wrappers
  import opened Comparators

  // ---------------------------------------------------------------- branches

  /** The fields of a `GitBranch` that the branch orderings read. */
  datatype GitBranch = GitBranch(
    id: string,
    name: string,
    current: bool,
    remote: bool,
    starred: bool,
    /** `upstream?.missing`, false when there is no upstream */
    upstreamMissing: bool,
    /** `date?.getTime()` */
    date: Option<int>)

  /**
   * `BranchSortOptions` as passed.  `current`, `groupByType` and `orderBy`
   * have defaults that the spread overrides whenever the property is present,
   * even as `undefined`; the other two are only read for truthiness.
   */
  datatype BranchSortOptions = BranchSortOptions(
    current: Slot<bool>,
    groupByType: Slot<bool>,
    missingUpstream: Option<bool>,
    orderBy: Slot<string>,
    openedWorktreesByBranch: Option<set<string>>)

  /** The options after `{ current: true, groupByType: true, orderBy: <configured>, ...options }`. */
  datatype BranchOrdering = BranchOrdering(
    current: bool,
    groupByType: bool,
    missingUpstream: bool,
    orderBy: string,
    openedWorktreesByBranch: Option<set<string>>)

  /**
   * Every `case` label of the `switch` statements in the file: an ordering
   * outside these takes each switch's `default` branch.
   */
  predicate IsCaseLabel(orderBy: string) {
    orderBy in {"date:asc", "date:desc", "name:asc", "name:desc", "count:asc", "count:desc",
                "score:asc", "score:desc", "lastFetched:asc", "lastFetched:desc", "discovered"}
  }

  /**
   * A flag after `{ flag: true, ...options }` tested for truthiness: on when
   * the caller left it out, off when it is present but `undefined` or `null`.
   */
  function FlagOrTrue(flag: Slot<bool>): (on: bool)
    ensures on <==> flag.Absent? || flag == Given(true)
  {
    match flag
    case Absent => true
    case Nullish => false
    case Given(b) => b
  }

  /**
   * `orderBy` after `{ orderBy: configuration.get(...), ...options }`: the
   * configured ordering when the caller left it out; a present `undefined`
   * or `null` matches no `case`, which the empty string stands for.
   */
  function MergedOrderBy(orderBy: Slot<string>, configured: string): (r: string)
    ensures orderBy.Absent? ==> r == configured
    ensures orderBy.Given? ==> r == orderBy.value
    ensures orderBy.Nullish? ==> !IsCaseLabel(r)
  {
    match orderBy
    case Absent => configured
    case Nullish => ""
    case Given(s) => s
  }

  function BranchDefaults(options: BranchSortOptions, configured: string): (o: BranchOrdering)
    ensures o.current <==> options.current.Absent? || options.current == Given(true)
    ensures o.groupByType <==> options.groupByType.Absent? || options.groupByType == Given(true)
    ensures o.missingUpstream <==> options.missingUpstream == Some(true)
    ensures options.orderBy.Absent? ==> o.orderBy == configured
    ensures options.orderBy.Given? ==> o.orderBy == options.orderBy.value
    ensures options.orderBy.Nullish? ==> !IsCaseLabel(o.orderBy)
    ensures o.openedWorktreesByBranch == options.openedWorktreesByBranch
  {
    BranchOrdering(
      FlagOrTrue(options.current),
      FlagOrTrue(options.groupByType),
      options.missingUpstream.GetOr(false),
      MergedOrderBy(options.orderBy, configured),
      options.openedWorktreesByBranch)
  }

  function BranchName(b: GitBranch): string { b.name }

  /** `a.date == null ? -1 : a.date.getTime()` */
  function DateOrMinusOne(b: GitBranch): int { b.date.GetOr(-1) }

  function HasOpenedWorktree(o: BranchOrdering, b: GitBranch): bool {
    o.openedWorktreesByBranch.Some? && b.id in o.openedWorktreesByBranch.value
  }

  /** The four tie-breaks every branch ordering starts with. */
  function BranchLead(o: BranchOrdering): (r: (GitBranch, GitBranch) -> int)
    ensures IsComparator(r)
  {
    var missing := FirstIf((b: GitBranch) => b.upstreamMissing);
    var current := FirstIf((b: GitBranch) => b.current);
    var isOpened := FirstIf((b: GitBranch) => HasOpenedWorktree(o, b));
    var starred := FirstIf((b: GitBranch) => b.starred);
    FirstIfIsComparator((b: GitBranch) => b.upstreamMissing);
    FirstIfIsComparator((b: GitBranch) => b.current);
    FirstIfIsComparator((b: GitBranch) => HasOpenedWorktree(o, b));
    FirstIfIsComparator((b: GitBranch) => b.starred);
    WhenIsComparator(o.missingUpstream, missing);
    WhenIsComparator(o.current, current);
    WhenIsComparator(o.openedWorktreesByBranch.Some?, isOpened);
    ThenIsComparator(When(o.openedWorktreesByBranch.Some?, isOpened), starred);
    ThenIsComparator(When(o.current, current), Then(When(o.openedWorktreesByBranch.Some?, isOpened), starred));
    ThenIsComparator(When(o.missingUpstream, missing),
      Then(When(o.current, current), Then(When(o.openedWorktreesByBranch.Some?, isOpened), starred)));
    Then(When(o.missingUpstream, missing),
    Then(When(o.current, current),
    Then(When(o.openedWorktreesByBranch.Some?, isOpened),
         starred)))
  }

  /** `main`, then `master`, then `develop`, ahead of every other name. */
  function PinnedNames<T(!new)>(name: T -> string): (r: (T, T) -> int)
    ensures IsComparator(r)
  {
    FirstIfIsComparator((x: T) => name(x) == "main");
    FirstIfIsComparator((x: T) => name(x) == "master");
    FirstIfIsComparator((x: T) => name(x) == "develop");
    ThenIsComparator(FirstIf((x: T) => name(x) == "master"), FirstIf((x: T) => name(x) == "develop"));
    ThenIsComparator(FirstIf((x: T) => name(x) == "main"),
      Then(FirstIf((x: T) => name(x) == "master"), FirstIf((x: T) => name(x) == "develop")));
    Then(FirstIf((x: T) => name(x) == "main"),
    Then(FirstIf((x: T) => name(x) == "master"),
         FirstIf((x: T) => name(x) == "develop")))
  }

  function IsRemote(b: GitBranch): bool { b.remote }

  /** `(options.groupByType ? (b.remote ? -1 : 1) - (a.remote ? -1 : 1) : 0)`: local branches first. */
  function GroupByType(o: BranchOrdering): (r: (GitBranch, GitBranch) -> int)
    ensures IsComparator(r)
  {
    FirstIfIsComparator(IsRemote);
    ReversedIsComparator(FirstIf(IsRemote));
    WhenIsComparator(o.groupByType, Reversed(FirstIf(IsRemote)));
    When(o.groupByType, Reversed(FirstIf(IsRemote)))
  }

  /** The tie-breaks after the leading four, which differ between the orderings. */
  function BranchTail(o: BranchOrdering, sortCompare: (string, string) -> int): (r: (GitBranch, GitBranch) -> int)
    ensures IsComparator(sortCompare) ==> IsComparator(r)
  {
    var byName := On(sortCompare, BranchName);
    OnIsComparator(sortCompare, BranchName);
    ReversedIsComparator(byName);
    AscendingIsComparator(DateOrMinusOne);
    DescendingIsComparator(DateOrMinusOne);
    if o.orderBy == "date:asc" then
      ThenIsComparator(Ascending(DateOrMinusOne), byName);
      ThenIsComparator(GroupByType(o), Then(Ascending(DateOrMinusOne), byName));
      Then(GroupByType(o), Then(Ascending(DateOrMinusOne), byName))
    else if o.orderBy == "name:asc" then
      ThenIsComparator(GroupByType(o), byName);
      ThenIsComparator(PinnedNames(BranchName), Then(GroupByType(o), byName));
      Then(PinnedNames(BranchName), Then(GroupByType(o), byName))
    else if o.orderBy == "name:desc" then
      ThenIsComparator(GroupByType(o), Reversed(byName));
      ThenIsComparator(PinnedNames(BranchName), Then(GroupByType(o), Reversed(byName)));
      Then(PinnedNames(BranchName), Then(GroupByType(o), Reversed(byName)))
    else
      ThenIsComparator(Descending(DateOrMinusOne), Reversed(byName));
      ThenIsComparator(GroupByType(o), Then(Descending(DateOrMinusOne), Reversed(byName)));
      Then(GroupByType(o), Then(Descending(DateOrMinusOne), Reversed(byName)))
  }

  /**
   * The comparator `sortBranches` hands to `sort` for the resolved options:
   * a consistent comparator whenever `sortCompare` is one.
   */
  function BranchOrder(o: BranchOrdering, sortCompare: (string, string) -> int): (r: (GitBranch, GitBranch) -> int)
    ensures IsComparator(sortCompare) ==> IsComparator(r)
  {
    ThenIsComparator(BranchLead(o), BranchTail(o, sortCompare));
    Then(BranchLead(o), BranchTail(o, sortCompare))
  }

  /**
   * `main` sorts before every other name, `master` before every name but
   * `main`, `develop` before every name but those two; the pins tie exactly
   * when neither name is pinned or both are the same pinned name.
   */
  lemma PinnedNamesAt<T(!new)>(name: T -> string, x: T, y: T)
    ensures PinnedNames(name)(x, y) == 0 <==>
      (name(x) == "main") == (name(y) == "main") && (name(x) == "master") == (name(y) == "master")
      && (name(x) == "develop") == (name(y) == "develop")
    ensures name(x) == "main" && name(y) != "main" ==> PinnedNames(name)(x, y) < 0
    ensures name(x) == "master" && name(y) != "main" && name(y) != "master" ==> PinnedNames(name)(x, y) < 0
    ensures name(x) == "develop" && name(y) !in {"main", "master", "develop"} ==> PinnedNames(name)(x, y) < 0
  {
    var main := FirstIf((v: T) => name(v) == "main")(x, y);
    var master := FirstIf((v: T) => name(v) == "master")(x, y);
    var develop := FirstIf((v: T) => name(v) == "develop")(x, y);
    assert main == (if name(x) == "main" then -1 else 1) - (if name(y) == "main" then -1 else 1);
    assert master == (if name(x) == "master" then -1 else 1) - (if name(y) == "master" then -1 else 1);
    assert develop == (if name(x) == "develop" then -1 else 1) - (if name(y) == "develop" then -1 else 1);
    assert PinnedNames(name)(x, y) == if main != 0 then main else if master != 0 then master else develop;
  }



  /**
   * `sortBranches`: reorders `branches` in place and returns the same array,
   * now ordered by the comparator the options select and holding the same
   * branches.
   */
  method SortBranches(branches: array<GitBranch>, options: BranchSortOptions, configured: string,
                      sortCompare: (string, string) -> int)
    returns (sorted: array<GitBranch>)
    requires IsComparator(sortCompare)
    modifies branches
    ensures sorted == branches
    ensures SortedBy(branches[..], BranchOrder(BranchDefaults(options, configured), sortCompare))
    ensures multiset(branches[..]) == multiset(old(branches[..]))
  {
    var o := BranchDefaults(options, configured);
    SortInPlace(branches, BranchOrder(o, sortCompare));
    sorted := branches;
  }

  /** Two branches that tie on the four leading tie-breaks. */
  predicate LeadTies(o: BranchOrdering, x: GitBranch, y: GitBranch) {
    && (!o.missingUpstream || x.upstreamMissing == y.upstreamMissing)
    && (!o.current || x.current == y.current)
    && HasOpenedWorktree(o, x) == HasOpenedWorktree(o, y)
    && x.starred == y.starred
  }

  /** Two branches that tie on `main`, `master` and `develop`. */
  predicate PinsTie(x: GitBranch, y: GitBranch) {
    && (x.name == "main") == (y.name == "main")
    && (x.name == "master") == (y.name == "master")
    && (x.name == "develop") == (y.name == "develop")
  }

  /** A branch ordering is decided by its leading tie-breaks unless they tie, and by the rest otherwise. */
  lemma BranchOrderAt(o: BranchOrdering, sortCompare: (string, string) -> int, x: GitBranch, y: GitBranch)
    ensures BranchLead(o)(x, y) == 0 <==> LeadTies(o, x, y)
    ensures BranchOrder(o, sortCompare)(x, y)
      == if LeadTies(o, x, y) then BranchTail(o, sortCompare)(x, y) else BranchLead(o)(x, y)
  {
  }

  /** With `groupByType`, a local branch goes before a remote one, and the tie-break ties otherwise. */
  lemma GroupByTypeAt(o: BranchOrdering, x: GitBranch, y: GitBranch)
    ensures GroupByType(o)(x, y) == 0 <==> !o.groupByType || x.remote == y.remote
    ensures o.groupByType && !x.remote && y.remote ==> GroupByType(o)(x, y) < 0
  {
    assert IsRemote(x) == x.remote && IsRemote(y) == y.remote;
    assert FirstIf(IsRemote)(y, x) == (if y.remote then -1 else 1) - (if x.remote then -1 else 1);
  }

  /**
   * The leading tie-breaks of every branch ordering, in their order: with
   * `missingUpstream` set, a branch whose upstream is missing comes first;
   * then, with `current` set, the current branch; then a branch with an
   * opened worktree; then a starred one.
   */
  lemma BranchLeadingTieBreaks(o: BranchOrdering, sortCompare: (string, string) -> int, x: GitBranch, y: GitBranch)
    ensures o.missingUpstream && x.upstreamMissing && !y.upstreamMissing
      ==> BranchOrder(o, sortCompare)(x, y) < 0
    ensures (!o.missingUpstream || x.upstreamMissing == y.upstreamMissing) && o.current && x.current && !y.current
      ==> BranchOrder(o, sortCompare)(x, y) < 0
    ensures (!o.missingUpstream || x.upstreamMissing == y.upstreamMissing) && (!o.current || x.current == y.current)
      && HasOpenedWorktree(o, x) && !HasOpenedWorktree(o, y)
      ==> BranchOrder(o, sortCompare)(x, y) < 0
    ensures (!o.missingUpstream || x.upstreamMissing == y.upstreamMissing) && (!o.current || x.current == y.current)
      && HasOpenedWorktree(o, x) == HasOpenedWorktree(o, y) && x.starred && !y.starred
      ==> BranchOrder(o, sortCompare)(x, y) < 0
  {
    BranchOrderAt(o, sortCompare, x, y);
  }

  /**
   * With `groupByType`, a local branch sorts before a remote one once the
   * earlier tie-breaks (and, for the name orderings, the pinned names) tie.
   */
  lemma LocalBeforeRemote(o: BranchOrdering, sortCompare: (string, string) -> int, x: GitBranch, y: GitBranch)
    requires o.groupByType && LeadTies(o, x, y)
    requires o.orderBy == "name:asc" || o.orderBy == "name:desc" ==> PinsTie(x, y)
    requires !x.remote && y.remote
    ensures BranchOrder(o, sortCompare)(x, y) < 0
  {
    BranchOrderAt(o, sortCompare, x, y);
    GroupByTypeAt(o, x, y);
    PinnedNamesAt(BranchName, x, y);
  }

  /**
   * For `name:asc` and `name:desc`, `main`, `master` and `develop` come in
   * that order ahead of every other name, once the leading tie-breaks tie.
   */
  lemma PinnedBranchNames(o: BranchOrdering, sortCompare: (string, string) -> int, x: GitBranch, y: GitBranch)
    requires o.orderBy == "name:asc" || o.orderBy == "name:desc"
    requires LeadTies(o, x, y)
    ensures x.name == "main" && y.name != "main" ==> BranchOrder(o, sortCompare)(x, y) < 0
    ensures x.name == "master" && y.name != "main" && y.name != "master" ==> BranchOrder(o, sortCompare)(x, y) < 0
    ensures x.name == "develop" && y.name != "main" && y.name != "master" && y.name != "develop"
      ==> BranchOrder(o, sortCompare)(x, y) < 0
  {
    BranchOrderAt(o, sortCompare, x, y);
    PinnedNamesAt(BranchName, x, y);
    var pins := PinnedNames(BranchName)(x, y);
    assert BranchTail(o, sortCompare)(x, y) == if pins != 0 then pins else Then(GroupByType(o),
      if o.orderBy == "name:asc" then On(sortCompare, BranchName) else Reversed(On(sortCompare, BranchName)))(x, y);
  }

  /** `name:desc` differs from `name:asc` only in the final name comparison, which it reverses. */
  lemma NameDescReversesOnlyNames(o: BranchOrdering, sortCompare: (string, string) -> int, x: GitBranch, y: GitBranch)
    requires o.orderBy == "name:asc"
    ensures var desc := o.(orderBy := "name:desc");
      if LeadTies(o, x, y) && PinsTie(x, y) && (!o.groupByType || x.remote == y.remote)
      then BranchOrder(desc, sortCompare)(x, y) == sortCompare(y.name, x.name)
        && BranchOrder(o, sortCompare)(x, y) == sortCompare(x.name, y.name)
      else BranchOrder(desc, sortCompare)(x, y) == BranchOrder(o, sortCompare)(x, y)
  {
    var desc := o.(orderBy := "name:desc");
    BranchOrderAt(o, sortCompare, x, y);
    BranchOrderAt(desc, sortCompare, x, y);
    assert LeadTies(desc, x, y) == LeadTies(o, x, y) && BranchLead(desc)(x, y) == BranchLead(o)(x, y);
    var pins := PinnedNames(BranchName)(x, y);
    PinnedNamesAt(BranchName, x, y);
    GroupByTypeAt(o, x, y);
    var group := GroupByType(o)(x, y);
    assert GroupByType(desc)(x, y) == group;
    assert BranchTail(o, sortCompare)(x, y)
      == if pins != 0 then pins else if group != 0 then group else sortCompare(x.name, y.name);
    assert BranchTail(desc, sortCompare)(x, y)
      == if pins != 0 then pins else if group != 0 then group else sortCompare(y.name, x.name);
  }

  /**
   * The date orderings read a missing date as -1: `date:desc` (the default)
   * puts the newer branch first, so a branch without a date goes after every
   * branch dated at or after the epoch; `date:asc` puts it before them.
   */
  lemma BranchDateOrder(o: BranchOrdering, sortCompare: (string, string) -> int, x: GitBranch, y: GitBranch)
    requires LeadTies(o, x, y) && (!o.groupByType || x.remote == y.remote)
    ensures o.orderBy !in {"date:asc", "name:asc", "name:desc"} && DateOrMinusOne(x) > DateOrMinusOne(y)
      ==> BranchOrder(o, sortCompare)(x, y) < 0
    ensures o.orderBy !in {"date:asc", "name:asc", "name:desc"} && x.date.Some? && x.date.value >= 0 && y.date.None?
      ==> BranchOrder(o, sortCompare)(x, y) < 0
    ensures o.orderBy == "date:asc" && DateOrMinusOne(x) < DateOrMinusOne(y)
      ==> BranchOrder(o, sortCompare)(x, y) < 0
    ensures o.orderBy == "date:asc" && x.date.None? && y.date.Some? && y.date.value >= 0
      ==> BranchOrder(o, sortCompare)(x, y) < 0
  {
    BranchOrderAt(o, sortCompare, x, y);
    GroupByTypeAt(o, x, y);
    if o.orderBy == "date:asc" {
      assert Ascending(DateOrMinusOne)(x, y) == DateOrMinusOne(x) - DateOrMinusOne(y);
    } else if o.orderBy !in {"name:asc", "name:desc"} {
      assert Descending(DateOrMinusOne)(x, y) == DateOrMinusOne(y) - DateOrMinusOne(x);
    }
  }

  // ------------------------------------------------------------ contributors

  /** The fields of a `GitContributor` that the contributor orderings read. */
  datatype GitContributor = GitContributor(
    name: Option<string>,
    username: Option<string>,
    current: bool,
    contributionCount: int,
    /** `latestCommitDate?.getTime()` */
    latestCommitDate: Option<int>,
    /** `stats?.contributionScore` */
    contributionScore: Option<int>)

  datatype ContributorQuickPickItem = ContributorQuickPickItem(item: GitContributor, picked: bool)

  /** An element of the array `sortContributors` receives: a contributor or a quick-pick item wrapping one. */
  datatype ContributorEntry = Contributor(contributor: GitContributor) | QuickPickItem(quickPick: ContributorQuickPickItem)

  /** `ContributorQuickPickSortOptions` as passed; every property has a default the spread can override. */
  datatype ContributorSortOptions = ContributorSortOptions(
    current: Slot<bool>,
    orderBy: Slot<string>,
    picked: Slot<bool>)

  /** The options after `{ picked: true, current: true, orderBy: <configured>, ...options }`. */
  datatype ContributorOrdering = ContributorOrdering(picked: bool, current: bool, orderBy: string)

  function ContributorDefaults(options: ContributorSortOptions, configured: string): (o: ContributorOrdering)
    ensures o.picked <==> options.picked.Absent? || options.picked == Given(true)
    ensures o.current <==> options.current.Absent? || options.current == Given(true)
    ensures options.orderBy.Absent? ==> o.orderBy == configured
    ensures options.orderBy.Given? ==> o.orderBy == options.orderBy.value
    ensures options.orderBy.Nullish? ==> !IsCaseLabel(o.orderBy)
  {
    ContributorOrdering(FlagOrTrue(options.picked), FlagOrTrue(options.current), MergedOrderBy(options.orderBy, configured))
  }

  function PlainEntry(c: GitContributor): ContributorEntry { Contributor(c) }
  function ItemEntry(i: ContributorQuickPickItem): ContributorEntry { QuickPickItem(i) }

  /** `getContributor` */
  function GetContributor(e: ContributorEntry): GitContributor {
    match e
    case Contributor(c) => c
    case QuickPickItem(i) => i.item
  }

  /** `comparePicked`: picked items first, only when the option is on and both are quick-pick items. */
  function ComparePicked(o: ContributorOrdering): (r: (ContributorEntry, ContributorEntry) -> int)
    ensures forall a, b :: r(a, b) == -r(b, a)
    ensures forall a: ContributorEntry, b: ContributorEntry :: !o.picked || a.Contributor? || b.Contributor? ==> r(a, b) == 0
    ensures forall a: ContributorEntry, b: ContributorEntry | o.picked && a.QuickPickItem? && b.QuickPickItem? ::
      (r(a, b) < 0 <==> a.quickPick.picked && !b.quickPick.picked)
  {
    (a: ContributorEntry, b: ContributorEntry) =>
      if !o.picked || a.Contributor? || b.Contributor? then 0
      else (if a.quickPick.picked then -1 else 1) - (if b.quickPick.picked then -1 else 1)
  }

  /** `a.name ?? a.username!` (a contributor with neither compares as the empty name). */
  function ContributorName(c: GitContributor): string {
    if c.name.Some? then c.name.value else c.username.GetOr("")
  }

  function Count(c: GitContributor): int { c.contributionCount }
  /** `latestCommitDate?.getTime() ?? 0` */
  function LatestCommit(c: GitContributor): int { c.latestCommitDate.GetOr(0) }
  /** `stats?.contributionScore ?? 0` */
  function Score(c: GitContributor): int { c.contributionScore.GetOr(0) }

  /** The tie-breaks after `comparePicked`, on the unwrapped contributors. */
  function ContributorKeys(o: ContributorOrdering, sortCompare: (string, string) -> int): (r: (GitContributor, GitContributor) -> int)
    ensures IsComparator(sortCompare) ==> IsComparator(r)
  {
    var current := When(o.current, FirstIf((c: GitContributor) => c.current));
    FirstIfIsComparator((c: GitContributor) => c.current);
    WhenIsComparator(o.current, FirstIf((c: GitContributor) => c.current));
    AscendingIsComparator(Count);
    AscendingIsComparator(LatestCommit);
    AscendingIsComparator(Score);
    DescendingIsComparator(Count);
    DescendingIsComparator(LatestCommit);
    DescendingIsComparator(Score);
    OnIsComparator(sortCompare, ContributorName);
    ReversedIsComparator(On(sortCompare, ContributorName));
    if o.orderBy == "count:asc" then
      ThenIsComparator(Ascending(Count), Ascending(LatestCommit));
      ThenIsComparator(current, Then(Ascending(Count), Ascending(LatestCommit)));
      Then(current, Then(Ascending(Count), Ascending(LatestCommit)))
    else if o.orderBy == "date:desc" then
      ThenIsComparator(Descending(LatestCommit), Descending(Count));
      ThenIsComparator(current, Then(Descending(LatestCommit), Descending(Count)));
      Then(current, Then(Descending(LatestCommit), Descending(Count)))
    else if o.orderBy == "date:asc" then
      ThenIsComparator(Ascending(LatestCommit), Descending(Count));
      ThenIsComparator(current, Then(Ascending(LatestCommit), Descending(Count)));
      Then(current, Then(Ascending(LatestCommit), Descending(Count)))
    else if o.orderBy == "name:asc" then
      ThenIsComparator(current, On(sortCompare, ContributorName));
      Then(current, On(sortCompare, ContributorName))
    else if o.orderBy == "name:desc" then
      ThenIsComparator(current, Reversed(On(sortCompare, ContributorName)));
      Then(current, Reversed(On(sortCompare, ContributorName)))
    else if o.orderBy == "score:desc" then
      ThenIsComparator(Descending(Count), Descending(LatestCommit));
      ThenIsComparator(Descending(Score), Then(Descending(Count), Descending(LatestCommit)));
      ThenIsComparator(current, Then(Descending(Score), Then(Descending(Count), Descending(LatestCommit))));
      Then(current, Then(Descending(Score), Then(Descending(Count), Descending(LatestCommit))))
    else if o.orderBy == "score:asc" then
      ThenIsComparator(Ascending(Count), Ascending(LatestCommit));
      ThenIsComparator(Ascending(Score), Then(Ascending(Count), Ascending(LatestCommit)));
      ThenIsComparator(current, Then(Ascending(Score), Then(Ascending(Count), Ascending(LatestCommit))));
      Then(current, Then(Ascending(Score), Then(Ascending(Count), Ascending(LatestCommit))))
    else
      ThenIsComparator(Descending(Count), Descending(LatestCommit));
      ThenIsComparator(current, Then(Descending(Count), Descending(LatestCommit)));
      Then(current, Then(Descending(Count), Descending(LatestCommit)))
  }

  /**
   * The comparator `sortContributors` hands to `sort`: `pickedCompare || <keys
   * of the unwrapped contributors>`.  `picked` ranks first only when the
   * option is on and neither element is a plain contributor; otherwise it
   * never decides.
   */
  function ContributorOrder(o: ContributorOrdering, sortCompare: (string, string) -> int): (r: (ContributorEntry, ContributorEntry) -> int)
    ensures forall x: ContributorEntry, y: ContributorEntry | o.picked && x.QuickPickItem? && y.QuickPickItem? && x.quickPick.picked && !y.quickPick.picked ::
      r(x, y) < 0
    ensures forall x: ContributorEntry, y: ContributorEntry | !o.picked || x.Contributor? || y.Contributor? ::
      r(x, y) == ContributorKeys(o, sortCompare)(GetContributor(x), GetContributor(y))
  {
    Then(ComparePicked(o), On(ContributorKeys(o, sortCompare), GetContributor))
  }


  /** Two comparators that agree on every pair are equally consistent. */
  lemma SameComparator<T(!new)>(f: (T, T) -> int, g: (T, T) -> int)
    requires forall a, b :: f(a, b) == g(a, b)
    requires IsComparator(g)
    ensures IsComparator(f)
  {
    forall a, b, c | f(a, b) <= 0 && f(b, c) <= 0 ensures f(a, c) <= 0 {
      assert g(a, b) <= 0 && g(b, c) <= 0;
    }
  }

  /** On an array of plain contributors `comparePicked` is always 0: the keys alone decide. */
  lemma PlainContributorOrder(o: ContributorOrdering, sortCompare: (string, string) -> int)
    requires IsComparator(sortCompare)
    ensures forall a, b :: On(ContributorOrder(o, sortCompare), PlainEntry)(a, b) == ContributorKeys(o, sortCompare)(a, b)
    ensures IsComparator(On(ContributorOrder(o, sortCompare), PlainEntry))
  {
    forall a, b ensures On(ContributorOrder(o, sortCompare), PlainEntry)(a, b) == ContributorKeys(o, sortCompare)(a, b) {
      assert ComparePicked(o)(PlainEntry(a), PlainEntry(b)) == 0;
      assert GetContributor(PlainEntry(a)) == a && GetContributor(PlainEntry(b)) == b;
      assert On(ContributorKeys(o, sortCompare), GetContributor)(PlainEntry(a), PlainEntry(b))
        == ContributorKeys(o, sortCompare)(a, b);
    }
    SameComparator(On(ContributorOrder(o, sortCompare), PlainEntry), ContributorKeys(o, sortCompare));
  }

  function Picked(i: ContributorQuickPickItem): bool { i.picked }
  function Item(i: ContributorQuickPickItem): GitContributor { i.item }

  /** On an array of quick-pick items `comparePicked` is the `picked` tie-break whenever the option is on. */
  lemma QuickPickContributorOrder(o: ContributorOrdering, sortCompare: (string, string) -> int)
    requires IsComparator(sortCompare)
    ensures forall a, b :: (On(ContributorOrder(o, sortCompare), ItemEntry)(a, b)
      == Then(When(o.picked, FirstIf(Picked)), On(ContributorKeys(o, sortCompare), Item))(a, b))
    ensures IsComparator(On(ContributorOrder(o, sortCompare), ItemEntry))
  {
    forall a, b ensures On(ContributorOrder(o, sortCompare), ItemEntry)(a, b)
      == Then(When(o.picked, FirstIf(Picked)), On(ContributorKeys(o, sortCompare), Item))(a, b)
    {
      assert Picked(a) == a.picked && Picked(b) == b.picked;
      assert FirstIf(Picked)(a, b) == (if a.picked then -1 else 1) - (if b.picked then -1 else 1);
      assert ComparePicked(o)(ItemEntry(a), ItemEntry(b)) == When(o.picked, FirstIf(Picked))(a, b);
      assert GetContributor(ItemEntry(a)) == Item(a) && GetContributor(ItemEntry(b)) == Item(b);
      assert On(ContributorKeys(o, sortCompare), GetContributor)(ItemEntry(a), ItemEntry(b))
        == On(ContributorKeys(o, sortCompare), Item)(a, b);
    }
    FirstIfIsComparator(Picked);
    WhenIsComparator(o.picked, FirstIf(Picked));
    OnIsComparator(ContributorKeys(o, sortCompare), Item);
    ThenIsComparator(When(o.picked, FirstIf(Picked)), On(ContributorKeys(o, sortCompare), Item));
    SameComparator(On(ContributorOrder(o, sortCompare), ItemEntry),
      Then(When(o.picked, FirstIf(Picked)), On(ContributorKeys(o, sortCompare), Item)));
  }

  /** `sortContributors` on an array of contributors. */
  method SortContributors(contributors: array<GitContributor>, options: ContributorSortOptions, configured: string,
                          sortCompare: (string, string) -> int)
    returns (sorted: array<GitContributor>)
    requires IsComparator(sortCompare)
    modifies contributors
    ensures sorted == contributors
    ensures SortedBy(contributors[..], On(ContributorOrder(ContributorDefaults(options, configured), sortCompare), PlainEntry))
    ensures multiset(contributors[..]) == multiset(old(contributors[..]))
  {
    var o := ContributorDefaults(options, configured);
    PlainContributorOrder(o, sortCompare);
    SortInPlace(contributors, On(ContributorOrder(o, sortCompare), PlainEntry));
    sorted := contributors;
  }

  /** `sortContributors` on an array of quick-pick items. */
  method SortContributorItems(items: array<ContributorQuickPickItem>, options: ContributorSortOptions, configured: string,
                              sortCompare: (string, string) -> int)
    returns (sorted: array<ContributorQuickPickItem>)
    requires IsComparator(sortCompare)
    modifies items
    ensures sorted == items
    ensures SortedBy(items[..], On(ContributorOrder(ContributorDefaults(options, configured), sortCompare), ItemEntry))
    ensures multiset(items[..]) == multiset(old(items[..]))
  {
    var o := ContributorDefaults(options, configured);
    QuickPickContributorOrder(o, sortCompare);
    SortInPlace(items, On(ContributorOrder(o, sortCompare), ItemEntry));
    sorted := items;
  }


  /**
   * The default `count:desc`: once `picked` and `current` tie, more
   * contributions first, then the later latest commit.
   */
  lemma CountDescOrder(o: ContributorOrdering, sortCompare: (string, string) -> int, x: GitContributor, y: GitContributor)
    requires o.orderBy !in {"count:asc", "date:desc", "date:asc", "name:asc", "name:desc", "score:desc", "score:asc"}
    requires !o.current || x.current == y.current
    ensures Count(x) > Count(y) ==> ContributorKeys(o, sortCompare)(x, y) < 0
    ensures Count(x) == Count(y) && LatestCommit(x) > LatestCommit(y) ==> ContributorKeys(o, sortCompare)(x, y) < 0
    ensures Count(x) == Count(y) && LatestCommit(x) == LatestCommit(y) ==> ContributorKeys(o, sortCompare)(x, y) == 0
  {
  }

  // ----------------------------------------------------------------- remotes

  /** The fields of a `GitRemote` that `sortRemotes` reads. */
  datatype GitRemote = GitRemote(name: string, default: bool)

  function RemoteName(r: GitRemote): string { r.name }

  /** The comparator of `sortRemotes`. */
  function RemoteOrder(sortCompare: (string, string) -> int): (r: (GitRemote, GitRemote) -> int)
    ensures IsComparator(sortCompare) ==> IsComparator(r)
  {
    var isDefault := FirstIf((r: GitRemote) => r.default);
    var isOrigin := FirstIf((r: GitRemote) => r.name == "origin");
    var isUpstream := FirstIf((r: GitRemote) => r.name == "upstream");
    FirstIfIsComparator((r: GitRemote) => r.default);
    FirstIfIsComparator((r: GitRemote) => r.name == "origin");
    FirstIfIsComparator((r: GitRemote) => r.name == "upstream");
    OnIsComparator(sortCompare, RemoteName);
    ThenIsComparator(isUpstream, On(sortCompare, RemoteName));
    ThenIsComparator(isOrigin, Then(isUpstream, On(sortCompare, RemoteName)));
    ThenIsComparator(isDefault, Then(isOrigin, Then(isUpstream, On(sortCompare, RemoteName))));
    Then(isDefault, Then(isOrigin, Then(isUpstream, On(sortCompare, RemoteName))))
  }


  /** `sortRemotes` */
  method SortRemotes(remotes: array<GitRemote>, sortCompare: (string, string) -> int)
    returns (sorted: array<GitRemote>)
    requires IsComparator(sortCompare)
    modifies remotes
    ensures sorted == remotes
    ensures SortedBy(remotes[..], RemoteOrder(sortCompare))
    ensures multiset(remotes[..]) == multiset(old(remotes[..]))
  {
    SortInPlace(remotes, RemoteOrder(sortCompare));
    sorted := remotes;
  }

  /**
   * In a list ordered by `sortRemotes`: the default remote before every
   * other, then `origin`, then `upstream`, then the rest by `sortCompare`.
   */
  lemma SortedRemotes(s: seq<GitRemote>, sortCompare: (string, string) -> int, i: nat, j: nat)
    requires SortedBy(s, RemoteOrder(sortCompare))
    requires i < j < |s|
    ensures s[j].default ==> s[i].default
    ensures !s[i].default && !s[j].default && s[j].name == "origin" ==> s[i].name == "origin"
    ensures !s[i].default && !s[j].default && s[j].name == "upstream" ==> s[i].name in {"origin", "upstream"}
    ensures !s[i].default && !s[j].default && s[i].name !in {"origin", "upstream"}
      ==> s[j].name !in {"origin", "upstream"} && sortCompare(s[i].name, s[j].name) <= 0
  {
    var x, y := s[i], s[j];
    assert RemoteOrder(sortCompare)(x, y) <= 0;
    var isDefault := FirstIf((r: GitRemote) => r.default)(x, y);
    var isOrigin := FirstIf((r: GitRemote) => r.name == "origin")(x, y);
    var isUpstream := FirstIf((r: GitRemote) => r.name == "upstream")(x, y);
    assert isDefault == (if x.default then -1 else 1) - (if y.default then -1 else 1);
    assert isOrigin == (if x.name == "origin" then -1 else 1) - (if y.name == "origin" then -1 else 1);
    assert isUpstream == (if x.name == "upstream" then -1 else 1) - (if y.name == "upstream" then -1 else 1);
    assert On(sortCompare, RemoteName)(x, y) == sortCompare(x.name, y.name);
  }

  // ------------------------------------------------------------ repositories

  /** The fields of a `Repository` that `sortRepositories` reads. */
  datatype Repository = Repository(name: string, starred: bool, lastFetchedCached: Option<int>)

  function RepositoryName(r: Repository): string { r.name }
  /** `lastFetchedCached ?? 0` */
  function LastFetched(r: Repository): int { r.lastFetchedCached.GetOr(0) }

  /** Whether `orderBy` selects a sort at all (`discovered` and anything unknown keep the input order). */
  predicate SortsRepositories(orderBy: string) {
    orderBy in {"name:asc", "name:desc", "lastFetched:asc", "lastFetched:desc"}
  }

  /** The comparator of `sortRepositories` for an ordering that sorts. */
  function RepositoryOrder(orderBy: string, sortCompare: (string, string) -> int): (r: (Repository, Repository) -> int)
    ensures IsComparator(sortCompare) ==> IsComparator(r)
  {
    var starred := FirstIf((r: Repository) => r.starred);
    FirstIfIsComparator((r: Repository) => r.starred);
    OnIsComparator(sortCompare, RepositoryName);
    ReversedIsComparator(On(sortCompare, RepositoryName));
    AscendingIsComparator(LastFetched);
    DescendingIsComparator(LastFetched);
    ThenIsComparator(starred, On(sortCompare, RepositoryName));
    ThenIsComparator(starred, Reversed(On(sortCompare, RepositoryName)));
    ThenIsComparator(starred, Ascending(LastFetched));
    ThenIsComparator(starred, Descending(LastFetched));
    if orderBy == "name:asc" then Then(starred, On(sortCompare, RepositoryName))
    else if orderBy == "name:desc" then Then(starred, Reversed(On(sortCompare, RepositoryName)))
    else if orderBy == "lastFetched:asc" then Then(starred, Ascending(LastFetched))
    else Then(starred, Descending(LastFetched))
  }


  /**
   * `sortRepositories`: `discovered` or an unknown ordering returns the
   * array untouched; the others sort it in place.
   */
  method SortRepositories(repositories: array<Repository>, orderBy: Slot<string>, configured: string,
                          sortCompare: (string, string) -> int)
    returns (sorted: array<Repository>)
    requires IsComparator(sortCompare)
    modifies repositories
    ensures sorted == repositories
    ensures !SortsRepositories(MergedOrderBy(orderBy, configured)) ==> repositories[..] == old(repositories[..])
    ensures SortsRepositories(MergedOrderBy(orderBy, configured))
      ==> SortedBy(repositories[..], RepositoryOrder(MergedOrderBy(orderBy, configured), sortCompare))
    ensures multiset(repositories[..]) == multiset(old(repositories[..]))
  {
    var order := MergedOrderBy(orderBy, configured);
    if SortsRepositories(order) {
      SortInPlace(repositories, RepositoryOrder(order, sortCompare));
    }
    sorted := repositories;
  }

  /** Every repository ordering that sorts puts starred repositories first. */
  lemma StarredRepositoriesFirst(orderBy: string, sortCompare: (string, string) -> int, s: seq<Repository>, i: nat, j: nat)
    requires SortedBy(s, RepositoryOrder(orderBy, sortCompare))
    requires i < j < |s|
    ensures s[j].starred ==> s[i].starred
  {
    assert RepositoryOrder(orderBy, sortCompare)(s[i], s[j]) <= 0;
  }

  // -------------------------------------------------------------------- tags

  /** The fields of a `GitTag` that `sortTags` reads. */
  datatype GitTag = GitTag(name: string, date: Option<int>)

  function TagName(t: GitTag): string { t.name }
  /** `date?.getTime() ?? 0` */
  function TagDate(t: GitTag): int { t.date.GetOr(0) }

  /** The comparator of `sortTags`; anything but the three named orderings is `date:desc`. */
  function TagOrder(orderBy: string, sortCompare: (string, string) -> int): (r: (GitTag, GitTag) -> int)
    ensures IsComparator(sortCompare) ==> IsComparator(r)
  {
    AscendingIsComparator(TagDate);
    DescendingIsComparator(TagDate);
    OnIsComparator(sortCompare, TagName);
    ReversedIsComparator(On(sortCompare, TagName));
    if orderBy == "date:asc" then Ascending(TagDate)
    else if orderBy == "name:asc" then On(sortCompare, TagName)
    else if orderBy == "name:desc" then Reversed(On(sortCompare, TagName))
    else Descending(TagDate)
  }


  /** `sortTags` */
  method SortTags(tags: array<GitTag>, orderBy: Slot<string>, configured: string, sortCompare: (string, string) -> int)
    returns (sorted: array<GitTag>)
    requires IsComparator(sortCompare)
    modifies tags
    ensures sorted == tags
    ensures SortedBy(tags[..], TagOrder(MergedOrderBy(orderBy, configured), sortCompare))
    ensures multiset(tags[..]) == multiset(old(tags[..]))
  {
    var order := MergedOrderBy(orderBy, configured);
    SortInPlace(tags, TagOrder(order, sortCompare));
    sorted := tags;
  }

  /** The default `date:desc` puts the newer tag first, reading a missing date as 0. */
  lemma SortedTagsNewestFirst(orderBy: string, sortCompare: (string, string) -> int, s: seq<GitTag>, i: nat, j: nat)
    requires orderBy !in {"date:asc", "name:asc", "name:desc"}
    requires SortedBy(s, TagOrder(orderBy, sortCompare))
    requires i < j < |s|
    ensures TagDate(s[i]) >= TagDate(s[j])
  {
    assert TagOrder(orderBy, sortCompare)(s[i], s[j]) <= 0;
  }

  // --------------------------------------------------------------- worktrees

  /** The fields of a `GitWorktree` that the worktree orderings read. */
  datatype GitWorktree = GitWorktree(
    name: string,
    /** `opened` */
    isOpened: bool,
    isDefault: bool,
    /** `hasChanges`, where `None` is `null` (not yet known) */
    hasChanges: Option<bool>,
    /** `date?.getTime()` */
    date: Option<int>)

  datatype WorktreeQuickPickItem = WorktreeQuickPickItem(item: GitWorktree)

  function WorktreeName(w: GitWorktree): string { w.name }
  function WorktreeDate(w: GitWorktree): int { w.date.GetOr(-1) }

  /** `hasChanges === null ? 0 : hasChanges ? -1 : 1`: changes, then unknown, then clean. */
  function ChangesRank(w: GitWorktree): int {
    if w.hasChanges.None? then 0 else if w.hasChanges.value then -1 else 1
  }

  function IsOpened(w: GitWorktree): bool { w.isOpened }
  function IsDefault(w: GitWorktree): bool { w.isDefault }

  /** Opened worktrees first, then the default one: how every worktree ordering starts. */
  function WorktreeLead(): (r: (GitWorktree, GitWorktree) -> int)
    ensures IsComparator(r)
  {
    FirstIfIsComparator(IsOpened);
    FirstIfIsComparator(IsDefault);
    ThenIsComparator(FirstIf(IsOpened), FirstIf(IsDefault));
    Then(FirstIf(IsOpened), FirstIf(IsDefault))
  }

  /** The tie-breaks after the leading two, which differ between the orderings. */
  function WorktreeTail(orderBy: string, sortCompare: (string, string) -> int): (r: (GitWorktree, GitWorktree) -> int)
    ensures IsComparator(sortCompare) ==> IsComparator(r)
  {
    var byName := On(sortCompare, WorktreeName);
    AscendingIsComparator(ChangesRank);
    AscendingIsComparator(WorktreeDate);
    DescendingIsComparator(WorktreeDate);
    OnIsComparator(sortCompare, WorktreeName);
    ReversedIsComparator(byName);
    if orderBy == "date:asc" then
      ThenIsComparator(Ascending(WorktreeDate), byName);
      ThenIsComparator(Ascending(ChangesRank), Then(Ascending(WorktreeDate), byName));
      Then(Ascending(ChangesRank), Then(Ascending(WorktreeDate), byName))
    else if orderBy == "name:asc" then
      ThenIsComparator(PinnedNames(WorktreeName), byName);
      ThenIsComparator(Ascending(ChangesRank), Then(PinnedNames(WorktreeName), byName));
      Then(Ascending(ChangesRank), Then(PinnedNames(WorktreeName), byName))
    else if orderBy == "name:desc" then
      ThenIsComparator(PinnedNames(WorktreeName), Reversed(byName));
      ThenIsComparator(Ascending(ChangesRank), Then(PinnedNames(WorktreeName), Reversed(byName)));
      Then(Ascending(ChangesRank), Then(PinnedNames(WorktreeName), Reversed(byName)))
    else
      ThenIsComparator(Ascending(ChangesRank), Reversed(byName));
      ThenIsComparator(Descending(WorktreeDate), Then(Ascending(ChangesRank), Reversed(byName)));
      Then(Descending(WorktreeDate), Then(Ascending(ChangesRank), Reversed(byName)))
  }

  /** The comparator of `sortWorktrees` on the unwrapped worktrees, consistent whenever `sortCompare` is. */
  function WorktreeOrder(orderBy: string, sortCompare: (string, string) -> int): (r: (GitWorktree, GitWorktree) -> int)
    ensures IsComparator(sortCompare) ==> IsComparator(r)
  {
    ThenIsComparator(WorktreeLead(), WorktreeTail(orderBy, sortCompare));
    Then(WorktreeLead(), WorktreeTail(orderBy, sortCompare))
  }


  function WorktreeItem(i: WorktreeQuickPickItem): GitWorktree { i.item }

  /** `sortWorktrees` on an array of worktrees. */
  method SortWorktrees(worktrees: array<GitWorktree>, orderBy: Slot<string>, configured: string,
                       sortCompare: (string, string) -> int)
    returns (sorted: array<GitWorktree>)
    requires IsComparator(sortCompare)
    modifies worktrees
    ensures sorted == worktrees
    ensures SortedBy(worktrees[..], WorktreeOrder(MergedOrderBy(orderBy, configured), sortCompare))
    ensures multiset(worktrees[..]) == multiset(old(worktrees[..]))
  {
    var order := MergedOrderBy(orderBy, configured);
    SortInPlace(worktrees, WorktreeOrder(order, sortCompare));
    sorted := worktrees;
  }

  /** `sortWorktrees` on an array of quick-pick items, ordered by the worktrees they wrap. */
  method SortWorktreeItems(items: array<WorktreeQuickPickItem>, orderBy: Slot<string>, configured: string,
                           sortCompare: (string, string) -> int)
    returns (sorted: array<WorktreeQuickPickItem>)
    requires IsComparator(sortCompare)
    modifies items
    ensures sorted == items
    ensures SortedBy(items[..], On(WorktreeOrder(MergedOrderBy(orderBy, configured), sortCompare), WorktreeItem))
    ensures multiset(items[..]) == multiset(old(items[..]))
  {
    var order := MergedOrderBy(orderBy, configured);
    OnIsComparator(WorktreeOrder(order, sortCompare), WorktreeItem);
    SortInPlace(items, On(WorktreeOrder(order, sortCompare), WorktreeItem));
    sorted := items;
  }

  /** A worktree ordering is decided by opened/default unless both tie, and by the rest otherwise. */
  lemma WorktreeOrderAt(orderBy: string, sortCompare: (string, string) -> int, x: GitWorktree, y: GitWorktree)
    ensures WorktreeLead()(x, y) == 0 <==> x.isOpened == y.isOpened && x.isDefault == y.isDefault
    ensures x.isOpened && !y.isOpened ==> WorktreeLead()(x, y) < 0
    ensures x.isOpened == y.isOpened && x.isDefault && !y.isDefault ==> WorktreeLead()(x, y) < 0
    ensures WorktreeOrder(orderBy, sortCompare)(x, y)
      == if WorktreeLead()(x, y) != 0 then WorktreeLead()(x, y) else WorktreeTail(orderBy, sortCompare)(x, y)
  {
    assert IsOpened(x) == x.isOpened && IsOpened(y) == y.isOpened;
    assert IsDefault(x) == x.isDefault && IsDefault(y) == y.isDefault;
    assert FirstIf(IsOpened)(x, y) == (if x.isOpened then -1 else 1) - (if y.isOpened then -1 else 1);
    assert FirstIf(IsDefault)(x, y) == (if x.isDefault then -1 else 1) - (if y.isDefault then -1 else 1);
  }

  /**
   * Every worktree ordering puts opened worktrees first, then the default
   * one.  After those, `date:desc` (the default) puts the newer worktree
   * first, reading a missing date as -1; the other orderings rank a
   * worktree with changes before one whose state is unknown (`null`), and
   * that before a clean one.
   */
  lemma WorktreeTieBreaks(orderBy: string, sortCompare: (string, string) -> int, x: GitWorktree, y: GitWorktree)
    ensures x.isOpened && !y.isOpened ==> WorktreeOrder(orderBy, sortCompare)(x, y) < 0
    ensures x.isOpened == y.isOpened && x.isDefault && !y.isDefault ==> WorktreeOrder(orderBy, sortCompare)(x, y) < 0
    ensures orderBy in {"date:asc", "name:asc", "name:desc"} && x.isOpened == y.isOpened && x.isDefault == y.isDefault
      && x.hasChanges == Some(true) && y.hasChanges != Some(true)
      ==> WorktreeOrder(orderBy, sortCompare)(x, y) < 0
    ensures orderBy in {"date:asc", "name:asc", "name:desc"} && x.isOpened == y.isOpened && x.isDefault == y.isDefault
      && x.hasChanges.None? && y.hasChanges == Some(false)
      ==> WorktreeOrder(orderBy, sortCompare)(x, y) < 0
    ensures orderBy !in {"date:asc", "name:asc", "name:desc"} && x.isOpened == y.isOpened && x.isDefault == y.isDefault
      && WorktreeDate(x) > WorktreeDate(y)
      ==> WorktreeOrder(orderBy, sortCompare)(x, y) < 0
  {
    WorktreeOrderAt(orderBy, sortCompare, x, y);
    var changes := Ascending(ChangesRank)(x, y);
    assert changes == ChangesRank(x) - ChangesRank(y);
    assert Descending(WorktreeDate)(x, y) == WorktreeDate(y) - WorktreeDate(x);
  }

  /**
   * `name:asc` and `name:desc` pin `main`, `master` and `develop`, in that
   * order, once opened, default and changes tie.
   */
  lemma PinnedWorktreeNames(orderBy: string, sortCompare: (string, string) -> int, x: GitWorktree, y: GitWorktree)
    requires orderBy == "name:asc" || orderBy == "name:desc"
    requires x.isOpened == y.isOpened && x.isDefault == y.isDefault && ChangesRank(x) == ChangesRank(y)
    ensures x.name == "main" && y.name != "main" ==> WorktreeOrder(orderBy, sortCompare)(x, y) < 0
    ensures x.name == "master" && y.name != "main" && y.name != "master" ==> WorktreeOrder(orderBy, sortCompare)(x, y) < 0
    ensures x.name == "develop" && y.name !in {"main", "master", "develop"} ==> WorktreeOrder(orderBy, sortCompare)(x, y) < 0
  {
    WorktreeOrderAt(orderBy, sortCompare, x, y);
    PinnedNamesAt(WorktreeName, x, y);
    assert Ascending(ChangesRank)(x, y) == 0;
  }
}
