/** The vanilla build's page state (index.js): the `state` object that
    `setState` replaces, the ignore-list toggle, the keyboard handler with its
    repository view and ignore mode, and the completions of the fetches the
    handler starts. */
module Radiator {
  import opened Seqs
  import opened Records
  import opened Responses
  import opened RecentMerges
  import IndexFetch

  /** index.js's `state`, with `config` flattened into its five keys. */
  datatype Dash = Dash(
    token: string, owner: string, team: string, repos: seq<string>, ignoreRepos: seq<string>,
    PRs: seq<PullRequest>, recentPRs: seq<RecentPR>,
    showDependabotPRs: bool, showMasterPRs: bool, showNeedsReviewPRs: bool,
    showRecentPRs: bool, showRepoLinks: bool, ignoreMode: bool,
    selectedRepoIndex: int, isFetchingOpenPRs: bool)

  /** What a key asks of the outside world besides the new state. */
  datatype Effect =
    | FetchOpen          // `fetchOpenPRs` with the current configuration
    | FetchRecent        // `fetchRecentPRs` with the current configuration
    | SaveIgnores(ignoreRepos: seq<string>)  // `PR_RADIATOR_IGNORE_REPOS` in local storage
    | SaveRepos(repos: seq<string>)          // `PR_RADIATOR_REPOS` in local storage
    | ResolveTeam        // `queryTeamRepos` then `filterTeamRepos`
    | ToggleOverlay      // show or hide the shortcuts overlay

  /** index.js:328-346, with the stored settings as parameters. */
  function InitialDash(token: string, owner: string, team: string, repos: seq<string>, ignoreRepos: seq<string>): (d: Dash)
    ensures d.selectedRepoIndex == -1 && d.showMasterPRs && d.PRs == [] && d.recentPRs == []
    ensures !d.showDependabotPRs && !d.showNeedsReviewPRs && !d.showRecentPRs && !d.showRepoLinks
    ensures !d.ignoreMode && !d.isFetchingOpenPRs
    ensures SelectionValid(d) && InBounds(d)
  {
    Dash(token, owner, team, repos, ignoreRepos, [], [], false, true, false, false, false, false, -1, false)
  }

  // ---------------------------------------------------------------------------
  // toggleIgnoreForRepo

  /** `indexOf`: the first index holding `x`, or -1. */
  function IndexOf(s: seq<string>, x: string): (i: int)
    ensures -1 <= i < |s|
    ensures i == -1 <==> x !in s
    ensures i >= 0 ==> s[i] == x && x !in s[..i]
  {
    if s == [] then -1
    else if s[0] == x then 0
    else
      var i := IndexOf(s[1..], x);
      assert s == [s[0]] + s[1..];
      if i == -1 then -1
      else
        assert s[..i + 1] == [s[0]] + s[1..][..i];
        i + 1
  }

  /** The ignore list after toggling `repo`: its first occurrence removed, or
      `repo` appended when absent. */
  function Toggled(ignoreRepos: seq<string>, repo: string): seq<string>
  {
    var index := IndexOf(ignoreRepos, repo);
    if index > -1 then ignoreRepos[..index] + ignoreRepos[index + 1..] else ignoreRepos + [repo]
  }

  predicate NoDuplicates(s: seq<string>)
  {
    forall i, j :: 0 <= i < j < |s| ==> s[i] != s[j]
  }

  lemma ToggledSplit(s: seq<string>, repo: string)
    requires repo in s
    ensures var index := IndexOf(s, repo);
      s == s[..index] + [repo] + s[index + 1..] && Toggled(s, repo) == s[..index] + s[index + 1..]
  {
    var index := IndexOf(s, repo);
    assert s == s[..index] + [s[index]] + s[index + 1..];
  }

  /** Every other repository is in the toggled list exactly when it was in the
      list before, in the same order. */
  lemma ToggledKeepsOthers(s: seq<string>, repo: string)
    ensures forall y :: y != repo ==> (y in Toggled(s, repo) <==> y in s)
    ensures Filter(Toggled(s, repo), y => y != repo) == Filter(s, y => y != repo)
  {
    var keep := (y: string) => y != repo;
    if repo in s {
      ToggledSplit(s, repo);
      var index := IndexOf(s, repo);
      var pre, post := s[..index], s[index + 1..];
      FilterAppend(pre + [repo], post, keep);
      FilterAppend(pre, [repo], keep);
      FilterAppend(pre, post, keep);
      assert Filter([repo], keep) == [];
    } else {
      FilterAppend(s, [repo], keep);
      assert Filter([repo], keep) == [];
    }
  }

  /** On a list without duplicates, toggling flips whether `repo` is in it and
      keeps it without duplicates. */
  lemma ToggledFlips(s: seq<string>, repo: string)
    requires NoDuplicates(s)
    ensures repo in Toggled(s, repo) <==> repo !in s
    ensures NoDuplicates(Toggled(s, repo))
  {
    if repo in s {
      ToggledSplit(s, repo);
      var index := IndexOf(s, repo);
      var pre, post := s[..index], s[index + 1..];
      assert repo !in post by {
        forall k | 0 <= k < |post| ensures post[k] != repo {
          assert post[k] == s[index + 1 + k];
        }
      }
      RemovedKeepsNoDuplicates(s, index);
    }
  }

  /** Removing one element keeps a list without duplicates. */
  lemma RemovedKeepsNoDuplicates(s: seq<string>, index: nat)
    requires NoDuplicates(s) && index < |s|
    ensures NoDuplicates(s[..index] + s[index + 1..])
  {
    var r := s[..index] + s[index + 1..];
    forall i, j | 0 <= i < j < |r| ensures r[i] != r[j] {
      var i' := if i < index then i else i + 1;
      var j' := if j < index then j else j + 1;
      assert r[i] == s[i'] && r[j] == s[j'];
    }
  }

  /** Toggling a repository that is not ignored, twice, gives back the list. */
  lemma ToggleTwice(s: seq<string>, repo: string)
    requires repo !in s
    ensures Toggled(Toggled(s, repo), repo) == s
  {
    var t := s + [repo];
    assert t[..|s|] == s;
    assert IndexOf(t, repo) == |s|;
    assert t[..|s|] + t[|s| + 1..] == s;
  }

  /** An index holding `x` with no `x` before it is the one `indexOf` finds. */
  lemma FirstIndex(s: seq<string>, x: string, k: nat)
    requires k < |s| && s[k] == x && x !in s[..k]
    ensures IndexOf(s, x) == k
  {
  }

  // ---------------------------------------------------------------------------
  // the key handler, as a function of the state

  /** Fetch gate of the handlers: token, owner and repositories are all set. */
  predicate CanFetch(d: Dash)
  {
    d.token != "" && d.owner != "" && |d.repos| > 0
  }

  /** `render` shows the settings form exactly when a token, owner or team is
      missing, and the handler then ignores every key. */
  predicate SettingsFormShown(d: Dash)
  {
    d.token == "" || d.owner == "" || d.team == ""
  }

  /** The keys the listener tells apart, by `event.key`. */
  datatype KeyName = Down | Up | Toggle | Dependabot | Master | NeedsReview | Recent | Links | Ignore
                   | Refresh | Reset | Help | Unbound

  function KeyNameOf(key: string): KeyName
  {
    if key == "j" || key == "ArrowDown" then Down
    else if key == "k" || key == "ArrowUp" then Up
    else if key == "Enter" || key == " " then Toggle
    else if key == "d" then Dependabot
    else if key == "m" then Master
    else if key == "n" then NeedsReview
    else if key == "a" then Recent
    else if key == "l" then Links
    else if key == "i" then Ignore
    else if key == "r" then Refresh
    else if key == "\\" then Reset
    else if key == "?" then Help
    else Unbound
  }

  predicate IsIgnoreModeKey(k: KeyName)
  {
    k.Down? || k.Up? || k.Toggle?
  }

  function Min(a: int, b: int): int { if a < b then a else b }
  function Max(a: int, b: int): int { if a < b then b else a }

  /** The ignore-mode switch (index.js:585-611) for `Down`, `Up` and `Toggle`.
      `repos[selectedRepoIndex]` past the end of `repos` toggles nothing here. */
  function IgnoreModeStep(d: Dash, k: KeyName): (e: Dash)
    ensures e == d.(selectedRepoIndex := e.selectedRepoIndex, ignoreRepos := e.ignoreRepos)
    ensures e.ignoreRepos != d.ignoreRepos ==> k == Toggle
  {
    if k == Down then
      if |d.repos| > 0 then d.(selectedRepoIndex := Min(|d.repos| - 1, d.selectedRepoIndex + 1)) else d
    else if k == Up then
      if |d.repos| > 0 then d.(selectedRepoIndex := Max(0, d.selectedRepoIndex - 1)) else d
    else if k == Toggle && |d.repos| > 0 && 0 <= d.selectedRepoIndex < |d.repos| then
      d.(ignoreRepos := Toggled(d.ignoreRepos, d.repos[d.selectedRepoIndex]))
    else d
  }

  /** Leaving the repository view or ignore mode saves the ignore list and
      refreshes the open list when it can. */
  function SaveAndRefresh(d: Dash): (effects: seq<Effect>)
    ensures FetchOpen in effects <==> CanFetch(d)
    ensures FetchRecent !in effects && ResolveTeam !in effects
  {
    if CanFetch(d) then [SaveIgnores(d.ignoreRepos), FetchOpen] else [SaveIgnores(d.ignoreRepos)]
  }

  /** The `handlers` table (index.js:616-697). `r` refetches the open list
      exactly when it can, and `a` fetches the recent list exactly when it opens
      the recent view and can fetch. */
  function HandlerStep(d: Dash, k: KeyName): (r: (Dash, seq<Effect>))
    ensures r.0.token == d.token && r.0.owner == d.owner && r.0.team == d.team
    ensures r.0.ignoreRepos == d.ignoreRepos
    ensures (FetchOpen in r.1 || FetchRecent in r.1) ==> CanFetch(d)
    ensures ResolveTeam in r.1 <==> k == Reset
    ensures r.0.repos != d.repos ==> k == Reset
    ensures k == Refresh ==> r.0 == d && (FetchOpen in r.1 <==> CanFetch(d))
    ensures k == Recent ==>
      r.0 == d.(showRecentPRs := !d.showRecentPRs) && (FetchRecent in r.1 <==> !d.showRecentPRs && CanFetch(d))
  {
    match k
    case Dependabot => (d.(showDependabotPRs := !d.showDependabotPRs), [])
    case Master => (d.(showMasterPRs := !d.showMasterPRs), [])
    case NeedsReview => (d.(showNeedsReviewPRs := !d.showNeedsReviewPRs), [])
    case Recent =>
      (d.(showRecentPRs := !d.showRecentPRs), if !d.showRecentPRs && CanFetch(d) then [FetchRecent] else [])
    case Links =>
      if !d.showRepoLinks then
        (d.(showRepoLinks := true, ignoreMode := false, selectedRepoIndex := 0, showRecentPRs := false), [])
      else
        (d.(showRepoLinks := false, ignoreMode := false, selectedRepoIndex := -1), SaveAndRefresh(d))
    case Ignore =>
      if !d.showRepoLinks then (d, [])
      else if d.ignoreMode then (d.(ignoreMode := false, selectedRepoIndex := -1), SaveAndRefresh(d))
      else (d.(ignoreMode := true, selectedRepoIndex := 0), [])
    case Refresh => (d, if CanFetch(d) then [FetchOpen] else [])
    case Reset => (d.(repos := [], PRs := [], recentPRs := []), [ResolveTeam])
    case Help => (d, [ToggleOverlay])
    case _ => (d, [])
  }

  /** `d`, `m` and `n` each flip exactly their own filter flag, ask for
      nothing, and pressed twice give back the state. */
  lemma HandlerFlipsOneFlag(d: Dash, k: KeyName)
    requires k == Dependabot || k == Master || k == NeedsReview
    ensures var r := HandlerStep(d, k);
      && r.1 == []
      && (r.0.showDependabotPRs != d.showDependabotPRs <==> k == Dependabot)
      && (r.0.showMasterPRs != d.showMasterPRs <==> k == Master)
      && (r.0.showNeedsReviewPRs != d.showNeedsReviewPRs <==> k == NeedsReview)
      && r.0.(showDependabotPRs := d.showDependabotPRs, showMasterPRs := d.showMasterPRs,
              showNeedsReviewPRs := d.showNeedsReviewPRs) == d
      && HandlerStep(r.0, k) == (d, [])
  {
  }

  /** The keydown listener (index.js:575-700): `inputFocused` is whether the
      focus is in an input field. The credentials and the team are never
      changed by a key; a fetch is asked for only when it can run; while the
      form is shown or an input has the focus nothing happens; and in ignore
      mode only the ignore-mode keys, `i` and `l` do anything. */
  function KeyStep(d: Dash, key: string, inputFocused: bool): (r: (Dash, seq<Effect>))
    ensures inputFocused || SettingsFormShown(d) ==> r == (d, [])
    ensures r.0.token == d.token && r.0.owner == d.owner && r.0.team == d.team
    ensures (FetchOpen in r.1 || FetchRecent in r.1) ==> CanFetch(d)
    ensures ResolveTeam in r.1 <==>
      KeyNameOf(key) == Reset && !inputFocused && !SettingsFormShown(d) && !(d.showRepoLinks && d.ignoreMode)
    ensures r.0.repos != d.repos ==> KeyNameOf(key) == Reset
    ensures r.0.ignoreRepos != d.ignoreRepos ==> d.ignoreMode && KeyNameOf(key) == Toggle
    ensures d.showRepoLinks && d.ignoreMode && !IsIgnoreModeKey(KeyNameOf(key)) && !KeyNameOf(key).Ignore? && !KeyNameOf(key).Links?
      ==> r == (d, [])
  {
    var k := KeyNameOf(key);
    if inputFocused || SettingsFormShown(d) then (d, [])
    else if d.showRepoLinks && d.ignoreMode && IsIgnoreModeKey(k) then (IgnoreModeStep(d, k), [])
    else if d.showRepoLinks && d.ignoreMode && k != Ignore && k != Links then (d, [])
    else HandlerStep(d, k)
  }

  /** Ignore mode only ever runs inside the repository view with a selection,
      the selection is -1 outside the view and -1 or 0 in its static mode. */
  predicate SelectionValid(d: Dash)
  {
    && (d.ignoreMode ==> d.showRepoLinks && d.selectedRepoIndex >= 0)
    && (!d.showRepoLinks ==> d.selectedRepoIndex == -1)
    && (d.showRepoLinks && !d.ignoreMode ==> d.selectedRepoIndex == -1 || d.selectedRepoIndex == 0)
  }

  /** In ignore mode with repositories, the selection points at one of them. */
  predicate InBounds(d: Dash)
  {
    d.ignoreMode && |d.repos| > 0 ==> d.selectedRepoIndex < |d.repos|
  }

  /** Every key keeps the selection invariants. */
  lemma KeyStepKeepsSelection(d: Dash, key: string, inputFocused: bool)
    requires SelectionValid(d) && InBounds(d)
    ensures SelectionValid(KeyStep(d, key, inputFocused).0) && InBounds(KeyStep(d, key, inputFocused).0)
  {
    var k := KeyNameOf(key);
    if !inputFocused && !SettingsFormShown(d) {
      if d.showRepoLinks && d.ignoreMode && IsIgnoreModeKey(k) {
        IgnoreModeKeepsSelection(d, k);
      } else {
        HandlerKeepsSelection(d, k);
      }
    }
  }

  lemma IgnoreModeKeepsSelection(d: Dash, k: KeyName)
    requires SelectionValid(d) && InBounds(d) && d.ignoreMode
    ensures SelectionValid(IgnoreModeStep(d, k)) && InBounds(IgnoreModeStep(d, k))
  {
  }

  lemma HandlerKeepsSelection(d: Dash, k: KeyName)
    requires SelectionValid(d) && InBounds(d)
    ensures SelectionValid(HandlerStep(d, k).0) && InBounds(HandlerStep(d, k).0)
  {
    match k
    case Links =>
    case Ignore =>
    case Reset =>
    case _ =>
  }

  /** In ignore mode `j`/`k` keep the selection on a repository, and Enter or
      space toggles the selected repository in the ignore list, touching no
      other entry; pressing it twice on a repository not yet ignored gives back
      the list. */
  lemma IgnoreModeKeys(d: Dash, key: string)
    requires SelectionValid(d) && InBounds(d) && d.ignoreMode && |d.repos| > 0
    requires !SettingsFormShown(d)
    ensures KeyNameOf(key) in {Down, Up} ==> 0 <= KeyStep(d, key, false).0.selectedRepoIndex < |d.repos|
    ensures KeyNameOf(key) == Toggle ==>
      var repo := d.repos[d.selectedRepoIndex];
      var e := KeyStep(d, key, false).0;
      && e.ignoreRepos == Toggled(d.ignoreRepos, repo)
      && (repo !in d.ignoreRepos ==> KeyStep(e, key, false).0.ignoreRepos == d.ignoreRepos)
  {
    if KeyNameOf(key) == Toggle && d.repos[d.selectedRepoIndex] !in d.ignoreRepos {
      ToggleTwice(d.ignoreRepos, d.repos[d.selectedRepoIndex]);
    }
  }

  /** Opening the repository view always starts in its static mode on the first
      repository and leaves the recent list; closing it from anywhere, ignore
      mode included, saves the ignore list. */
  lemma RepoViewOpensAndCloses(d: Dash)
    requires !SettingsFormShown(d)
    ensures !d.showRepoLinks ==>
      var e := KeyStep(d, "l", false);
      e.0.showRepoLinks && !e.0.ignoreMode && e.0.selectedRepoIndex == 0 && !e.0.showRecentPRs && e.1 == []
    ensures d.showRepoLinks ==>
      var e := KeyStep(d, "l", false);
      !e.0.showRepoLinks && !e.0.ignoreMode && e.0.selectedRepoIndex == -1
      && e.1[0] == SaveIgnores(d.ignoreRepos) && (FetchOpen in e.1 <==> CanFetch(d))
  {
    assert KeyNameOf("l") == Links;
  }

  // ---------------------------------------------------------------------------
  // the page object

  class Page {
    /** index.js's module-level `state`. */
    var state: Dash

    constructor(token: string, owner: string, team: string, repos: seq<string>, ignoreRepos: seq<string>)
      ensures state == InitialDash(token, owner, team, repos, ignoreRepos)
    {
      state := Dash(token, owner, team, repos, ignoreRepos, [], [], false, true, false, false, false, false, -1, false);
    }

    /** index.js:372-381: copy the list, find the repository with `indexOf`,
        splice it out or push it. */
    method ToggleIgnoreForRepo(repoName: string)
      modifies this
      ensures state == old(state).(ignoreRepos := Toggled(old(state).ignoreRepos, repoName))
    {
      var ignoreRepos := state.ignoreRepos;
      var index := -1;
      var k := 0;
      while k < |ignoreRepos|
        invariant 0 <= k <= |ignoreRepos|
        invariant repoName !in ignoreRepos[..k]
      {
        if ignoreRepos[k] == repoName {
          index := k;
          break;
        }
        assert ignoreRepos[..k + 1] == ignoreRepos[..k] + [ignoreRepos[k]];
        k := k + 1;
      }
      if index == -1 {
        assert ignoreRepos[..k] == ignoreRepos;
      } else {
        FirstIndex(ignoreRepos, repoName, index);
      }
      if index > -1 {
        ignoreRepos := ignoreRepos[..index] + ignoreRepos[index + 1..];
      } else {
        ignoreRepos := ignoreRepos + [repoName];
      }
      state := state.(ignoreRepos := ignoreRepos);
    }

    /** The keydown listener: each `setState` of the source is one assignment
        to `state`, and the effects are returned in the order they are started. */
    method OnKey(key: string, inputFocused: bool) returns (effects: seq<Effect>)
      modifies this
      ensures (state, effects) == KeyStep(old(state), key, inputFocused)
    {
      effects := [];
      if inputFocused || state.token == "" || state.owner == "" || state.team == "" {
        return;
      }
      var k := KeyNameOf(key);
      var showRepoLinks, ignoreMode := state.showRepoLinks, state.ignoreMode;
      if showRepoLinks && ignoreMode && (k == Down || k == Up || k == Toggle) {
        OnIgnoreModeKey(k);
        return;
      }
      if showRepoLinks && ignoreMode && k != Ignore && k != Links {
        return;
      }
      effects := RunHandler(k);
    }

    /** The `switch` of ignore mode (index.js:585-606). */
    method OnIgnoreModeKey(k: KeyName)
      requires IsIgnoreModeKey(k)
      modifies this
      ensures state == IgnoreModeStep(old(state), k)
    {
      match k {
        case Down =>
          if |state.repos| > 0 {
            var newIndex := Min(|state.repos| - 1, state.selectedRepoIndex + 1);
            state := state.(selectedRepoIndex := newIndex);
          }
        case Up =>
          if |state.repos| > 0 {
            var newIndex := Max(0, state.selectedRepoIndex - 1);
            state := state.(selectedRepoIndex := newIndex);
          }
        case Toggle =>
          if |state.repos| > 0 && 0 <= state.selectedRepoIndex < |state.repos| {
            var repo := state.repos[state.selectedRepoIndex];
            ToggleIgnoreForRepo(repo);
          }
      }
    }

    /** `handlers[event.key]()` (index.js:616-699). */
    method RunHandler(k: KeyName) returns (effects: seq<Effect>)
      modifies this
      ensures (state, effects) == HandlerStep(old(state), k)
    {
      effects := [];
      var showRepoLinks, ignoreMode := state.showRepoLinks, state.ignoreMode;
      var canFetch := state.token != "" && state.owner != "" && |state.repos| > 0;
      match k {
        case Dependabot =>
          state := state.(showDependabotPRs := !state.showDependabotPRs);
        case Master =>
          state := state.(showMasterPRs := !state.showMasterPRs);
        case NeedsReview =>
          state := state.(showNeedsReviewPRs := !state.showNeedsReviewPRs);
        case Recent =>
          var newShow := !state.showRecentPRs;
          state := state.(showRecentPRs := newShow);
          if newShow && canFetch {
            effects := [FetchRecent];
          }
        case Links =>
          var newShow := !showRepoLinks;
          if newShow {
            state := state.(showRepoLinks := newShow, ignoreMode := false, selectedRepoIndex := 0, showRecentPRs := false);
          } else {
            effects := if canFetch then [SaveIgnores(state.ignoreRepos), FetchOpen] else [SaveIgnores(state.ignoreRepos)];
            state := state.(showRepoLinks := newShow, ignoreMode := false, selectedRepoIndex := -1);
          }
        case Ignore =>
          if !showRepoLinks {
            return;
          }
          var newMode := !ignoreMode;
          if !newMode {
            effects := if canFetch then [SaveIgnores(state.ignoreRepos), FetchOpen] else [SaveIgnores(state.ignoreRepos)];
          }
          state := state.(ignoreMode := newMode, selectedRepoIndex := if newMode then 0 else -1);
        case Refresh =>
          if canFetch {
            effects := [FetchOpen];
          }
        case Reset =>
          state := state.(repos := [], PRs := [], recentPRs := []);
          effects := [ResolveTeam];
        case Help =>
          effects := [ToggleOverlay];
        case _ =>
      }
    }

    /** `fetchOpenPRs` run to completion against `server` (`None`: the
        request throws): the flag is raised and lowered, and the open list is
        replaced only when the walk succeeds. */
    method RunFetchOpen(server: Option<Server>)
      modifies this
      ensures var prs := if server.Some? then
                IndexFetch.IndexOpenPRs(IndexFetch.OpenResponses(server.value, old(state).owner, old(state).repos, old(state).ignoreRepos))
              else None;
        state == old(state).(PRs := if prs.Some? then prs.value else old(state).PRs, isFetchingOpenPRs := false)
    {
      state := state.(isFetchingOpenPRs := true);
      if server.Some? {
        var prs := IndexFetch.FetchOpenPRs(server.value, state.owner, state.repos, state.ignoreRepos);
        if prs.Some? {
          state := state.(PRs := prs.value);
        }
      }
      state := state.(isFetchingOpenPRs := false);
    }

    /** `fetchRecentPRs` run to completion against `server`: the recent list
        is replaced only when the walk succeeds. */
    method RunFetchRecent(server: Option<Server>, since: string)
      modifies this
      ensures var recent := if server.Some? then
                IndexFetch.IndexRecentPRs(IndexFetch.RecentResponses(server.value, old(state).owner, old(state).repos,
                                                                     old(state).ignoreRepos, since))
              else None;
        state == old(state).(recentPRs := if recent.Some? then recent.value else old(state).recentPRs)
    {
      if server.Some? {
        var recentPRs := IndexFetch.FetchRecentPRs(server.value, state.owner, state.repos, state.ignoreRepos, since);
        if recentPRs.Some? {
          state := state.(recentPRs := recentPRs.value);
        }
      }
    }

    /** The end of a team resolution (index.js:678-690): the repositories are
        saved and set, and the open list is fetched when there are any. */
    method TeamResolved(filteredRepos: seq<string>) returns (effects: seq<Effect>)
      modifies this
      ensures state == old(state).(repos := filteredRepos)
      ensures effects == (if |filteredRepos| > 0 then [SaveRepos(filteredRepos), FetchOpen] else [SaveRepos(filteredRepos)])
    {
      effects := [SaveRepos(filteredRepos)];
      state := state.(repos := filteredRepos);
      if |filteredRepos| > 0 {
        effects := effects + [FetchOpen];
      }
    }
  }
}
