/** The React build's state (App.tsx): the reducer over its actions, the
    keyboard shortcuts, the effects that resolve the team and fetch pull
    requests, and the two display filters. */
module App {
  import opened Seqs
  import opened Records
  import opened Responses
  import opened RecentMerges
  import opened OpenPulls
  import opened GithubQuery
  import IndexFetch
  import Classify

  datatype Config = Config(token: string, owner: string, team: string, repos: seq<string>,
                           pollingInterval: int, ignoreRepos: seq<string>)

  /** `Partial<AppState['config']>`: a key that is `None` is not in the payload. */
  datatype ConfigPatch = ConfigPatch(token: Option<string>, owner: Option<string>, team: Option<string>,
                                     repos: Option<seq<string>>, pollingInterval: Option<int>,
                                     ignoreRepos: Option<seq<string>>)

  datatype AppState = AppState(config: Config, PRs: seq<PullRequest>, recentPRs: seq<RecentPR>,
                               intervalInput: int, showDependabotPRs: bool, showMasterPRs: bool,
                               showKeyboardShortcuts: bool, showRecentPRs: bool, showRepoLinks: bool)

  /** `AppAction`; `Other` is any other `type`, which the reducer's `default`
      answers. */
  datatype AppAction =
    | SetConfig(patch: ConfigPatch)
    | SetPRs(prs: seq<PullRequest>)
    | SetRecentPRs(recent: seq<RecentPR>)
    | SetIntervalInput(input: int)
    | ToggleDependabot
    | ToggleMaster
    | ToggleKeyboardShortcuts
    | ToggleRecentPRs
    | ToggleRepoLinks
    | ResetRepos
    | Other

  predicate IsToggle(a: AppAction)
  {
    a.ToggleDependabot? || a.ToggleMaster? || a.ToggleKeyboardShortcuts? || a.ToggleRecentPRs? || a.ToggleRepoLinks?
  }

  /** The stored settings are parameters: `localStorage` is not modelled. */
  function InitialState(stored: Config): (s: AppState)
    ensures s.config == stored && s.PRs == [] && s.recentPRs == [] && s.intervalInput == 60
    ensures s.showMasterPRs
    ensures !s.showDependabotPRs && !s.showKeyboardShortcuts && !s.showRecentPRs && !s.showRepoLinks
  {
    AppState(stored, [], [], 60, false, true, false, false, false)
  }

  function Patched<T>(current: T, key: Option<T>): T
  {
    if key.Some? then key.value else current
  }

  /** `{ ...config, ...payload }`. */
  function ApplyPatch(c: Config, p: ConfigPatch): (r: Config)
    ensures p.token.None? ==> r.token == c.token
    ensures p.owner.None? ==> r.owner == c.owner
    ensures p.team.None? ==> r.team == c.team
    ensures p.repos.None? ==> r.repos == c.repos
    ensures p.pollingInterval.None? ==> r.pollingInterval == c.pollingInterval
    ensures p.ignoreRepos.None? ==> r.ignoreRepos == c.ignoreRepos
  {
    Config(Patched(c.token, p.token), Patched(c.owner, p.owner), Patched(c.team, p.team),
           Patched(c.repos, p.repos), Patched(c.pollingInterval, p.pollingInterval),
           Patched(c.ignoreRepos, p.ignoreRepos))
  }

  /** `appReducer`. Only the configuration actions touch `config`, only
      `SET_PRS` and `RESET_REPOS` touch the open list, only `SET_RECENT_PRS` and
      `RESET_REPOS` the recent list, and an unknown action changes nothing.
      Each setter writes its payload into its own key and nothing else, and
      only a toggle changes one of the five flags. */
  function AppReducer(s: AppState, a: AppAction): (r: AppState)
    ensures r.config != s.config ==> a.SetConfig? || a.ResetRepos?
    ensures r.PRs != s.PRs ==> a.SetPRs? || a.ResetRepos?
    ensures r.recentPRs != s.recentPRs ==> a.SetRecentPRs? || a.ResetRepos?
    ensures r.intervalInput != s.intervalInput ==> a.SetIntervalInput?
    ensures a.Other? ==> r == s
    ensures a.SetConfig? ==> r == s.(config := ApplyPatch(s.config, a.patch))
    ensures a.SetPRs? ==> r == s.(PRs := a.prs)
    ensures a.SetRecentPRs? ==> r == s.(recentPRs := a.recent)
    ensures a.SetIntervalInput? ==> r == s.(intervalInput := a.input)
    ensures !IsToggle(a) ==> FlagsOf(r) == FlagsOf(s)
  {
    match a
    case SetConfig(p) => s.(config := ApplyPatch(s.config, p))
    case SetPRs(prs) => s.(PRs := prs)
    case SetRecentPRs(recent) => s.(recentPRs := recent)
    case SetIntervalInput(input) => s.(intervalInput := input)
    case ToggleDependabot => s.(showDependabotPRs := !s.showDependabotPRs)
    case ToggleMaster => s.(showMasterPRs := !s.showMasterPRs)
    case ToggleKeyboardShortcuts => s.(showKeyboardShortcuts := !s.showKeyboardShortcuts)
    case ToggleRecentPRs => s.(showRecentPRs := !s.showRecentPRs)
    case ToggleRepoLinks => s.(showRepoLinks := !s.showRepoLinks)
    case ResetRepos => s.(config := s.config.(repos := []), PRs := [], recentPRs := [])
    case Other => s
  }

  /** The five flags as one record, for stating what a toggle leaves alone. */
  datatype Flags = Flags(dependabot: bool, master: bool, shortcuts: bool, recent: bool, links: bool)

  function FlagsOf(s: AppState): Flags
  {
    Flags(s.showDependabotPRs, s.showMasterPRs, s.showKeyboardShortcuts, s.showRecentPRs, s.showRepoLinks)
  }

  /** A toggle flips exactly its own flag, leaves the data and the configuration
      alone, and applied twice gives back the state. */
  lemma ToggleFlipsOneFlag(s: AppState, a: AppAction)
    requires IsToggle(a)
    ensures var r := AppReducer(s, a);
      && r.config == s.config && r.PRs == s.PRs && r.recentPRs == s.recentPRs && r.intervalInput == s.intervalInput
      && (r.showDependabotPRs != s.showDependabotPRs <==> a.ToggleDependabot?)
      && (r.showMasterPRs != s.showMasterPRs <==> a.ToggleMaster?)
      && (r.showKeyboardShortcuts != s.showKeyboardShortcuts <==> a.ToggleKeyboardShortcuts?)
      && (r.showRecentPRs != s.showRecentPRs <==> a.ToggleRecentPRs?)
      && (r.showRepoLinks != s.showRepoLinks <==> a.ToggleRepoLinks?)
      && AppReducer(r, a) == s
  {
  }

  /** `SET_CONFIG` writes exactly the keys in its payload, is idempotent, and
      leaves everything outside `config` alone. */
  lemma SetConfigWritesPayload(s: AppState, p: ConfigPatch)
    ensures var c := AppReducer(s, SetConfig(p)).config;
      && (p.token.Some? ==> c.token == p.token.value) && (p.token.None? ==> c.token == s.config.token)
      && (p.owner.Some? ==> c.owner == p.owner.value) && (p.owner.None? ==> c.owner == s.config.owner)
      && (p.team.Some? ==> c.team == p.team.value) && (p.team.None? ==> c.team == s.config.team)
      && (p.repos.Some? ==> c.repos == p.repos.value)
      && (p.pollingInterval.Some? ==> c.pollingInterval == p.pollingInterval.value)
      && (p.pollingInterval.None? ==> c.pollingInterval == s.config.pollingInterval)
      && (p.ignoreRepos.Some? ==> c.ignoreRepos == p.ignoreRepos.value)
    ensures AppReducer(AppReducer(s, SetConfig(p)), SetConfig(p)) == AppReducer(s, SetConfig(p))
    ensures AppReducer(s, SetConfig(p)).(config := s.config) == s
  {
  }

  /** `RESET_REPOS` empties the repository list and both pull request lists and
      keeps the credentials, the ignore list and the flags; with credentials
      and a team set, the team is resolved again. */
  lemma ResetReposForgetsRepos(s: AppState)
    ensures var r := AppReducer(s, ResetRepos);
      && r.config.repos == [] && r.PRs == [] && r.recentPRs == []
      && r.config.(repos := s.config.repos) == s.config
      && FlagsOf(r) == FlagsOf(s) && r.intervalInput == s.intervalInput
      && (NeedsTeamRepos(r.config) <==> s.config.token != "" && s.config.owner != "" && s.config.team != "")
      && !ReadyToFetch(r.config)
  {
  }

  // ---------------------------------------------------------------------------
  // effects

  /** App.tsx:186: the team is resolved when the credentials and the team are set
      and no repositories are configured yet. */
  predicate NeedsTeamRepos(c: Config)
  {
    c.token != "" && c.owner != "" && c.team != "" && |c.repos| == 0
  }

  /** App.tsx:208 and 231: pull requests are fetched once credentials and
      repositories are set. */
  predicate ReadyToFetch(c: Config)
  {
    c.token != "" && c.owner != "" && |c.repos| > 0
  }

  /** App.tsx:248: without a token, owner and team the settings form is shown. */
  predicate ShowsSettingsForm(c: Config)
  {
    c.token == "" || c.owner == "" || c.team == ""
  }

  /** The two fetching effects never both fire, and neither fires while the
      settings form is shown for want of a token or owner. */
  lemma EffectsExclusive(c: Config)
    ensures !(NeedsTeamRepos(c) && ReadyToFetch(c))
    ensures NeedsTeamRepos(c) ==> !ShowsSettingsForm(c)
    ensures (c.token == "" || c.owner == "") ==> !NeedsTeamRepos(c) && !ReadyToFetch(c)
  {
  }

  /** `getTeamRepos` ends with `SET_CONFIG { repos: filteredRepos }`: a non-empty
      answer switches from resolving the team to fetching pull requests, while an
      empty answer leaves the gate of App.tsx:186 open, so the effect, which
      runs on every new `config` object, resolves the team again. */
  lemma TeamReposHandOver(s: AppState, filteredRepos: seq<string>)
    requires NeedsTeamRepos(s.config)
    ensures var r := AppReducer(s, SetConfig(ConfigPatch(None, None, None, Some(filteredRepos), None, None)));
      && (|filteredRepos| > 0 ==> ReadyToFetch(r.config) && !NeedsTeamRepos(r.config))
      && (|filteredRepos| == 0 ==> NeedsTeamRepos(r.config) && !ReadyToFetch(r.config))
  {
  }

  /** `getPRsFromGithub` and the `r` shortcut: query the non-ignored
      repositories against `server` (`None` when the request throws, which is
      caught and dispatches nothing), then `SET_PRS` and `SET_RECENT_PRS`. */
  method RefreshPRs(s: AppState, server: Option<Server>, since: string) returns (r: AppState)
    ensures server.None? ==> r == s
    ensures server.Some? ==>
      var entries := AllEntries(QueryResponses(server.value, s.config.owner,
                                               IndexFetch.ReposToQuery(s.config.repos, s.config.ignoreRepos), since));
      r == s.(PRs := OpenList(GithubCandidates(entries)), recentPRs := RecentList(RefHistories(entries)))
  {
    if server.None? {
      return s;
    }
    var filteredRepos := IndexFetch.ReposToQuery(s.config.repos, s.config.ignoreRepos);
    var recent, open := QueryPRs(server.value, s.config.owner, filteredRepos, since);
    r := AppReducer(s, SetPRs(open));
    r := AppReducer(r, SetRecentPRs(recent));
  }

  /** A refresh shows no pull request of an ignored repository. */
  lemma RefreshSkipsIgnored(s: AppState, server: Server, since: string, x: PullRequest)
    requires x in OpenList(GithubCandidates(AllEntries(QueryResponses(server, s.config.owner,
                 IndexFetch.ReposToQuery(s.config.repos, s.config.ignoreRepos), since))))
    ensures !x.isDraft
    ensures exists k :: 0 <= k < |s.config.repos| && s.config.repos[k] !in s.config.ignoreRepos
                        && s.config.repos[k] in server && x in server[s.config.repos[k]].pullRequests
  {
    var q := IndexFetch.ReposToQuery(s.config.repos, s.config.ignoreRepos);
    QueryOpenPRsMembership(server, s.config.owner, q, since, x);
    var k :| 0 <= k < |q| && q[k] in server && !server[q[k]].isArchived && x in server[q[k]].pullRequests;
    assert q[k] in q;
    var j :| 0 <= j < |s.config.repos| && s.config.repos[j] == q[k];
  }

  // ---------------------------------------------------------------------------
  // keyboard

  /** What one keydown asks for: a dispatch, or a refresh. */
  datatype KeyEffect = Dispatch(action: AppAction) | Refresh

  /** App.tsx:128-166: the independent `if`s in order, `\` under either of its
      key names and `?` only with Shift. */
  function KeyEffects(key: string, shiftKey: bool): (r: seq<KeyEffect>)
    ensures |r| <= 1
    ensures key !in {"d", "m", "a", "l", "r", "\\", "Backslash", "?"} ==> r == []
    ensures key == "?" ==> (r != [] <==> shiftKey)
  {
    (if key == "d" then [Dispatch(ToggleDependabot)] else [])
    + (if key == "m" then [Dispatch(ToggleMaster)] else [])
    + (if key == "a" then [Dispatch(ToggleRecentPRs)] else [])
    + (if key == "l" then [Dispatch(ToggleRepoLinks)] else [])
    + (if key == "r" then [Refresh] else [])
    + (if key == "\\" || key == "Backslash" then [Dispatch(ResetRepos)] else [])
    + (if key == "?" && shiftKey then [Dispatch(ToggleKeyboardShortcuts)] else [])
  }

  /** The keydown handler against `server` (`None`: the refresh throws). A
      refresh replaces both lists with the query's answer and nothing else. */
  method OnKeydown(s: AppState, key: string, shiftKey: bool, server: Option<Server>, since: string)
    returns (r: AppState)
    ensures KeyEffects(key, shiftKey) == [] ==> r == s
    ensures KeyEffects(key, shiftKey) == [Refresh] ==> FlagsOf(r) == FlagsOf(s) && r.config == s.config
    ensures KeyEffects(key, shiftKey) == [Refresh] && server.None? ==> r == s
    ensures KeyEffects(key, shiftKey) == [Refresh] && server.Some? ==>
      var entries := AllEntries(QueryResponses(server.value, s.config.owner,
                                               IndexFetch.ReposToQuery(s.config.repos, s.config.ignoreRepos), since));
      r == s.(PRs := OpenList(GithubCandidates(entries)), recentPRs := RecentList(RefHistories(entries)))
    ensures forall a :: KeyEffects(key, shiftKey) == [Dispatch(a)] ==> r == AppReducer(s, a)
  {
    var effects := KeyEffects(key, shiftKey);
    r := s;
    if effects != [] {
      match effects[0]
      case Dispatch(a) =>
        r := AppReducer(s, a);
      case Refresh =>
        r := RefreshPRs(s, server, since);
    }
  }

  /** `d`, `m`, `a`, `l` and Shift-`?` each flip their flag, pressed twice give
      back the state, and `\` forgets the repositories. */
  lemma ShortcutsToggle(s: AppState)
    ensures KeyEffects("d", false) == [Dispatch(ToggleDependabot)]
    ensures KeyEffects("m", false) == [Dispatch(ToggleMaster)]
    ensures KeyEffects("a", false) == [Dispatch(ToggleRecentPRs)]
    ensures KeyEffects("l", false) == [Dispatch(ToggleRepoLinks)]
    ensures KeyEffects("?", true) == [Dispatch(ToggleKeyboardShortcuts)]
    ensures KeyEffects("Backslash", false) == KeyEffects("\\", true) == [Dispatch(ResetRepos)]
    ensures KeyEffects("r", true) == [Refresh]
  {
  }

  // ---------------------------------------------------------------------------
  // display

  /** App.tsx:240-242: the React build applies the dependabot and master filters
      only, which is index.js's `displayPRs` with the needs-review filter off. */
  function AppDisplayPRs(s: AppState): (r: seq<PullRequest>)
    ensures r == Classify.DisplayPRs(s.showDependabotPRs, s.showMasterPRs, false, s.PRs)
  {
    Classify.FilterAll(Filter(Filter(s.PRs, pr => Classify.DependabotFilter(s.showDependabotPRs, pr)),
                              pr => Classify.MasterFilter(s.showMasterPRs, pr)),
                       pr => Classify.NeedsReviewFilter(false, pr));
    Filter(Filter(s.PRs, pr => Classify.DependabotFilter(s.showDependabotPRs, pr)),
           pr => Classify.MasterFilter(s.showMasterPRs, pr))
  }

  /** Shown pull requests are exactly the open ones that pass both filters. */
  lemma AppDisplayMembership(s: AppState, x: PullRequest)
    ensures x in AppDisplayPRs(s) <==>
      x in s.PRs && (s.showDependabotPRs || x.author != "dependabot")
      && (s.showMasterPRs || (x.baseRefName != "master" && x.baseRefName != "main"))
  {
    Classify.DisplayPRsMembership(s.showDependabotPRs, s.showMasterPRs, false, s.PRs, x);
  }
}
