/** Splitting the repository list into batches of four and naming each
    repository's field in the batched GraphQL query.  The query text itself is
    not modelled: a request is the owner, the optional `since` bound and the
    (alias, repository name) pairs that the query string enumerates. */
module Batching {
  import opened Seqs

  /** Both builds call `chunks(repos, 4)`. */
  const BatchSize: nat := 4

  function Min(a: int, b: int): int { if a <= b then a else b }

  /** `array.slice(begin, end)` for non-negative bounds: both are clamped to the length. */
  function Slice<T>(a: seq<T>, begin: nat, end: nat): seq<T>
  {
    var b := Min(begin, |a|);
    var e := if end < b then b else Min(end, |a|);
    a[b..e]
  }

  /** `Math.ceil(n / k)` for a natural `n` and a positive `k`. */
  function CeilDiv(n: nat, k: nat): nat
    requires k > 0
  {
    (n + k - 1) / k
  }

  /** index.js `chunks` (`Array.from` over `ceil(n / k)` slices) and github.ts
      `chunks` (`Array(ceil(n / k))` mapped to the same slices). */
  function Chunks<T>(a: seq<T>, k: nat): (r: seq<seq<T>>)
    requires k > 0
    ensures |r| == CeilDiv(|a|, k)
  {
    seq(CeilDiv(|a|, k), i requires 0 <= i => Slice(a, i * k, (i + 1) * k))
  }

  lemma CeilDivBounds(n: nat, k: nat)
    requires k > 0
    ensures CeilDiv(n, k) * k >= n
    ensures n > 0 ==> (CeilDiv(n, k) - 1) * k < n
  {
    var q, r := (n + k - 1) / k, (n + k - 1) % k;
    assert n + k - 1 == q * k + r;
    assert (q - 1) * k == q * k - k;
  }

  /** Chunk `i` starts inside the list. */
  lemma ChunkStart(n: nat, k: nat, i: nat)
    requires k > 0 && i < CeilDiv(n, k)
    ensures i * k < n
    ensures (i + 1) * k == i * k + k
  {
    CeilDivBounds(n, k);
    var q := CeilDiv(n, k);
    var d: nat := q - 1 - i;
    assert (q - 1) * k == i * k + d * k;
    assert d * k >= 0;
  }

  /** The shape of the batches: every chunk is non-empty and holds at most `k`
      repositories, and every chunk but the last holds exactly `k`. */
  lemma {:induction false} ChunkSizes<T>(a: seq<T>, k: nat)
    requires k > 0
    ensures forall i :: 0 <= i < |Chunks(a, k)| ==> 0 < |Chunks(a, k)[i]| <= k
    ensures forall i :: 0 <= i < |Chunks(a, k)| - 1 ==> |Chunks(a, k)[i]| == k
  {
    var c := Chunks(a, k);
    forall i | 0 <= i < |c|
      ensures 0 < |c[i]| <= k
      ensures i < |c| - 1 ==> |c[i]| == k
    {
      ChunkStart(|a|, k, i);
      if i < |c| - 1 {
        ChunkStart(|a|, k, i + 1);
        assert (i + 1) * k < |a|;
      }
    }
  }

  /** The first `m` chunks concatenate to the first `m * k` repositories. */
  lemma {:induction false} ChunksPrefix<T>(a: seq<T>, k: nat, m: nat)
    requires k > 0 && m <= CeilDiv(|a|, k)
    ensures Flatten(Chunks(a, k)[..m]) == a[..Min(m * k, |a|)]
  {
    var c := Chunks(a, k);
    if m > 0 {
      ChunksPrefix(a, k, m - 1);
      ChunkStart(|a|, k, m - 1);
      assert c[..m][..m - 1] == c[..m - 1];
      assert (m - 1) * k + k == m * k;
      assert a[..(m - 1) * k] + a[(m - 1) * k..Min(m * k, |a|)] == a[..Min(m * k, |a|)];
    }
  }

  /** Concatenating the batches gives back the repository list in order. */
  lemma ChunksConcat<T>(a: seq<T>, k: nat)
    requires k > 0
    ensures Flatten(Chunks(a, k)) == a
  {
    var c := Chunks(a, k);
    ChunksPrefix(a, k, |c|);
    CeilDivBounds(|a|, k);
    assert c[..|c|] == c;
  }

  /** Ten repositories go out in three requests of four, four and two, and
      the requests together name them in their original order. */
  lemma ChunkingTenRepos<T>(a: seq<T>)
    requires |a| == 10
    ensures var c := Chunks(a, BatchSize);
      && |c| == 3 && c[0] == a[..4] && c[1] == a[4..8] && c[2] == a[8..]
      && Flatten(c) == a
  {
    ChunksConcat(a, BatchSize);
  }

  // ---------------------------------------------------------------------------
  // Aliases

  /** One field of a batched query: `alias:repository(owner: ..., name: "name")`. */
  datatype AliasedRepo = AliasedRepo(alias: string, name: string)

  /** One batched request; `since` is the lower bound of the commit history
      query and `None` for index.js's open-PR query, which has no history part. */
  datatype BatchRequest = BatchRequest(owner: string, since: Option<string>, fields: seq<AliasedRepo>)

  function RepoNames(fields: seq<AliasedRepo>): seq<string>
  {
    seq(|fields|, i requires 0 <= i < |fields| => fields[i].name)
  }

  predicate AliasesDistinct(fields: seq<AliasedRepo>)
  {
    forall i, j :: 0 <= i < j < |fields| ==> fields[i].alias != fields[j].alias
  }

  predicate IsLetter(c: char) { 'a' <= c <= 'z' || 'A' <= c <= 'Z' }
  predicate IsDigit(c: char) { '0' <= c <= '9' }
  predicate IsAlphanumeric(c: char) { IsLetter(c) || IsDigit(c) }

  /** A GraphQL Name (section 2.1.9 of the GraphQL specification, October 2021):
      a letter or `_`, then letters, digits and `_`. */
  predicate IsGraphQLName(s: string)
  {
    |s| > 0 && (IsLetter(s[0]) || s[0] == '_')
    && forall c :: c in s ==> IsAlphanumeric(c) || c == '_'
  }

  function DigitChar(d: nat): char
    requires d < 10
  {
    ['0', '1', '2', '3', '4', '5', '6', '7', '8', '9'][d]
  }

  /** `String(n)` for a natural number: its decimal digits. */
  function Decimal(n: nat): (s: string)
    ensures |s| > 0 && forall c :: c in s ==> IsDigit(c)
  {
    if n < 10 then [DigitChar(n)] else Decimal(n / 10) + [DigitChar(n % 10)]
  }

  function DigitValue(c: char): nat
  {
    if IsDigit(c) then (c as int - '0' as int) else 0
  }

  function ParseDecimal(s: string): nat
  {
    if s == [] then 0 else ParseDecimal(s[..|s| - 1]) * 10 + DigitValue(s[|s| - 1])
  }

  /** Reading back the digits of `n` gives `n`. */
  lemma {:induction false} DecimalRoundTrip(n: nat)
    ensures ParseDecimal(Decimal(n)) == n
  {
    if n < 10 {
      assert Decimal(n)[..0] == [];
    } else {
      DecimalRoundTrip(n / 10);
      var s := Decimal(n);
      assert s[..|s| - 1] == Decimal(n / 10);
    }
  }

  /** github.ts `'alias' + index`. */
  function IndexAlias(i: nat): string
  {
    "alias" + Decimal(i)
  }

  lemma IndexAliasInjective(i: nat, j: nat)
    requires IndexAlias(i) == IndexAlias(j)
    ensures i == j
  {
    assert IndexAlias(i)[5..] == Decimal(i);
    assert IndexAlias(j)[5..] == Decimal(j);
    DecimalRoundTrip(i);
    DecimalRoundTrip(j);
  }

  /** github.ts `BatchQueryPRs`: repository `i` of the batch is aliased
      `alias<i>`, so aliases are valid GraphQL names and pairwise distinct. */
  function BatchQueryPRs(owner: string, repos: seq<string>, since: string): (r: BatchRequest)
    ensures RepoNames(r.fields) == repos
    ensures AliasesDistinct(r.fields)
    ensures forall i :: 0 <= i < |r.fields| ==> IsGraphQLName(r.fields[i].alias)
    ensures r.owner == owner && r.since == Some(since)
  {
    var fields := seq(|repos|, i requires 0 <= i < |repos| => AliasedRepo(IndexAlias(i), repos[i]));
    forall i, j | 0 <= i < j < |fields| ensures fields[i].alias != fields[j].alias {
      if fields[i].alias == fields[j].alias {
        IndexAliasInjective(i, j);
      }
    }
    BatchRequest(owner, Some(since), fields)
  }

  /** github.ts `maxConcurrentBatchQueryPRs`: one request per chunk of four,
      each naming exactly its chunk's repositories. */
  function MaxConcurrentBatchQueryPRs(owner: string, repos: seq<string>, since: string): (r: seq<BatchRequest>)
    ensures |r| == CeilDiv(|repos|, BatchSize)
    ensures forall i :: 0 <= i < |r| ==> RepoNames(r[i].fields) == Chunks(repos, BatchSize)[i]
    ensures forall i :: 0 <= i < |r| ==> AliasesDistinct(r[i].fields) && 0 < |r[i].fields| <= BatchSize
    ensures forall i, j :: 0 <= i < |r| && 0 <= j < |r[i].fields| ==> IsGraphQLName(r[i].fields[j].alias)
  {
    var c := Chunks(repos, BatchSize);
    ChunkSizes(repos, BatchSize);
    seq(|c|, i requires 0 <= i < |c| => BatchQueryPRs(owner, c[i], since))
  }

  /** index.js alias: `repo.replace(/[^a-zA-Z0-9]/g, '')`. */
  function StripAlias(repo: string): string
  {
    Filter(repo, IsAlphanumeric)
  }

  datatype BatchKind = Open | Recent

  /** index.js `buildBatchQuery`: the stripped name is the alias; only the
      recent-commit query substitutes `sinceDateTime`. */
  function BuildBatchQuery(kind: BatchKind, owner: string, repos: seq<string>, since: string): (r: BatchRequest)
    ensures RepoNames(r.fields) == repos
    ensures forall i :: 0 <= i < |r.fields| ==> r.fields[i].alias == StripAlias(repos[i])
    ensures r.since == (if kind == Recent then Some(since) else None)
  {
    var fields := seq(|repos|, i requires 0 <= i < |repos| => AliasedRepo(StripAlias(repos[i]), repos[i]));
    BatchRequest(owner, if kind == Recent then Some(since) else None, fields)
  }

  /** index.js `fetchBatchQueries`: one request per chunk of four. */
  function FetchBatchQueries(kind: BatchKind, owner: string, repos: seq<string>, since: string): (r: seq<BatchRequest>)
    ensures |r| == CeilDiv(|repos|, BatchSize)
    ensures forall i :: 0 <= i < |r| ==> RepoNames(r[i].fields) == Chunks(repos, BatchSize)[i]
  {
    var c := Chunks(repos, BatchSize);
    seq(|c|, i requires 0 <= i < |c| => BuildBatchQuery(kind, owner, c[i], since))
  }

  /** Two different repository names in one batch can strip to the same alias,
      so index.js can send a query with two conflicting `ab:` fields. */
  lemma StripAliasesCollide(kind: BatchKind, owner: string, since: string)
    ensures var r := BuildBatchQuery(kind, owner, ["a-b", "ab"], since);
      "a-b" != "ab" && !AliasesDistinct(r.fields)
  {
    var r := BuildBatchQuery(kind, owner, ["a-b", "ab"], since);
    assert StripAlias("ab") == "ab";
    assert StripAlias("a-b") == "ab" by {
      assert "a-b"[1..] == "-b";
      assert "-b"[1..] == "b";
    }
    assert r.fields[0].alias == r.fields[1].alias;
  }

  /** A repository whose name starts with a digit gets an alias that is not a
      GraphQL name, so index.js sends a query the endpoint cannot parse. */
  lemma StripAliasNotAName(name: string)
    requires name == "1password"
    ensures !IsGraphQLName(StripAlias(name))
  {
    assert name == ['1'] + name[1..];
    assert StripAlias(name) == ['1'] + Filter(name[1..], IsAlphanumeric);
  }
}
