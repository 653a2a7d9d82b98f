/** The GraphQL endpoint as the batched queries see it.  The network is not
    modelled: a server is the repository each name resolves to, and the response
    to a batch holds one entry per response key, in field order, `null` for a
    name that does not resolve.  The endpoint validates the whole document
    first (section 5.3.2 of the GraphQL specification, October 2021): fields
    under one alias are merged into one key when they are identical, two
    different fields under one alias are a conflict, and so is an alias that is
    not a GraphQL Name.  A conflicting batch is answered with `errors` and no
    `data`. */
module Responses {
  import opened Seqs
  import opened Records
  import opened Batching

  type Server = map<string, RepoEntry>

  /** Every repository is stored under the name it reports. */
  predicate NamesAreCanonical(server: Server)
  {
    forall name :: name in server ==> server[name].name == name
  }

  function Lookup(server: Server, name: string): Option<RepoEntry>
  {
    if name in server then Some(server[name]) else None
  }

  function LookupAll(server: Server, names: seq<string>): (r: seq<Option<RepoEntry>>)
    ensures |r| == |names|
  {
    seq(|names|, i requires 0 <= i < |names| => Lookup(server, names[i]))
  }

  function Aliases(fields: seq<AliasedRepo>): seq<string>
  {
    seq(|fields|, i requires 0 <= i < |fields| => fields[i].alias)
  }

  /** Two fields under one alias ask for the same repository. (Within one
      request the owner and the selection are the same for every field.) */
  predicate AliasesMergeable(fields: seq<AliasedRepo>)
  {
    forall i, j :: 0 <= i < j < |fields| && fields[i].alias == fields[j].alias ==> fields[i].name == fields[j].name
  }

  /** The endpoint runs a batch only when fields that share an alias can be
      merged and every alias is a GraphQL Name. */
  predicate Accepted(req: BatchRequest)
  {
    AliasesMergeable(req.fields) && forall i :: 0 <= i < |req.fields| ==> IsGraphQLName(req.fields[i].alias)
  }

  predicate AllAccepted(reqs: seq<BatchRequest>)
  {
    forall i :: 0 <= i < |reqs| ==> Accepted(reqs[i])
  }

  /** The keys of the response `data`: each alias once, with the field of its
      first occurrence, in order of first occurrence. */
  function MergeFields(fields: seq<AliasedRepo>): (r: seq<AliasedRepo>)
    ensures |r| <= |fields|
    ensures AliasesDistinct(r)
    ensures forall x :: x in r ==> x in fields
    ensures forall i :: 0 <= i < |fields| ==> fields[i].alias in Aliases(r)
  {
    if fields == [] then []
    else
      var p, last := fields[..|fields| - 1], fields[|fields| - 1];
      var m := MergeFields(p);
      assert forall i :: 0 <= i < |fields| - 1 ==> fields[i] == p[i];
      if last.alias in Aliases(m) then m
      else
        assert forall j :: 0 <= j < |m| ==> Aliases(m)[j] == m[j].alias;
        assert forall j :: 0 <= j < |m| ==> Aliases(m + [last])[j] == Aliases(m)[j];
        assert Aliases(m + [last])[|m|] == last.alias;
        m + [last]
  }

  /** Without repeated aliases nothing is merged. */
  lemma {:induction false} MergeDistinct(fields: seq<AliasedRepo>)
    ensures AliasesDistinct(fields) ==> MergeFields(fields) == fields
  {
    if fields != [] && AliasesDistinct(fields) {
      var p, last := fields[..|fields| - 1], fields[|fields| - 1];
      assert AliasesDistinct(p) by {
        forall i, j | 0 <= i < j < |p| ensures p[i].alias != p[j].alias {
          assert p[i] == fields[i] && p[j] == fields[j];
        }
      }
      MergeDistinct(p);
      assert last.alias !in Aliases(p) by {
        forall j | 0 <= j < |p| ensures Aliases(p)[j] != last.alias {
          assert Aliases(p)[j] == fields[j].alias;
        }
      }
      assert MergeFields(fields) == MergeFields(p) + [last];
    }
  }

  /** Merging mergeable fields drops no repository. */
  lemma MergedNames(fields: seq<AliasedRepo>)
    requires AliasesMergeable(fields)
    ensures forall n :: n in RepoNames(MergeFields(fields)) <==> n in RepoNames(fields)
  {
    var r := MergeFields(fields);
    forall n | n in RepoNames(fields) ensures n in RepoNames(r) {
      var i :| 0 <= i < |fields| && fields[i].name == n;
      var j :| 0 <= j < |r| && Aliases(r)[j] == fields[i].alias;
      assert r[j] in r;
      var k :| 0 <= k < |fields| && fields[k] == r[j];
      assert fields[k].alias == fields[i].alias;
      assert RepoNames(r)[j] == n;
    }
    forall n | n in RepoNames(r) ensures n in RepoNames(fields) {
      var j :| 0 <= j < |r| && r[j].name == n;
      assert r[j] in r;
      var k :| 0 <= k < |fields| && fields[k] == r[j];
      assert RepoNames(fields)[k] == n;
    }
  }

  /** The `data` of an accepted batch. */
  function Answer(server: Server, req: BatchRequest): BatchResponse
  {
    BatchResponse(LookupAll(server, RepoNames(MergeFields(req.fields))))
  }

  /** The `data` of each batch, for batches that are all accepted. */
  function Answers(server: Server, reqs: seq<BatchRequest>): (r: seq<BatchResponse>)
    ensures |r| == |reqs|
  {
    seq(|reqs|, i requires 0 <= i < |reqs| => Answer(server, reqs[i]))
  }

  /** One batch: `None` is a response without `data`. Otherwise there is one
      entry per distinct alias, and one per field when no alias repeats. */
  function Respond(server: Server, req: BatchRequest): (r: Option<BatchResponse>)
    ensures r.None? <==> !Accepted(req)
    ensures r.Some? ==> |r.value.entries| <= |req.fields|
    ensures r.Some? ==> forall e :: e in r.value.entries ==> exists n :: n in RepoNames(req.fields) && e == Lookup(server, n)
    ensures r.Some? && AliasesDistinct(req.fields) ==> r.value.entries == LookupAll(server, RepoNames(req.fields))
  {
    if Accepted(req) then
      var keys := RepoNames(MergeFields(req.fields));
      MergedNames(req.fields);
      assert forall k :: 0 <= k < |keys| ==> keys[k] in keys;
      MergeDistinct(req.fields);
      Some(Answer(server, req))
    else None
  }

  /** A repository asked for twice under one alias is answered once. */
  lemma RepeatedFieldAnsweredOnce(server: Server, owner: string, since: Option<string>)
    ensures var f := AliasedRepo("a", "a");
      Respond(server, BatchRequest(owner, since, [f, f])) == Respond(server, BatchRequest(owner, since, [f]))
      == Some(BatchResponse([Lookup(server, "a")]))
  {
    var f := AliasedRepo("a", "a");
    var twice, once := BatchRequest(owner, since, [f, f]), BatchRequest(owner, since, [f]);
    assert IsGraphQLName("a");
    assert Accepted(twice) && Accepted(once);
    MergeOfRepeated(f);
    assert Answer(server, twice) == Answer(server, once) == BatchResponse([Lookup(server, "a")]);
  }

  lemma MergeOfRepeated(f: AliasedRepo)
    ensures MergeFields([f, f]) == MergeFields([f]) == [f]
  {
    assert [f][..0] == [];
    assert Aliases([f]) == [f.alias];
    assert [f, f][..1] == [f];
  }

  /** `Promise.all` over the batches followed by the walk over their `data`:
      `Object.keys` of a missing `data` throws, so one rejected batch fails the
      whole fetch, which `None` stands for. */
  function RespondAll(server: Server, reqs: seq<BatchRequest>): (r: Option<seq<BatchResponse>>)
    ensures r.None? <==> exists i :: 0 <= i < |reqs| && Respond(server, reqs[i]).None?
    ensures r.Some? ==> |r.value| == |reqs| && forall i :: 0 <= i < |reqs| ==> Some(r.value[i]) == Respond(server, reqs[i])
  {
    if AllAccepted(reqs) then Some(Answers(server, reqs)) else None
  }

  function NamesOf(reqs: seq<BatchRequest>): (r: seq<seq<string>>)
    ensures |r| == |reqs|
  {
    seq(|reqs|, i requires 0 <= i < |reqs| => RepoNames(reqs[i].fields))
  }

  /** The repositories behind the response keys of each batch. */
  function KeysOf(reqs: seq<BatchRequest>): (r: seq<seq<string>>)
    ensures |r| == |reqs|
  {
    seq(|reqs|, i requires 0 <= i < |reqs| => RepoNames(MergeFields(reqs[i].fields)))
  }

  lemma LookupAllAppend(server: Server, a: seq<string>, b: seq<string>)
    ensures LookupAll(server, a + b) == LookupAll(server, a) + LookupAll(server, b)
  {
  }

  lemma {:induction false} AnswersFollowKeys(server: Server, reqs: seq<BatchRequest>)
    ensures AllEntries(Answers(server, reqs)) == LookupAll(server, Flatten(KeysOf(reqs)))
  {
    if reqs != [] {
      var p := reqs[..|reqs| - 1];
      AnswersFollowKeys(server, p);
      assert Answers(server, reqs)[..|reqs| - 1] == Answers(server, p);
      assert KeysOf(reqs)[..|reqs| - 1] == KeysOf(p);
      LookupAllAppend(server, Flatten(KeysOf(p)), RepoNames(MergeFields(reqs[|reqs| - 1].fields)));
    }
  }

  /** The responses fail exactly when some batch is rejected.  Otherwise their
      entries, taken batch after batch, are the lookups of the repositories
      behind the response keys, which are the requested repositories (each
      repeated one once per batch), and exactly the requested names in request
      order when no batch repeats an alias. */
  lemma EntriesFollowNames(server: Server, reqs: seq<BatchRequest>)
    ensures RespondAll(server, reqs).None? <==> exists i :: 0 <= i < |reqs| && !Accepted(reqs[i])
    ensures RespondAll(server, reqs).Some? ==>
      && AllEntries(RespondAll(server, reqs).value) == LookupAll(server, Flatten(KeysOf(reqs)))
      && forall n :: n in Flatten(KeysOf(reqs)) <==> n in Flatten(NamesOf(reqs))
    ensures RespondAll(server, reqs).Some? && (forall i :: 0 <= i < |reqs| ==> AliasesDistinct(reqs[i].fields)) ==>
      AllEntries(RespondAll(server, reqs).value) == LookupAll(server, Flatten(NamesOf(reqs)))
  {
    AnswersFollowKeys(server, reqs);
    if AllAccepted(reqs) {
      forall i | 0 <= i < |reqs| ensures forall n :: n in KeysOf(reqs)[i] <==> n in NamesOf(reqs)[i] {
        MergedNames(reqs[i].fields);
      }
      FlattenSameMembers(KeysOf(reqs), NamesOf(reqs));
      if forall i :: 0 <= i < |reqs| ==> AliasesDistinct(reqs[i].fields) {
        forall i | 0 <= i < |reqs| ensures KeysOf(reqs)[i] == NamesOf(reqs)[i] {
          MergeDistinct(reqs[i].fields);
        }
        assert KeysOf(reqs) == NamesOf(reqs);
      }
    }
  }

  /** When the batches are the consecutive chunks of `repos`: the responses
      fail exactly when some batch is rejected, and otherwise the entries are
      the lookups of a list holding exactly the names of `repos`, which is
      `repos` itself when no batch repeats an alias. */
  lemma EntriesFollowRepos(server: Server, reqs: seq<BatchRequest>, repos: seq<string>)
    requires NamesOf(reqs) == Chunks(repos, BatchSize)
    ensures RespondAll(server, reqs).None? <==> exists i :: 0 <= i < |reqs| && !Accepted(reqs[i])
    ensures RespondAll(server, reqs).Some? ==>
      && AllEntries(RespondAll(server, reqs).value) == LookupAll(server, Flatten(KeysOf(reqs)))
      && forall n :: n in Flatten(KeysOf(reqs)) <==> n in repos
    ensures RespondAll(server, reqs).Some? && (forall i :: 0 <= i < |reqs| ==> AliasesDistinct(reqs[i].fields)) ==>
      AllEntries(RespondAll(server, reqs).value) == LookupAll(server, repos)
  {
    EntriesFollowNames(server, reqs);
    ChunksConcat(repos, BatchSize);
  }
}
