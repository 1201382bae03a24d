/**
 * The event normaliser of `handle_github_webhook`: a decoded payload and the
 * `X-GitHub-Event` header become one six-field record (PUSH, PULL_REQUEST or
 * MERGE) or nothing, meaning "ignored".
 */
module Normalizer {
  import opened Wrappers
  import opened Text
  import opened PyJson

  datatype Action = Push | PullRequest | Merge

  /** The value stored in the record's `action` field: one distinct name per kind. */
  function ActionName(a: Action): (s: string)
    ensures s in ["PUSH", "PULL_REQUEST", "MERGE"]
    ensures s == "PUSH" <==> a == Push
    ensures s == "PULL_REQUEST" <==> a == PullRequest
    ensures s == "MERGE" <==> a == Merge
  {
    match a
    case Push => "PUSH"
    case PullRequest => "PULL_REQUEST"
    case Merge => "MERGE"
  }

  /**
   * A normalised event.  The four fields read from the payload hold whatever
   * JSON value the payload had there (None when absent); `timestamp` is the
   * receipt time rendered by `get_ordinal_date_string`.
   */
  datatype Record = Record(
    requestId: Json,
    author: Json,
    action: Action,
    fromBranch: Json,
    toBranch: Json,
    timestamp: string)

  const BranchPrefix: string := "refs/heads/"

  /**
   * A push payload the push branch can read without raising: a dict whose
   * `pusher` is absent or a dict, whose `sender` is absent or a dict when the
   * pusher has no truthy name (`or` evaluates it only then), and whose `ref`
   * is absent or a string.
   */
  predicate PushReadable(data: Json)
  {
    && Chainable(data, ["pusher", "name"])
    && (!Truthy(ChainGet(data, ["pusher", "name"])) ==> Chainable(data, ["sender", "login"]))
    && ("ref" in data.fields ==> data.fields["ref"].Str?)
  }

  /** `data.get('ref', '')`: the pushed ref, the empty string when absent. */
  function Ref(data: Json): (r: string)
    requires data.Obj? && ("ref" in data.fields ==> data.fields["ref"].Str?)
    ensures Str(r) == GetOr(data, "ref", Str(""))
  {
    if "ref" in data.fields then data.fields["ref"].s else ""
  }

  /**
   * A pull_request payload the pull_request branch can read without raising:
   * `pull_request` and its `user`, `head` and `base` are absent or dicts, the
   * id is a value whose `str()` is modelled, and `sender` is absent or a dict
   * when the merge branch reads it.
   */
  predicate PullRequestReadable(data: Json)
  {
    && data.Obj?
    && var pr := Child(data, "pull_request");
    && pr.Obj?
    && Chainable(pr, ["user", "login"])
    && Chainable(pr, ["head", "ref"])
    && Chainable(pr, ["base", "ref"])
    && Printable(Get(pr, "id"))
    && (Get(data, "action") == Str("closed") && Get(pr, "merged") == Bool(true)
        ==> Chainable(data, ["sender", "login"]))
  }

  /** The payloads on which the source's branch for `eventType` does not raise. */
  predicate Readable(eventType: string, data: Json)
  {
    && (eventType == "push" ==> PushReadable(data))
    && (eventType == "pull_request" ==> PullRequestReadable(data))
  }

  /**
   * The push branch: always a PUSH record carrying the timestamp, with an empty
   * source branch, a target branch no longer than the ref and equal to it when
   * the ref holds no "refs/heads/", and an author that is truthy exactly when
   * the pusher's name or the sender's login is.
   */
  function NormalizePush(data: Json, timestamp: string): (r: Record)
    requires PushReadable(data)
    ensures r.action == Push && r.timestamp == timestamp && r.fromBranch == Str("")
    ensures r.toBranch.Str? && |r.toBranch.s| <= |Ref(data)|
    ensures !Contains(Ref(data), BranchPrefix) ==> r.toBranch == Str(Ref(data))
    ensures Truthy(r.author) <==>
      Truthy(Field(data, ["pusher", "name"])) || Truthy(Field(data, ["sender", "login"]))
  {
    assert !Contains(Ref(data), BranchPrefix) ==> RemoveAll(Ref(data), BranchPrefix) == Ref(data) by {
      if !Contains(Ref(data), BranchPrefix) {
        RemoveAllAbsent(Ref(data), BranchPrefix);
      }
    }
    var pusherName := ChainGet(data, ["pusher", "name"]);
    // `pusher.name or sender.login`: the sender is read only when the name is falsy
    var author := if Truthy(pusherName) then pusherName else ChainGet(data, ["sender", "login"]);
    Record(
      requestId := Get(data, "after"),
      author := author,
      action := Push,
      fromBranch := Str(""),
      toBranch := Str(RemoveAll(Ref(data), BranchPrefix)),
      timestamp := timestamp)
  }

  /**
   * The pull_request branch: a record exactly for "opened" and for a "closed"
   * PR whose `merged` is `True`; a PULL_REQUEST record exactly for "opened",
   * otherwise a MERGE record, always with a string request id and the timestamp.
   */
  function NormalizePullRequest(data: Json, timestamp: string): (r: Option<Record>)
    requires PullRequestReadable(data)
    ensures r.Some? <==>
      || Field(data, ["action"]) == Str("opened")
      || (Field(data, ["action"]) == Str("closed") && Field(data, ["pull_request", "merged"]) == Bool(true))
    ensures r.Some? ==>
      && r.value.action != Push
      && (r.value.action == PullRequest <==> Field(data, ["action"]) == Str("opened"))
      && r.value.requestId.Str?
      && r.value.timestamp == timestamp
  {
    PullRequestPaths(data);
    var action := Get(data, "action");
    var pr := Child(data, "pull_request");
    var author := ChainGet(pr, ["user", "login"]);
    var fromBranch := ChainGet(pr, ["head", "ref"]);
    var toBranch := ChainGet(pr, ["base", "ref"]);
    var requestId := Str(PyStr(Get(pr, "id")));
    if action == Str("opened") then
      Some(Record(requestId, author, PullRequest, fromBranch, toBranch, timestamp))
    else if action == Str("closed") && Get(pr, "merged") == Bool(true) then
      var merger := Or(ChainGet(data, ["sender", "login"]), author);
      Some(Record(requestId, merger, Merge, fromBranch, toBranch, timestamp))
    else
      None
  }

  /**
   * The record `handle_github_webhook` builds for an event, or None when it
   * ignores the event.  A produced record carries the request's timestamp, and
   * it is a PUSH exactly when the event is a push.
   */
  function Normalize(eventType: string, data: Json, timestamp: string): (r: Option<Record>)
    requires Readable(eventType, data)
    ensures r.Some? ==> r.value.timestamp == timestamp
    ensures r.Some? ==> (r.value.action == Push <==> eventType == "push")
    ensures r.Some? ==> eventType in ["push", "pull_request"]
  {
    if eventType == "push" then Some(NormalizePush(data, timestamp))
    else if eventType == "pull_request" then NormalizePullRequest(data, timestamp)
    else None
  }

  // ---------------------------------------------------------------------------
  // The normalisation rules, stated with plain member paths (`Field`) in which
  // a member missing at any depth reads as None.

  /**
   * A push always yields a PUSH record with an empty source branch, the `after`
   * commit as request id, the ref with every "refs/heads/" removed as target
   * branch, and `pusher.name` as author unless it is falsy, then `sender.login`.
   */
  lemma PushRecord(data: Json, timestamp: string)
    requires PushReadable(data)
    ensures Normalize("push", data, timestamp).Some?
    ensures var r := Normalize("push", data, timestamp).value;
      && r.action == Push && ActionName(r.action) == "PUSH"
      && r.fromBranch == Str("")
      && r.requestId == Field(data, ["after"])
      && r.toBranch == Str(RemoveAll(Ref(data), BranchPrefix))
      && r.author == (if Truthy(Field(data, ["pusher", "name"])) then Field(data, ["pusher", "name"])
                      else Field(data, ["sender", "login"]))
  {
  }

  /** A missing ref gives an empty target branch. */
  lemma PushWithoutRef(data: Json, timestamp: string)
    requires PushReadable(data) && Field(data, ["ref"]) == Null
    ensures Normalize("push", data, timestamp).value.toBranch == Str("")
  {
  }

  /** A ref "refs/heads/<b>" gives target branch <b> when <b> holds no further "refs/heads/". */
  lemma PushBranchName(data: Json, timestamp: string, branch: string)
    requires PushReadable(data)
    requires Field(data, ["ref"]) == Str(BranchPrefix + branch)
    requires !Contains(branch, BranchPrefix)
    ensures Normalize("push", data, timestamp).value.toBranch == Str(branch)
  {
    assert Ref(data) == BranchPrefix + branch;
    RemoveAllLeading(BranchPrefix, branch);
    RemoveAllAbsent(branch, BranchPrefix);
  }

  /**
   * Every occurrence of "refs/heads/" is removed, not only the leading one: the
   * branch "a/refs/heads/b" is reported as "a/b".
   */
  lemma NestedPrefixRemoved()
    ensures RemoveAll(BranchPrefix + "a/" + BranchPrefix + "b", BranchPrefix) == "a/b"
  {
    var rest := "a/" + BranchPrefix + "b";
    assert BranchPrefix + "a/" + BranchPrefix + "b" == BranchPrefix + rest;
    RemoveAllLeading(BranchPrefix, rest);
    assert !OccursAt(rest, BranchPrefix, 0) && !OccursAt(rest, BranchPrefix, 1);
    RemoveAllKeepsPrefix(rest, BranchPrefix, 2);
    assert rest[..2] == "a/" && rest[2..] == BranchPrefix + "b";
    RemoveAllLeading(BranchPrefix, "b");
    assert !Contains("b", BranchPrefix);
    RemoveAllAbsent("b", BranchPrefix);
  }

  /**
   * An opened pull request yields a PULL_REQUEST record: the PR user's login as
   * author, head and base refs as branches, and `str()` of the PR id as request
   * id, which is "None" when the id is absent.
   */
  lemma OpenedPullRequest(data: Json, timestamp: string)
    requires PullRequestReadable(data)
    requires Field(data, ["action"]) == Str("opened")
    ensures Normalize("pull_request", data, timestamp).Some?
    ensures var r := Normalize("pull_request", data, timestamp).value;
      && r.action == PullRequest && ActionName(r.action) == "PULL_REQUEST"
      && r.author == Field(data, ["pull_request", "user", "login"])
      && r.fromBranch == Field(data, ["pull_request", "head", "ref"])
      && r.toBranch == Field(data, ["pull_request", "base", "ref"])
      && r.requestId == Str(PyStr(Field(data, ["pull_request", "id"])))
      && (Field(data, ["pull_request", "id"]) == Null ==> r.requestId == Str("None"))
  {
    PullRequestPaths(data);
  }

  /**
   * A closed pull request whose `merged` is exactly `True` yields a MERGE record;
   * its author is `sender.login`, or the PR user's login when that is falsy.
   */
  lemma MergedPullRequest(data: Json, timestamp: string)
    requires PullRequestReadable(data)
    requires Field(data, ["action"]) == Str("closed")
    requires Field(data, ["pull_request", "merged"]) == Bool(true)
    ensures Normalize("pull_request", data, timestamp).Some?
    ensures var r := Normalize("pull_request", data, timestamp).value;
      && r.action == Merge && ActionName(r.action) == "MERGE"
      && r.author == Or(Field(data, ["sender", "login"]), Field(data, ["pull_request", "user", "login"]))
      && r.fromBranch == Field(data, ["pull_request", "head", "ref"])
      && r.toBranch == Field(data, ["pull_request", "base", "ref"])
      && r.requestId == Str(PyStr(Field(data, ["pull_request", "id"])))
  {
    PullRequestPaths(data);
  }

  /**
   * Exactly three kinds of event are kept: every push, an opened pull request,
   * and a closed pull request whose `merged` is exactly `True`.  Everything else
   * (other event names, other actions, `merged` false, absent, 1 or "true") is
   * ignored.
   */
  lemma IgnoredExactly(eventType: string, data: Json, timestamp: string)
    requires Readable(eventType, data)
    ensures Normalize(eventType, data, timestamp).None? <==>
      !(|| eventType == "push"
        || (eventType == "pull_request" && Field(data, ["action"]) == Str("opened"))
        || (eventType == "pull_request" && Field(data, ["action"]) == Str("closed")
            && Field(data, ["pull_request", "merged"]) == Bool(true)))
  {
    if eventType == "pull_request" {
      PullRequestPaths(data);
    }
  }

  /** The pull_request branch's chained reads are plain path lookups. */
  lemma PullRequestPaths(data: Json)
    requires PullRequestReadable(data)
    ensures var pr := Child(data, "pull_request");
      && ChainGet(pr, ["user", "login"]) == Field(data, ["pull_request", "user", "login"])
      && ChainGet(pr, ["head", "ref"]) == Field(data, ["pull_request", "head", "ref"])
      && ChainGet(pr, ["base", "ref"]) == Field(data, ["pull_request", "base", "ref"])
      && Get(pr, "id") == Field(data, ["pull_request", "id"])
      && Get(pr, "merged") == Field(data, ["pull_request", "merged"])
  {
    var pr := Child(data, "pull_request");
    if "pull_request" in data.fields {
      PathStep(data, "pull_request", ["user", "login"]);
      PathStep(data, "pull_request", ["head", "ref"]);
      PathStep(data, "pull_request", ["base", "ref"]);
      PathStep(data, "pull_request", ["id"]);
      PathStep(data, "pull_request", ["merged"]);
    } else {
      EmptyChain(["user", "login"]);
      EmptyChain(["head", "ref"]);
      EmptyChain(["base", "ref"]);
      EmptyChain(["id"]);
      EmptyChain(["merged"]);
      assert Field(data, ["pull_request", "user", "login"]) == Null;
      assert Field(data, ["pull_request", "head", "ref"]) == Null;
      assert Field(data, ["pull_request", "base", "ref"]) == Null;
      assert Field(data, ["pull_request", "id"]) == Null;
      assert Field(data, ["pull_request", "merged"]) == Null;
    }
  }

  /** Looking up `[k] + path` is looking up `path` in the member `k`. */
  lemma PathStep(v: Json, k: string, path: seq<string>)
    requires v.Obj? && k in v.fields
    ensures Field(v, [k] + path) == Field(v.fields[k], path)
  {
    assert ([k] + path)[1..] == path;
  }
}
