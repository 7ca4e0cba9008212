/**
 * What one batch of the feed fetches and produces, as functions of the
 * outside world. The HTTP, gzip and XML decoding calls are the fields of
 * `Network`; `Promise.all` over a list is taken in list order, and it fails
 * as soon as one of its members fails.
 */
module Pipeline {
  import opened Wrappers
  import opened Types
  import opened Filter
  import opened LegacyFilter
  import opened Osm
  import opened Batch
  import opened Profiles
  import opened Embeds

  /** The answers of the services the feed talks to. */
  datatype Network = Network(
    /** The `<node>` elements of a minutely diff, in document order (src/lib/apis/osm.ts `getSequenceDataStream`, decoded). */
    diff: int -> Result<seq<NodeMeta>, string>,
    /** The decoded osmChange document of a diff (src/main.ts `getSequenceData`). */
    diffXml: int -> Result<OsmChange, string>,
    /** `elements[0]` of `GET /api/0.6/changeset/<id>.json`. */
    changeset: nat -> Result<ChangesetElement, string>,
    /** `GET /api/0.6/user/<id>.json`. */
    user: nat -> UserLookup,
    /** How posting the embed to the webhook finally ends, after any rate-limit retries. */
    post: Embed -> PostOutcome)

  /**
   * The last answer to a webhook post once every 429 rate-limit answer has
   * been waited out and retried: delivered, another HTTP error response, or
   * no response at all.
   */
  datatype PostOutcome = Delivered | Refused | Unreachable

  /** `Promise.all(filtered.map(getChangesetDetails))`. */
  function DetailsAll(net: Network, fs: seq<FilteredNode>): (r: Result<seq<ChangesetDetails>, string>)
    ensures r.Failure? <==> exists i :: 0 <= i < |fs| && net.changeset(fs[i].changeset).Failure?
    ensures r.Success? ==> |r.value| == |fs|
    ensures r.Success? ==> forall i :: 0 <= i < |fs| ==>
      r.value[i] == GetChangesetDetails(fs[i], net.changeset(fs[i].changeset).value)
    decreases |fs|
  {
    if |fs| == 0 then Success([])
    else
      var init := fs[..|fs| - 1];
      var f := fs[|fs| - 1];
      assert forall i :: 0 <= i < |init| ==> init[i] == fs[i];
      match DetailsAll(net, init)
      case Failure(e) => Failure(e)
      case Success(ds) =>
        match net.changeset(f.changeset)
        case Failure(e) => Failure(e)
        case Success(element) => Success(ds + [GetChangesetDetails(f, element)])
  }

  /** `processSingleSequence` of src/commands/feed/feed.ts: stream the diff, filter it, look up each changeset. */
  function FetchSequence(net: Network, b: Bounds, n: int): Result<seq<ChangesetDetails>, string> {
    match net.diff(n)
    case Failure(e) => Failure(e)
    case Success(nodes) => DetailsAll(net, FirstSightings(b, nodes))
  }

  /** `process` of src/main.ts: decode the diff, fold its blocks, look up each changeset. */
  function LegacyFetchSequence(net: Network, b: Bounds, n: int): Result<seq<ChangesetDetails>, string> {
    match net.diffXml(n)
    case Failure(e) => Failure(e)
    case Success(xml) => DetailsAll(net, SequenceChangesets(b, xml))
  }

  /** `Promise.all(ns.map(fetch))`. */
  function FetchAll(fetch: int -> Result<seq<ChangesetDetails>, string>, ns: seq<int>): (r: Result<seq<seq<ChangesetDetails>>, string>)
    ensures r.Failure? <==> exists i :: 0 <= i < |ns| && fetch(ns[i]).Failure?
    ensures r.Success? ==> |r.value| == |ns|
    ensures r.Success? ==> forall i :: 0 <= i < |ns| ==> fetch(ns[i]) == Success(r.value[i])
    decreases |ns|
  {
    if |ns| == 0 then Success([])
    else
      var init := ns[..|ns| - 1];
      assert forall i :: 0 <= i < |init| ==> init[i] == ns[i];
      match FetchAll(fetch, init)
      case Failure(e) => Failure(e)
      case Success(rs) =>
        match fetch(ns[|ns| - 1])
        case Failure(e) => Failure(e)
        case Success(r) => Success(rs + [r])
  }

  /** `processFromTo(start, end)` of src/commands/feed/feed.ts. */
  function FetchFromTo(net: Network, b: Bounds, start: nat, end: nat): Result<seq<seq<ChangesetDetails>>, string> {
    FetchAll(n => FetchSequence(net, b, n), SequencesFromTo(start, end))
  }

  /** `processFromTo(start, end)` of src/main.ts. */
  function LegacyFetchFromTo(net: Network, b: Bounds, start: nat, end: nat): Result<seq<seq<ChangesetDetails>>, string> {
    FetchAll(n => LegacyFetchSequence(net, b, n), SequencesFromTo(start, end))
  }

  /** The authors of a list of changes: the users whose image a batch asks for. */
  function Uids(changes: seq<ChangesetDetails>): set<nat>
    decreases |changes|
  {
    if |changes| == 0 then {} else Uids(changes[..|changes| - 1]) + {changes[|changes| - 1].uid}
  }

  /** `collatedChanges.map(c => makeFullEmbedForChange(c, profileCache))`: the embeds and the cache afterwards. */
  function EmbedAll(cache: map<nat, Option<string>>, changes: seq<ChangesetDetails>, net: Network): (r: (seq<Embed>, map<nat, Option<string>>))
    ensures |r.0| == |changes|
    decreases |changes|
  {
    if |changes| == 0 then ([], cache)
    else
      var c := changes[|changes| - 1];
      var prev := EmbedAll(cache, changes[..|changes| - 1], net);
      var lookup := CacheGet(prev.1, c.uid, net.user(c.uid));
      (prev.0 + [MakeEmbedFromChange(c, lookup.0)], lookup.1)
  }

  /**
   * The cache calls happen in list order and each user is looked up at most
   * once: afterwards the cache holds the old entries plus, for each new
   * author, that author's resolved lookup (null for a failed one).
   */
  lemma {:induction false} EmbedAllCache(cache: map<nat, Option<string>>, changes: seq<ChangesetDetails>, net: Network)
    ensures forall u :: u in EmbedAll(cache, changes, net).1 <==> u in cache || u in Uids(changes)
    ensures forall u :: u in cache ==> EmbedAll(cache, changes, net).1[u] == cache[u]
    ensures forall u :: u in EmbedAll(cache, changes, net).1 && u !in cache ==> EmbedAll(cache, changes, net).1[u] == ImageUrlOf(net.user(u))
    decreases |changes|
  {
    if |changes| > 0 {
      var init := changes[..|changes| - 1];
      var c := changes[|changes| - 1];
      EmbedAllCache(cache, init, net);
      var mid := EmbedAll(cache, init, net).1;
      assert EmbedAll(cache, changes, net).1 == CacheGet(mid, c.uid, net.user(c.uid)).1;
    }
  }

  /** Every embed carries the image finally cached for its author; a profile lookup never fails the batch. */
  lemma {:induction false} EmbedAllImages(cache: map<nat, Option<string>>, changes: seq<ChangesetDetails>, net: Network)
    ensures forall i :: 0 <= i < |changes| ==> changes[i].uid in EmbedAll(cache, changes, net).1
    ensures forall i :: 0 <= i < |changes| ==>
      EmbedAll(cache, changes, net).0[i] == MakeEmbedFromChange(changes[i], EmbedAll(cache, changes, net).1[changes[i].uid])
    decreases |changes|
  {
    if |changes| > 0 {
      var init := changes[..|changes| - 1];
      var c := changes[|changes| - 1];
      EmbedAllImages(cache, init, net);
      var (embeds, mid) := EmbedAll(cache, init, net);
      var (url, after) := CacheGet(mid, c.uid, net.user(c.uid));
      assert EmbedAll(cache, changes, net) == (embeds + [MakeEmbedFromChange(c, url)], after);
      forall i | 0 <= i < |changes|
        ensures changes[i].uid in after
        ensures EmbedAll(cache, changes, net).0[i] == MakeEmbedFromChange(changes[i], after[changes[i].uid])
      {
        if i < |init| {
          assert init[i] == changes[i];
        }
      }
    }
  }

  /** The same fold with the cache of src/main.ts, which stores the lookup itself. */
  function LegacyEmbedAll(cache: map<nat, UserLookup>, changes: seq<ChangesetDetails>, net: Network): (r: (Result<seq<Embed>, string>, map<nat, UserLookup>))
    ensures r.0.Success? ==> |r.0.value| == |changes|
    decreases |changes|
  {
    if |changes| == 0 then (Success([]), cache)
    else
      var c := changes[|changes| - 1];
      var prev := LegacyEmbedAll(cache, changes[..|changes| - 1], net);
      var lookup := LegacyCacheGet(prev.1, c.uid, net.user(c.uid));
      (LegacyAppend(prev.0, lookup.0, c), lookup.1)
  }

  /** One more `await`: the batch goes on only if it had not failed and the author's lookup resolved. */
  function LegacyAppend(embeds: Result<seq<Embed>, string>, entry: UserLookup, c: ChangesetDetails): (r: Result<seq<Embed>, string>)
    ensures r.Failure? <==> embeds.Failure? || entry.Failure?
    ensures r.Success? ==> r.value == embeds.value + [MakeEmbedFromChange(c, entry.value)]
  {
    match embeds
    case Failure(e) => Failure(e)
    case Success(es) =>
      match entry
      case Failure(e) => Failure(e)
      case Success(url) => Success(es + [MakeEmbedFromChange(c, url)])
  }

  /** Every author is still looked up once and cached, a rejection included. */
  lemma {:induction false} LegacyEmbedAllCache(cache: map<nat, UserLookup>, changes: seq<ChangesetDetails>, net: Network)
    ensures forall u :: u in LegacyEmbedAll(cache, changes, net).1 <==> u in cache || u in Uids(changes)
    ensures forall u :: u in cache ==> LegacyEmbedAll(cache, changes, net).1[u] == cache[u]
    ensures forall u :: (u in LegacyEmbedAll(cache, changes, net).1 && u !in cache
        ==> LegacyEmbedAll(cache, changes, net).1[u] == LegacyEntry(net.user(u)))
    decreases |changes|
  {
    if |changes| > 0 {
      var init := changes[..|changes| - 1];
      var c := changes[|changes| - 1];
      LegacyEmbedAllCache(cache, init, net);
      var mid := LegacyEmbedAll(cache, init, net).1;
      assert LegacyEmbedAll(cache, changes, net).1 == LegacyCacheGet(mid, c.uid, net.user(c.uid)).1;
    }
  }

  /** Every author of the batch ends up with a cached lookup. */
  lemma {:induction false} LegacyEmbedAllKeys(cache: map<nat, UserLookup>, changes: seq<ChangesetDetails>, net: Network)
    ensures forall i :: 0 <= i < |changes| ==> changes[i].uid in LegacyEmbedAll(cache, changes, net).1
    decreases |changes|
  {
    if |changes| > 0 {
      var init := changes[..|changes| - 1];
      LegacyEmbedAllKeys(cache, init, net);
      assert forall i :: 0 <= i < |init| ==> init[i] == changes[i];
    }
  }

  /** The batch fails exactly when some author's cached lookup is a rejection. */
  lemma {:induction false} LegacyEmbedAllFailure(cache: map<nat, UserLookup>, changes: seq<ChangesetDetails>, net: Network)
    ensures var r := LegacyEmbedAll(cache, changes, net);
      r.0.Failure? <==> exists i :: 0 <= i < |changes| && changes[i].uid in r.1 && r.1[changes[i].uid].Failure?
    decreases |changes|
  {
    if |changes| > 0 {
      var init := changes[..|changes| - 1];
      var last := |changes| - 1;
      LegacyEmbedAllFailure(cache, init, net);
      LegacyEmbedAllKeys(cache, init, net);
      var mid := LegacyEmbedAll(cache, init, net).1;
      var r := LegacyEmbedAll(cache, changes, net);
      assert r.1[changes[last].uid] == LegacyCacheGet(mid, changes[last].uid, net.user(changes[last].uid)).0;
      assert forall i :: 0 <= i < |init| ==> init[i] == changes[i] && r.1[changes[i].uid] == mid[init[i].uid];
      if r.0.Failure? && !r.1[changes[last].uid].Failure? {
        var i :| 0 <= i < |init| && init[i].uid in mid && mid[init[i].uid].Failure?;
        assert r.1[changes[i].uid].Failure?;
      }
      if exists i :: 0 <= i < |changes| && changes[i].uid in r.1 && r.1[changes[i].uid].Failure? {
        var i :| 0 <= i < |changes| && changes[i].uid in r.1 && r.1[changes[i].uid].Failure?;
        if i < last {
          assert mid[init[i].uid].Failure?;
        }
      }
    }
  }

  /** A batch that succeeds carries, in every embed, its author's cached image. */
  lemma {:induction false} LegacyEmbedAllImages(cache: map<nat, UserLookup>, changes: seq<ChangesetDetails>, net: Network)
    ensures var r := LegacyEmbedAll(cache, changes, net);
      r.0.Success? ==> forall i :: 0 <= i < |changes| ==>
        (changes[i].uid in r.1 && r.1[changes[i].uid].Success?
         && r.0.value[i] == MakeEmbedFromChange(changes[i], r.1[changes[i].uid].value))
    decreases |changes|
  {
    if |changes| > 0 {
      var init := changes[..|changes| - 1];
      var last := |changes| - 1;
      LegacyEmbedAllImages(cache, init, net);
      var mid := LegacyEmbedAll(cache, init, net).1;
      var (entry, after) := LegacyCacheGet(mid, changes[last].uid, net.user(changes[last].uid));
      var r := LegacyEmbedAll(cache, changes, net);
      if r.0.Success? {
        forall i | 0 <= i < |changes|
          ensures changes[i].uid in after && after[changes[i].uid].Success?
          ensures r.0.value[i] == MakeEmbedFromChange(changes[i], after[changes[i].uid].value)
        {
          if i < |init| {
            assert init[i] == changes[i];
          }
        }
      }
    }
  }

  /**
   * `Promise.all(messagePromises)` of src/commands/feed/feed.ts resolves: the
   * `sendWebhookMessage` of src/lib/apis/discord.ts rethrows every error other
   * than a rate limit, so every post must be delivered.
   */
  predicate AllDelivered(net: Network, embeds: seq<Embed>) {
    forall i :: 0 <= i < |embeds| ==> net.post(embeds[i]) == Delivered
  }

  /**
   * `Promise.all(messagePromises)` of src/main.ts resolves: the
   * `sendWebhookMessage` of src/discord.ts swallows every error that came
   * with a response, so only a post that got no response at all rejects.
   */
  predicate LegacyAllResolved(net: Network, embeds: seq<Embed>) {
    forall i :: 0 <= i < |embeds| ==> net.post(embeds[i]) != Unreachable
  }

  /** The latest sequence number a `state.txt` response yields, or why `getLatestSequenceNumber` rejects. */
  function LatestOf(response: Result<string, string>): Result<nat, string> {
    match response
    case Failure(e) => Failure(e)
    case Success(text) => ParseState(text)
  }

  /** The sequence number reported by one `state.txt` response, if it was fetched and parsed. */
  function Reported(response: Result<string, string>): Option<nat> {
    match LatestOf(response)
    case Failure(_) => None
    case Success(n) => Some(n)
  }

  /** The greatest of `floor` and every sequence number reported in `responses`. */
  function MaxReported(floor: nat, responses: seq<Result<string, string>>): (m: nat)
    ensures floor <= m
    decreases |responses|
  {
    if |responses| == 0 then floor
    else
      var m := MaxReported(floor, responses[..|responses| - 1]);
      var last := Reported(responses[|responses| - 1]);
      if last.Some? && last.value > m then last.value else m
  }

  /** The maximum bounds every reported number. */
  lemma {:induction false} MaxReportedIsUpperBound(floor: nat, responses: seq<Result<string, string>>, k: nat)
    requires k < |responses| && Reported(responses[k]).Some?
    ensures Reported(responses[k]).value <= MaxReported(floor, responses)
    decreases |responses|
  {
    var init := responses[..|responses| - 1];
    if k < |init| {
      assert init[k] == responses[k];
      MaxReportedIsUpperBound(floor, init, k);
    }
  }

  /** The maximum is `floor` or one of the reported numbers. */
  lemma {:induction false} MaxReportedIsAttained(floor: nat, responses: seq<Result<string, string>>)
    ensures MaxReported(floor, responses) == floor
         || exists k :: 0 <= k < |responses| && Reported(responses[k]) == Some(MaxReported(floor, responses))
    decreases |responses|
  {
    if |responses| > 0 {
      var init := responses[..|responses| - 1];
      MaxReportedIsAttained(floor, init);
      var m := MaxReported(floor, init);
      if MaxReported(floor, responses) != m {
        assert Reported(responses[|responses| - 1]) == Some(MaxReported(floor, responses));
      } else if m != floor {
        var k :| 0 <= k < |init| && Reported(init[k]) == Some(m);
        assert init[k] == responses[k];
      }
    }
  }

  /** Reading more responses never lowers the maximum. */
  lemma {:induction false} MaxReportedPrefix(floor: nat, responses: seq<Result<string, string>>, i: nat)
    requires i <= |responses|
    ensures MaxReported(floor, responses[..i]) <= MaxReported(floor, responses)
    decreases |responses|
  {
    if i < |responses| {
      var init := responses[..|responses| - 1];
      assert responses[..i] == init[..i];
      MaxReportedPrefix(floor, init, i);
    } else {
      assert responses[..i] == responses;
    }
  }

  /**
   * As written in src/main.ts, a batch that failed on a profile lookup fails
   * again on every retry, whatever any service answers then: the rejection
   * stays cached.
   */
  lemma {:induction false} LegacyBatchFailsForever(cache: map<nat, UserLookup>, changes: seq<ChangesetDetails>, net: Network, retry: Network)
    requires LegacyEmbedAll(cache, changes, net).0.Failure?
    ensures LegacyEmbedAll(LegacyEmbedAll(cache, changes, net).1, changes, retry).0.Failure?
  {
    var after := LegacyEmbedAll(cache, changes, net).1;
    LegacyEmbedAllFailure(cache, changes, net);
    LegacyEmbedAllCache(after, changes, retry);
    LegacyEmbedAllFailure(after, changes, retry);
    var i :| 0 <= i < |changes| && changes[i].uid in after && after[changes[i].uid].Failure?;
    assert LegacyEmbedAll(after, changes, retry).1[changes[i].uid] == after[changes[i].uid];
  }

  /**
   * With `ProfileCache` a failed profile lookup does not fail the batch: the
   * change still gets its embed, shown without an author image.
   */
  lemma FailedLookupShownWithoutImage(cache: map<nat, Option<string>>, changes: seq<ChangesetDetails>, net: Network, i: nat)
    requires i < |changes| && changes[i].uid !in cache
    requires net.user(changes[i].uid).Failure?
    ensures EmbedAll(cache, changes, net).0[i].author.iconUrl == None
  {
    EmbedAllCache(cache, changes, net);
    EmbedAllImages(cache, changes, net);
  }
}
