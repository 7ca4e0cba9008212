/**
 * `processingLoop` and `doProcess` of src/commands/feed/feed.ts and
 * src/main.ts as functions of the state they change: the checkpoint `last`,
 * the profile-image cache and the embeds posted to the webhook. The two
 * feeds share the loop and differ in how one batch is processed, which is
 * the parameter `doBatch` of `CatchUp` and `RunLoop`.
 */
module Processing {
  import opened Wrappers
  import opened Types
  import opened Batch
  import opened Profiles
  import opened Embeds
  import opened Pipeline

  /** How a run of `processingLoop` ended. */
  datatype LoopOutcome =
    | CaughtUp               // `last` reached the reported sequence: the loop breaks
    | Failed(reason: string) // a request, the state parse or the batch failed: the loop rejects
    | OutOfResponses         // the given `state.txt` responses are used up

  /** The rejection of a turn whose batch was not committed. */
  const BatchFailed: string := "The batch was not committed."

  /** What `doProcess(start, end)` did: whether it committed `end`, what it posted and the cache it left. */
  datatype BatchEffect<C> = BatchEffect(ok: bool, posted: seq<Embed>, cache: C)

  /** What the loop changes: `last`, the profile-image cache and the posted embeds. */
  datatype LoopState<C> = LoopState(last: nat, cache: C, sent: seq<Embed>)

  /** One `doProcess(start, end)` call: the cache it started from, whether it committed, what it posted. */
  datatype Attempt<C> = Attempt(start: nat, end: nat, cache: C, ok: bool, posted: seq<Embed>)

  /** A run of `processingLoop`: how it ended, the state it left and every batch it attempted, in order. */
  datatype LoopRun<C> = LoopRun(outcome: LoopOutcome, state: LoopState<C>, attempts: seq<Attempt<C>>)

  /** `doProcess` of src/commands/feed/feed.ts: a failed lookup never fails the batch; every post must be delivered. */
  function FeedBatch(net: Network, b: Bounds, cache: map<nat, Option<string>>, start: nat, end: nat): BatchEffect<map<nat, Option<string>>> {
    match FetchFromTo(net, b, start, end)
    case Failure(_) => BatchEffect(false, [], cache)
    case Success(results) =>
      var batch := EmbedAll(cache, Collate(results), net);
      BatchEffect(AllDelivered(net, batch.0), batch.0, batch.1)
  }

  /** `doProcess` of src/main.ts: nothing is posted unless every embed was built; a post must only resolve. */
  function LegacyBatch(net: Network, b: Bounds, cache: map<nat, UserLookup>, start: nat, end: nat): BatchEffect<map<nat, UserLookup>> {
    match LegacyFetchFromTo(net, b, start, end)
    case Failure(_) => BatchEffect(false, [], cache)
    case Success(results) =>
      var batch := LegacyEmbedAll(cache, Collate(results), net);
      match batch.0
      case Failure(_) => BatchEffect(false, [], batch.1)
      case Success(embeds) => BatchEffect(LegacyAllResolved(net, embeds), embeds, batch.1)
  }

  /** The feed command's batches, as the parameter of `CatchUp` and `RunLoop`. */
  function FeedBatches(net: Network, b: Bounds): (map<nat, Option<string>>, nat, nat) -> BatchEffect<map<nat, Option<string>>> {
    (cache: map<nat, Option<string>>, start: nat, end: nat) => FeedBatch(net, b, cache, start, end)
  }

  /** The original feed's batches, as the parameter of `CatchUp` and `RunLoop`. */
  function LegacyBatches(net: Network, b: Bounds): (map<nat, UserLookup>, nat, nat) -> BatchEffect<map<nat, UserLookup>> {
    (cache: map<nat, UserLookup>, start: nat, end: nat) => LegacyBatch(net, b, cache, start, end)
  }

  /**
   * One turn of `processingLoop` once the latest sequence number is known:
   * no attempt when `last` has caught up, otherwise the planned batch, whose
   * `end` becomes `last` only when it was committed.
   */
  function CatchUp<C>(doBatch: (C, nat, nat) -> BatchEffect<C>, st: LoopState<C>, latest: nat): (Option<Attempt<C>>, LoopState<C>) {
    match PlanBatch(st.last, latest)
    case None => (None, st)
    case Some(plan) =>
      var eff := doBatch(st.cache, plan.0, plan.1);
      (Some(Attempt(plan.0, plan.1, st.cache, eff.ok, eff.posted)),
       LoopState(if eff.ok then plan.1 else st.last, eff.cache, st.sent + eff.posted))
  }

  /**
   * `processingLoop` over the `state.txt` responses of its turns, one per
   * turn: a failed request or parse rejects, a caught-up turn breaks, a
   * batch that is not committed rejects, and a committed one goes round again.
   */
  function RunLoop<C>(doBatch: (C, nat, nat) -> BatchEffect<C>, states: seq<Result<string, string>>, st: LoopState<C>): LoopRun<C>
    decreases |states|
  {
    if |states| == 0 then LoopRun(OutOfResponses, st, [])
    else
      match LatestOf(states[0])
      case Failure(e) => LoopRun(Failed(e), st, [])
      case Success(latest) =>
        var step := CatchUp(doBatch, st, latest);
        match step.0
        case None => LoopRun(CaughtUp, step.1, [])
        case Some(a) =>
          if !a.ok then LoopRun(Failed(BatchFailed), step.1, [a])
          else
            var rest := RunLoop(doBatch, states[1..], step.1);
            LoopRun(rest.outcome, rest.state, [a] + rest.attempts)
  }

  /** The run from turn `i` on, one turn unfolded: what the methods' loops check their state against. */
  lemma RunLoopTurn<C>(doBatch: (C, nat, nat) -> BatchEffect<C>, states: seq<Result<string, string>>, i: nat, st: LoopState<C>)
    requires i < |states|
    ensures var r := RunLoop(doBatch, states[i..], st);
      && (LatestOf(states[i]).Failure? ==> r.outcome == Failed(LatestOf(states[i]).error) && r.state == st)
      && (LatestOf(states[i]).Success? ==>
            var step := CatchUp(doBatch, st, LatestOf(states[i]).value);
            && (step.0.None? ==> r.outcome == CaughtUp && r.state == step.1)
            && (step.0.Some? && !step.0.value.ok ==> r.outcome == Failed(BatchFailed) && r.state == step.1)
            && (step.0.Some? && step.0.value.ok ==>
                  var rest := RunLoop(doBatch, states[i + 1..], step.1);
                  r.outcome == rest.outcome && r.state == rest.state))
  {
    assert states[i..][0] == states[i];
    assert states[i..][1..] == states[i + 1..];
  }

  /** Everything the attempts posted, in order. */
  function Posted<C>(attempts: seq<Attempt<C>>): seq<Embed>
    decreases |attempts|
  {
    if |attempts| == 0 then [] else attempts[0].posted + Posted(attempts[1..])
  }

  /** Some committed attempt's range holds sequence `n`. */
  ghost predicate Covered<C>(attempts: seq<Attempt<C>>, n: nat) {
    exists k :: 0 <= k < |attempts| && attempts[k].ok && attempts[k].start <= n <= attempts[k].end
  }

  /**
   * The batches a run attempts follow each other without gap or overlap, from
   * the sequence after the first `last` on, each of at most `RequestCount`
   * sequences; each is exactly what `doBatch` does from the cache the
   * previous one left; only the last one can have failed, and none did unless
   * the run rejected.
   */
  lemma {:induction false} RunLoopAttempts<C>(doBatch: (C, nat, nat) -> BatchEffect<C>, states: seq<Result<string, string>>, st: LoopState<C>)
    ensures var a := RunLoop(doBatch, states, st).attempts;
      && |a| <= |states|
      && forall k :: 0 <= k < |a| ==>
        && a[k].start == (if k == 0 then st.last else a[k - 1].end) + 1
        && a[k].start <= a[k].end < a[k].start + RequestCount
        && a[k].cache == (if k == 0 then st.cache else doBatch(a[k - 1].cache, a[k - 1].start, a[k - 1].end).cache)
        && doBatch(a[k].cache, a[k].start, a[k].end).ok == a[k].ok
        && doBatch(a[k].cache, a[k].start, a[k].end).posted == a[k].posted
        && (k + 1 < |a| ==> a[k].ok)
    ensures var r := RunLoop(doBatch, states, st);
      !r.outcome.Failed? ==> forall k :: 0 <= k < |r.attempts| ==> r.attempts[k].ok
    decreases |states|
  {
    if |states| > 0 && LatestOf(states[0]).Success? {
      var step := CatchUp(doBatch, st, LatestOf(states[0]).value);
      if step.0.Some? && step.0.value.ok {
        var rest := RunLoop(doBatch, states[1..], step.1);
        RunLoopAttempts(doBatch, states[1..], step.1);
        var a := [step.0.value] + rest.attempts;
        assert RunLoop(doBatch, states, st).attempts == a;
        forall k | 1 <= k < |a|
          ensures a[k] == rest.attempts[k - 1]
        {
        }
      }
    }
  }

  /**
   * No sequence is skipped: the committed batches of a run cover exactly the
   * sequences after the first `last` up to the final one.
   */
  lemma {:induction false} RunLoopCovers<C>(doBatch: (C, nat, nat) -> BatchEffect<C>, states: seq<Result<string, string>>, st: LoopState<C>)
    ensures var r := RunLoop(doBatch, states, st);
      && st.last <= r.state.last
      && (forall n :: st.last < n <= r.state.last ==> Covered(r.attempts, n))
      && (forall k :: 0 <= k < |r.attempts| && r.attempts[k].ok ==>
            st.last < r.attempts[k].start && r.attempts[k].end <= r.state.last)
    decreases |states|
  {
    if |states| > 0 && LatestOf(states[0]).Success? {
      var step := CatchUp(doBatch, st, LatestOf(states[0]).value);
      if step.0.Some? && step.0.value.ok {
        var a := step.0.value;
        var rest := RunLoop(doBatch, states[1..], step.1);
        RunLoopCovers(doBatch, states[1..], step.1);
        var all := [a] + rest.attempts;
        assert RunLoop(doBatch, states, st) == LoopRun(rest.outcome, rest.state, all);
        forall n | st.last < n <= rest.state.last
          ensures Covered(all, n)
        {
          if n <= a.end {
            assert all[0] == a;
          } else {
            assert step.1.last == a.end;
            assert Covered(rest.attempts, n);
            var k :| 0 <= k < |rest.attempts| && rest.attempts[k].ok && rest.attempts[k].start <= n <= rest.attempts[k].end;
            assert all[k + 1] == rest.attempts[k];
          }
        }
        forall k | 1 <= k < |all|
          ensures all[k] == rest.attempts[k - 1]
        {
        }
      }
    }
  }

  /**
   * The webhook received every attempt's posts, in order, and the final cache
   * is the one the last attempt left.
   */
  lemma {:induction false} RunLoopSent<C>(doBatch: (C, nat, nat) -> BatchEffect<C>, states: seq<Result<string, string>>, st: LoopState<C>)
    ensures var r := RunLoop(doBatch, states, st);
      && r.state.sent == st.sent + Posted(r.attempts)
      && r.state.cache == if |r.attempts| == 0 then st.cache
                          else var z := r.attempts[|r.attempts| - 1]; doBatch(z.cache, z.start, z.end).cache
    decreases |states|
  {
    if |states| > 0 && LatestOf(states[0]).Success? {
      var step := CatchUp(doBatch, st, LatestOf(states[0]).value);
      if step.0.Some? {
        var a := step.0.value;
        assert [a][1..] == [];
        if a.ok {
          var rest := RunLoop(doBatch, states[1..], step.1);
          RunLoopSent(doBatch, states[1..], step.1);
          var all := [a] + rest.attempts;
          assert RunLoop(doBatch, states, st) == LoopRun(rest.outcome, rest.state, all);
          assert all[1..] == rest.attempts;
          if |rest.attempts| > 0 {
            assert all[|all| - 1] == rest.attempts[|rest.attempts| - 1];
          }
        }
      }
    }
  }

  /** What a feed-command batch posts: one embed per collated changeset, with its author's cached image. */
  lemma FeedBatchPosts(net: Network, b: Bounds, cache: map<nat, Option<string>>, start: nat, end: nat)
    ensures var eff := FeedBatch(net, b, cache, start, end);
      && (FetchFromTo(net, b, start, end).Failure? ==> !eff.ok && eff.posted == [] && eff.cache == cache)
      && (eff.ok <==> FetchFromTo(net, b, start, end).Success? && AllDelivered(net, eff.posted))
    ensures var eff := FeedBatch(net, b, cache, start, end);
      FetchFromTo(net, b, start, end).Success? ==>
        var changes := Collate(FetchFromTo(net, b, start, end).value);
        && |eff.posted| == |changes|
        && forall i :: 0 <= i < |changes| ==>
             changes[i].uid in eff.cache && eff.posted[i] == MakeEmbedFromChange(changes[i], eff.cache[changes[i].uid])
  {
    if FetchFromTo(net, b, start, end).Success? {
      EmbedAllImages(cache, Collate(FetchFromTo(net, b, start, end).value), net);
    }
  }

  /**
   * What an original-feed batch posts: nothing when a fetch or a lookup
   * failed, otherwise one embed per collated changeset with its author's
   * cached image; it commits when every post resolved.
   */
  lemma LegacyBatchPosts(net: Network, b: Bounds, cache: map<nat, UserLookup>, start: nat, end: nat)
    ensures var eff := LegacyBatch(net, b, cache, start, end);
      LegacyFetchFromTo(net, b, start, end).Failure? ==> !eff.ok && eff.posted == [] && eff.cache == cache
    ensures var eff := LegacyBatch(net, b, cache, start, end);
      LegacyFetchFromTo(net, b, start, end).Success? ==>
        var changes := Collate(LegacyFetchFromTo(net, b, start, end).value);
        var built := LegacyEmbedAll(cache, changes, net);
        && eff.cache == built.1
        && (built.0.Failure? ==> !eff.ok && eff.posted == [])
        && (built.0.Success? ==>
              && eff.ok == LegacyAllResolved(net, eff.posted)
              && |eff.posted| == |changes|
              && forall i :: 0 <= i < |changes| ==>
                   changes[i].uid in eff.cache && eff.cache[changes[i].uid].Success?
                   && eff.posted[i] == MakeEmbedFromChange(changes[i], eff.cache[changes[i].uid].value))
  {
    if LegacyFetchFromTo(net, b, start, end).Success? {
      LegacyEmbedAllImages(cache, Collate(LegacyFetchFromTo(net, b, start, end).value), net);
    }
  }

  /**
   * The original feed commits a batch although the webhook refused one of
   * its posts: a refusal that came with a response resolves the post. This
   * witnesses the finding on src/discord.ts:71-84, whose `.catch` rethrows
   * only errors without a response; `FeedBatchPosts` shows that the feed
   * command, whose sender rethrows every such error, commits only delivered
   * batches. Dafny needs no proof steps beyond unfolding `LegacyBatch`.
   */
  lemma LegacyBatchCommitsRefused(net: Network, b: Bounds, cache: map<nat, UserLookup>, start: nat, end: nat, i: nat)
    requires LegacyFetchFromTo(net, b, start, end).Success?
    requires var built := LegacyEmbedAll(cache, Collate(LegacyFetchFromTo(net, b, start, end).value), net).0;
      built.Success? && i < |built.value| && LegacyAllResolved(net, built.value) && net.post(built.value[i]) == Refused
    ensures LegacyBatch(net, b, cache, start, end).ok
    ensures !AllDelivered(net, LegacyBatch(net, b, cache, start, end).posted)
  {
  }
}
