/**
 * The original feed of src/main.ts: the same loop as the feed command, with
 * the block-wise filter of `getBoundedChangesetsFromSequenceXML` and the
 * global `profileImageUrlCache` record, which keeps rejected lookups.
 */
module LegacyMain {
  import opened Wrappers
  import opened Types
  import opened Osm
  import opened Batch
  import opened Profiles
  import opened Embeds
  import opened Pipeline
  import opened Processing

  class LegacyFeed {
    const bounds: Bounds
    /** `settings.last`. */
    var last: Option<nat>
    var isProcessing: bool
    /** `profileImageUrlCache`: the lookup of each user asked for so far. */
    var profileImageUrlCache: map<nat, UserLookup>
    /** The embeds posted to the webhook, in posting order. */
    var sent: seq<Embed>

    /** The state once `readSettings` has read the settings file. */
    constructor(bounds: Bounds, last: Option<nat>)
      ensures this.bounds == bounds && this.last == last
      ensures !isProcessing && sent == [] && profileImageUrlCache == map[]
    {
      this.bounds := bounds;
      this.last := last;
      isProcessing := false;
      profileImageUrlCache := map[];
      sent := [];
    }

    /**
     * `Promise.all(collatedChanges.map(makeFullEmbedForChange))`: every
     * author's lookup is cached, and the whole fails if one of them is a
     * rejection.
     */
    method EmbedBatch(changes: seq<ChangesetDetails>, net: Network) returns (embeds: Result<seq<Embed>, string>)
      modifies this`profileImageUrlCache
      ensures (embeds, profileImageUrlCache) == LegacyEmbedAll(old(profileImageUrlCache), changes, net)
    {
      embeds := Success([]);
      for i := 0 to |changes|
        invariant (embeds, profileImageUrlCache) == LegacyEmbedAll(old(profileImageUrlCache), changes[..i], net)
      {
        assert changes[..i + 1][..i] == changes[..i];
        var c := changes[i];
        var (entry, after) := LegacyCacheGet(profileImageUrlCache, c.uid, net.user(c.uid));
        profileImageUrlCache := after;
        if embeds.Success? {
          match entry
          case Failure(e) =>
            embeds := Failure(e);
          case Success(url) =>
            embeds := Success(embeds.value + [MakeEmbedFromChange(c, url)]);
        }
      }
      assert changes[..|changes|] == changes;
    }

    /**
     * `Promise.all(embeds.map(sendWebhookMessage))` with the
     * `sendWebhookMessage` of src/discord.ts: every embed is posted; the whole
     * resolves unless some post got no response at all.
     */
    method SendAll(embeds: seq<Embed>, net: Network) returns (ok: bool)
      modifies this`sent
      ensures sent == old(sent) + embeds
      ensures ok == LegacyAllResolved(net, embeds)
    {
      ok := true;
      for i := 0 to |embeds|
        invariant sent == old(sent) + embeds[..i]
        invariant ok == LegacyAllResolved(net, embeds[..i])
      {
        assert embeds[..i + 1] == embeds[..i] + [embeds[i]];
        sent := sent + [embeds[i]];
        ok := ok && net.post(embeds[i]) != Unreachable;
      }
      assert embeds[..|embeds|] == embeds;
    }

    /**
     * `doProcess(start, end)`: posts are sent only when every embed was built,
     * and the checkpoint moves to `end` only when every post resolved.
     */
    method DoProcess(start: nat, end: nat, net: Network) returns (ok: bool)
      modifies this`last, this`sent, this`profileImageUrlCache
      ensures old(sent) <= sent && last == if ok then Some(end) else old(last)
      ensures LegacyFetchFromTo(net, bounds, start, end).Failure? ==>
        !ok && last == old(last) && sent == old(sent) && profileImageUrlCache == old(profileImageUrlCache)
      ensures LegacyFetchFromTo(net, bounds, start, end).Success? ==>
        var batch := LegacyEmbedAll(old(profileImageUrlCache), Collate(LegacyFetchFromTo(net, bounds, start, end).value), net);
        && profileImageUrlCache == batch.1
        && (batch.0.Failure? ==> !ok && sent == old(sent) && last == old(last))
        && (batch.0.Success? ==>
              sent == old(sent) + batch.0.value
              && ok == LegacyAllResolved(net, batch.0.value)
              && last == if ok then Some(end) else old(last))
      ensures var eff := LegacyBatch(net, bounds, old(profileImageUrlCache), start, end);
        ok == eff.ok && sent == old(sent) + eff.posted && profileImageUrlCache == eff.cache
    {
      var results := LegacyFetchFromTo(net, bounds, start, end);
      if results.Failure? {
        return false;
      }
      ok := PostBatch(Collate(results.value), end, net);
    }

    /** The part of `doProcess` after the fetch: build every embed, post them, commit `end`. */
    method PostBatch(changes: seq<ChangesetDetails>, end: nat, net: Network) returns (ok: bool)
      modifies this`last, this`sent, this`profileImageUrlCache
      ensures var batch := LegacyEmbedAll(old(profileImageUrlCache), changes, net);
        && profileImageUrlCache == batch.1
        && (batch.0.Failure? ==> !ok && sent == old(sent) && last == old(last))
        && (batch.0.Success? ==>
              sent == old(sent) + batch.0.value
              && ok == LegacyAllResolved(net, batch.0.value)
              && last == if ok then Some(end) else old(last))
    {
      var embeds := EmbedBatch(changes, net);
      if embeds.Failure? {
        return false;
      }
      ok := SendAll(embeds.value, net);
      if ok {
        last := Some(end);
      }
    }

    /** One `processingLoop` turn once the latest sequence number is known, as in the feed command. */
    method CatchUpStep(latest: nat, net: Network) returns (committed: Option<bool>)
      requires last.Some?
      modifies this
      ensures last.Some? && isProcessing == old(isProcessing)
      ensures committed.None? <==> latest <= old(last).value
      ensures committed.None? ==> last == old(last) && sent == old(sent) && profileImageUrlCache == old(profileImageUrlCache)
      ensures committed == Some(true) ==> old(last).value < last.value <= latest && last.value - old(last).value <= RequestCount
      ensures committed != Some(true) ==> last == old(last)
      ensures old(sent) <= sent
      ensures var step := CatchUp(LegacyBatches(net, bounds), LoopState(old(last).value, old(profileImageUrlCache), old(sent)), latest);
        && committed == (if step.0.None? then None else Some(step.0.value.ok))
        && last == Some(step.1.last) && profileImageUrlCache == step.1.cache && sent == step.1.sent
    {
      match PlanBatch(last.value, latest)
      case None =>
        return None;
      case Some((start, end)) =>
        var ok := DoProcess(start, end, net);
        return Some(ok);
    }

    /**
     * `processingLoop` of src/main.ts, with the same guarantees as the feed
     * command's: the run `RunLoop` describes with the original feed's batches.
     * Returns whether the loop broke because `last` had caught up.
     */
    method ProcessingLoop(states: seq<Result<string, string>>, net: Network) returns (caughtUp: bool)
      requires last.Some?
      modifies this
      ensures last.Some? && isProcessing == old(isProcessing)
      ensures old(last).value <= last.value <= MaxReported(old(last).value, states)
      ensures old(sent) <= sent
      ensures caughtUp ==>
        exists k :: 0 <= k < |states| && Reported(states[k]).Some? && Reported(states[k]).value <= last.value
      ensures var run := RunLoop(LegacyBatches(net, bounds), states, LoopState(old(last).value, old(profileImageUrlCache), old(sent)));
        && caughtUp == (run.outcome == CaughtUp)
        && last == Some(run.state.last) && profileImageUrlCache == run.state.cache && sent == run.state.sent
    {
      ghost var floor := last.value;
      ghost var goal := RunLoop(LegacyBatches(net, bounds), states, LoopState(last.value, profileImageUrlCache, sent));
      var i := 0;
      while i < |states|
        invariant 0 <= i <= |states|
        invariant last.Some? && isProcessing == old(isProcessing)
        invariant floor <= last.value <= MaxReported(floor, states[..i])
        invariant old(sent) <= sent
        invariant var run := RunLoop(LegacyBatches(net, bounds), states[i..], LoopState(last.value, profileImageUrlCache, sent));
          run.outcome == goal.outcome && run.state == goal.state
        decreases |states| - i
      {
        assert states[..i + 1][..i] == states[..i];
        RunLoopTurn(LegacyBatches(net, bounds), states, i, LoopState(last.value, profileImageUrlCache, sent));
        MaxReportedPrefix(floor, states, i + 1);
        ghost var before := sent;
        var latest := LatestOf(states[i]);
        if latest.Failure? {
          return false;
        }
        var committed := CatchUpStep(latest.value, net);
        assert before <= sent;
        if committed.None? {
          return true;
        } else if !committed.value {
          return false;
        }
        i := i + 1;
      }
      assert states[..|states|] == states;
      return false;
    }

    /** `processingLock` of src/main.ts. */
    method ProcessingLock(states: seq<Result<string, string>>, net: Network) returns (started: bool)
      requires last.Some?
      modifies this
      ensures last.Some?
      ensures started == !old(isProcessing)
      ensures !started ==> isProcessing && last == old(last) && sent == old(sent) && profileImageUrlCache == old(profileImageUrlCache)
      ensures started ==> !isProcessing && old(last).value <= last.value <= MaxReported(old(last).value, states)
      ensures started ==>
        var run := RunLoop(LegacyBatches(net, bounds), states, LoopState(old(last).value, old(profileImageUrlCache), old(sent)));
        last == Some(run.state.last) && profileImageUrlCache == run.state.cache && sent == run.state.sent
    {
      if isProcessing {
        return false;
      }
      isProcessing := true;
      var caughtUp := ProcessingLoop(states, net);
      isProcessing := false;
      return true;
    }

    /**
     * `main` after `readSettings`: without a checkpoint it records the latest
     * sequence number and stops; otherwise it triggers processing once.
     * Returns whether it processed, or the reason the first run was rejected.
     */
    method Start(initial: Result<string, string>, states: seq<Result<string, string>>, net: Network) returns (r: Result<bool, string>)
      modifies this
      ensures old(last).None? ==>
        sent == old(sent) && profileImageUrlCache == old(profileImageUrlCache) && isProcessing == old(isProcessing)
        && last == Reported(initial) && (r.Success? <==> Reported(initial).Some?) && (r.Success? ==> !r.value)
      ensures old(last).Some? ==> r == Success(!old(isProcessing)) && last.Some? && old(last).value <= last.value
      ensures old(last).Some? && old(isProcessing) ==> last == old(last) && sent == old(sent) && profileImageUrlCache == old(profileImageUrlCache)
      ensures old(last).Some? && !old(isProcessing) ==>
        var run := RunLoop(LegacyBatches(net, bounds), states, LoopState(old(last).value, old(profileImageUrlCache), old(sent)));
        last == Some(run.state.last) && profileImageUrlCache == run.state.cache && sent == run.state.sent && !isProcessing
    {
      if last.None? {
        var latest := Reported(initial);
        if latest.None? {
          return Failure("Could not get latest sequence number.");
        }
        last := latest;
        return Success(false);
      }
      var started := ProcessingLock(states, net);
      return Success(started);
    }
  }
}
