/**
 * The feed command of src/commands/feed/feed.ts: the module-level state
 * (`settings.settings.last`, `isProcessing`, the profile cache) as the fields
 * of `Feed`, the webhook as the list of posted embeds, and `processingLoop`
 * run over a finite list of `state.txt` responses, one per turn.
 */
module FeedCommand {
  import opened Wrappers
  import opened Types
  import opened Osm
  import opened Batch
  import opened Profiles
  import opened Embeds
  import opened Pipeline
  import opened Processing

  /** How `runFeed` ended. */
  datatype RunOutcome =
    | Initialised(latest: nat) // first run: the checkpoint was set and nothing was processed
    | Triggered(started: bool) // the first `processingLock` call; scheduling is not modelled
    | Rejected(reason: string)

  class Feed {
    const bounds: Bounds
    const profiles: ProfileCache
    /** `settings.settings.last`: the last sequence whose changesets were all posted. */
    var last: Option<nat>
    var isProcessing: bool
    /** The embeds posted to the webhook, in posting order. */
    var sent: seq<Embed>

    ghost predicate Valid()
      reads this, profiles
    {
      profiles.Valid()
    }

    /** The state after the settings have been read and the profile cache created. */
    constructor(bounds: Bounds, last: Option<nat>)
      ensures Valid() && fresh(profiles)
      ensures this.bounds == bounds && this.last == last
      ensures !isProcessing && sent == [] && profiles.cache == map[]
    {
      this.bounds := bounds;
      this.last := last;
      isProcessing := false;
      sent := [];
      profiles := new ProfileCache();
    }

    /** `collatedChanges.map(c => makeFullEmbedForChange(c, profileImageUrlCache))`. */
    method EmbedBatch(changes: seq<ChangesetDetails>, net: Network) returns (embeds: seq<Embed>)
      requires Valid()
      modifies profiles
      ensures Valid()
      ensures (embeds, profiles.cache) == EmbedAll(old(profiles.cache), changes, net)
    {
      embeds := [];
      ghost var cache0 := profiles.cache;
      for i := 0 to |changes|
        invariant profiles.Valid()
        invariant (embeds, profiles.cache) == EmbedAll(cache0, changes[..i], net)
      {
        assert changes[..i + 1][..i] == changes[..i];
        var e := MakeFullEmbedForChange(changes[i], profiles, net.user(changes[i].uid));
        embeds := embeds + [e];
      }
      assert changes[..|changes|] == changes;
    }

    /**
     * `Promise.all(embeds.map(sendWebhookMessage))`: every embed is posted;
     * the whole resolves iff every post was delivered.
     */
    method SendAll(embeds: seq<Embed>, net: Network) returns (ok: bool)
      modifies this`sent
      ensures sent == old(sent) + embeds
      ensures ok == AllDelivered(net, embeds)
    {
      ok := true;
      for i := 0 to |embeds|
        invariant sent == old(sent) + embeds[..i]
        invariant ok == AllDelivered(net, embeds[..i])
      {
        assert embeds[..i + 1] == embeds[..i] + [embeds[i]];
        sent := sent + [embeds[i]];
        ok := ok && net.post(embeds[i]) == Delivered;
      }
      assert embeds[..|embeds|] == embeds;
    }

    /**
     * `doProcess(start, end)`: fetch, collate, embed and post the batch; the
     * checkpoint moves to `end` only when every post resolved.
     */
    method DoProcess(start: nat, end: nat, net: Network) returns (ok: bool)
      requires Valid()
      modifies this, profiles
      ensures Valid() && isProcessing == old(isProcessing)
      ensures FetchFromTo(net, bounds, start, end).Failure? ==>
        !ok && last == old(last) && sent == old(sent) && profiles.cache == old(profiles.cache)
      ensures FetchFromTo(net, bounds, start, end).Success? ==>
        var batch := EmbedAll(old(profiles.cache), Collate(FetchFromTo(net, bounds, start, end).value), net);
        && sent == old(sent) + batch.0
        && profiles.cache == batch.1
        && ok == AllDelivered(net, batch.0)
        && last == if ok then Some(end) else old(last)
      ensures var eff := FeedBatch(net, bounds, old(profiles.cache), start, end);
        ok == eff.ok && sent == old(sent) + eff.posted && profiles.cache == eff.cache
    {
      var results := FetchFromTo(net, bounds, start, end);
      if results.Failure? {
        return false;
      }
      var collated := Collate(results.value);
      var embeds := EmbedBatch(collated, net);
      ok := SendAll(embeds, net);
      if ok {
        last := Some(end);
      }
    }

    /**
     * The body of one `processingLoop` turn once the latest sequence number is
     * known: `None` when `last` has caught up, otherwise whether the planned
     * batch was committed. The checkpoint moves by at most `RequestCount` and
     * never past `latest`; posts are only appended.
     */
    method CatchUpStep(latest: nat, net: Network) returns (committed: Option<bool>)
      requires Valid() && last.Some?
      modifies this, profiles
      ensures Valid() && last.Some? && isProcessing == old(isProcessing)
      ensures committed.None? <==> latest <= old(last).value
      ensures committed.None? ==> last == old(last) && sent == old(sent) && profiles.cache == old(profiles.cache)
      ensures committed == Some(true) ==> old(last).value < last.value <= latest && last.value - old(last).value <= RequestCount
      ensures committed != Some(true) ==> last == old(last)
      ensures old(sent) <= sent
      ensures var step := CatchUp(FeedBatches(net, bounds), LoopState(old(last).value, old(profiles.cache), old(sent)), latest);
        && committed == (if step.0.None? then None else Some(step.0.value.ok))
        && last == Some(step.1.last) && profiles.cache == step.1.cache && sent == step.1.sent
    {
      match PlanBatch(last.value, latest)
      case None =>
        return None;
      case Some((start, end)) =>
        var ok := DoProcess(start, end, net);
        return Some(ok);
    }

    /**
     * `processingLoop`: each turn reads the latest sequence number and, while
     * `last` is behind it, processes the next batch: the run `RunLoop`
     * describes, whose committed batches cover the sequences it moved `last`
     * over. The checkpoint only moves forward and never past a reported
     * sequence number; posts are only ever appended.
     */
    method ProcessingLoop(states: seq<Result<string, string>>, net: Network) returns (outcome: LoopOutcome)
      requires Valid() && last.Some?
      modifies this, profiles
      ensures Valid() && last.Some? && isProcessing == old(isProcessing)
      ensures old(last).value <= last.value <= MaxReported(old(last).value, states)
      ensures old(sent) <= sent
      ensures outcome == CaughtUp ==>
        exists k :: 0 <= k < |states| && Reported(states[k]).Some? && Reported(states[k]).value <= last.value
      ensures var run := RunLoop(FeedBatches(net, bounds), states, LoopState(old(last).value, old(profiles.cache), old(sent)));
        outcome == run.outcome && last == Some(run.state.last) && profiles.cache == run.state.cache && sent == run.state.sent
    {
      ghost var floor := last.value;
      ghost var goal := RunLoop(FeedBatches(net, bounds), states, LoopState(last.value, profiles.cache, sent));
      var i := 0;
      while i < |states|
        invariant 0 <= i <= |states|
        invariant Valid() && last.Some? && isProcessing == old(isProcessing)
        invariant floor <= last.value <= MaxReported(floor, states[..i])
        invariant old(sent) <= sent
        invariant var run := RunLoop(FeedBatches(net, bounds), states[i..], LoopState(last.value, profiles.cache, sent));
          run.outcome == goal.outcome && run.state == goal.state
        decreases |states| - i
      {
        assert states[..i + 1][..i] == states[..i];
        RunLoopTurn(FeedBatches(net, bounds), states, i, LoopState(last.value, profiles.cache, sent));
        MaxReportedPrefix(floor, states, i + 1);
        ghost var before := sent;
        var latest := LatestOf(states[i]);
        if latest.Failure? {
          return Failed(latest.error);
        }
        var committed := CatchUpStep(latest.value, net);
        assert before <= sent;
        if committed.None? {
          return CaughtUp;
        } else if !committed.value {
          return Failed(BatchFailed);
        }
        i := i + 1;
      }
      assert states[..|states|] == states;
      return OutOfResponses;
    }

    /** `processingLock`: a trigger while processing does nothing; otherwise it runs the loop under the flag. */
    method ProcessingLock(states: seq<Result<string, string>>, net: Network) returns (started: bool)
      requires Valid() && last.Some?
      modifies this, profiles
      ensures Valid() && last.Some?
      ensures started == !old(isProcessing)
      ensures !started ==> isProcessing && last == old(last) && sent == old(sent) && profiles.cache == old(profiles.cache)
      ensures started ==> !isProcessing && old(last).value <= last.value <= MaxReported(old(last).value, states)
      ensures started ==>
        var run := RunLoop(FeedBatches(net, bounds), states, LoopState(old(last).value, old(profiles.cache), old(sent)));
        last == Some(run.state.last) && profiles.cache == run.state.cache && sent == run.state.sent
    {
      if isProcessing {
        return false;
      }
      isProcessing := true;
      var outcome := ProcessingLoop(states, net);
      isProcessing := false;
      return true;
    }

    /**
     * `runFeed` after the settings are read: without a checkpoint it records
     * the latest sequence number and stops; otherwise it triggers processing
     * once.
     */
    method RunFeed(initial: Result<string, string>, states: seq<Result<string, string>>, net: Network) returns (r: RunOutcome)
      requires Valid()
      modifies this, profiles
      ensures Valid()
      ensures old(last).None? ==>
        sent == old(sent) && profiles.cache == old(profiles.cache) && isProcessing == old(isProcessing)
        && (Reported(initial).Some? ==> r == Initialised(Reported(initial).value) && last == Reported(initial))
        && (Reported(initial).None? ==> r.Rejected? && last == None)
      ensures old(last).Some? ==> r == Triggered(!old(isProcessing)) && last.Some? && old(last).value <= last.value
      ensures old(last).Some? && old(isProcessing) ==> last == old(last) && sent == old(sent) && profiles.cache == old(profiles.cache)
      ensures old(last).Some? && !old(isProcessing) ==>
        var run := RunLoop(FeedBatches(net, bounds), states, LoopState(old(last).value, old(profiles.cache), old(sent)));
        last == Some(run.state.last) && profiles.cache == run.state.cache && sent == run.state.sent && !isProcessing
    {
      if last.None? {
        match initial
        case Failure(e) =>
          return Rejected(e);
        case Success(text) =>
          match ParseState(text)
          case Failure(e) =>
            return Rejected(e);
          case Success(latest) =>
            last := Some(latest);
            return Initialised(latest);
      }
      var started := ProcessingLock(states, net);
      return Triggered(started);
    }
  }
}
