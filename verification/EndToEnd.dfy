/** The whole pipeline at once: agent run, runtime, worker, log, wire, parser, reducer.  The worker's
    publishes and the end of its task are interleaved freely with other streams, connections, reads
    and cuts; what the browser ends up showing is still the agent's answer. */
module EndToEnd {
  import opened Text
  import opened AgentModels
  import opened AgentLoop
  import opened Broker
  import opened SseRoundTrip
  import opened Worker
  import opened Views
  import opened Resume
  import opened ResumeRuns
  import opened ChatTurn
  import AgentRuns

  /** What a run publishes to one message's stream. */
  function OwnPublishes(steps: seq<Resume.Step>, me: string): seq<LogEvent> {
    if steps == [] then []
    else
      var last := steps[|steps| - 1];
      OwnPublishes(steps[..|steps| - 1], me)
      + (if last.Publish? && last.messageId == me then [last.e] else [])
  }

  /** The run is driven by a worker living `life`: its log is written front to back and the task ends
      when all of it is written; and the client asks again only while it waits for the end. */
  ghost predicate DrivenBy(life: Life, broker: State<LogEvent>, codec: Codec, me: string, steps: seq<Resume.Step>) {
    forall k :: 0 <= k < |steps| ==>
      var published := OwnPublishes(steps[..k], me);
      match steps[k]
      case Publish(m, e) => m == me ==> |published| < |FullLog(life)| && e == FullLog(life)[|published|]
      case TaskEnds => published == FullLog(life)
      case Connect(_) => !TerminalSeen(StateAfter(Init(broker), codec, me, steps[..k]))
      case _ => true
  }

  lemma DrivenPrefix(life: Life, broker: State<LogEvent>, codec: Codec, me: string, steps: seq<Resume.Step>)
    requires DrivenBy(life, broker, codec, me, steps) && steps != []
    ensures DrivenBy(life, broker, codec, me, steps[..|steps| - 1])
  {
    hide OwnPublishes, FullLog, TerminalSeen, StateAfter;
    var before := steps[..|steps| - 1];
    assert forall k :: 0 <= k < |before| ==> before[..k] == steps[..k] && before[k] == steps[k];
  }

  lemma {:induction false} PublishedIsLogPrefix(
      life: Life, broker: State<LogEvent>, codec: Codec, me: string, steps: seq<Resume.Step>)
    requires DrivenBy(life, broker, codec, me, steps)
    ensures OwnPublishes(steps, me) <= FullLog(life)
  {
    hide FullLog, TerminalSeen, StateAfter;
    if steps != [] {
      DrivenPrefix(life, broker, codec, me, steps);
      PublishedIsLogPrefix(life, broker, codec, me, steps[..|steps| - 1]);
      assert steps[..|steps| - 1] == steps[..|steps| - 1];
    }
  }

  lemma {:induction false} StreamIsPublished(broker: State<LogEvent>, codec: Codec, me: string, steps: seq<Resume.Step>)
    requires AllNumbered(broker) && broker.Stream(me) == []
    ensures AllNumbered(StateAfter(Init(broker), codec, me, steps).broker)
    ensures OwnPayloads(StateAfter(Init(broker), codec, me, steps), me) == OwnPublishes(steps, me)
  {
    hide AllNumbered;
    if steps != [] {
      var before, step := steps[..|steps| - 1], steps[|steps| - 1];
      StreamIsPublished(broker, codec, me, before);
      var s := StateAfter(Init(broker), codec, me, before);
      LogOnlyGrowsByPublish(s, codec, me, step);
      if step.Publish? {
        PublishKeepsNumbering(s.broker, step.messageId, step.e);
      }
    }
  }

  /** A worker that lives to write its terminal event runs the stream in good order. */
  lemma DrivenIsDisciplined(life: Life, broker: State<LogEvent>, codec: Codec, me: string, steps: seq<Resume.Step>)
    requires AllNumbered(broker) && broker.Stream(me) == []
    requires DrivenBy(life, broker, codec, me, steps) && ClosedLog(FullLog(life))
    ensures DisciplinedRun(Init(broker), codec, me, steps)
  {
    hide AllNumbered, FullLog, OwnPublishes, StateAfter;
    forall k | 0 <= k < |steps|
      ensures Disciplined(StateAfter(Init(broker), codec, me, steps[..k]), me, steps[k])
    {
      StreamIsPublished(broker, codec, me, steps[..k]);
      var s := StateAfter(Init(broker), codec, me, steps[..k]);
      var log := s.broker.Stream(me);
      assert |OwnPayloads(s, me)| == |log| && forall i :: 0 <= i < |log| ==> OwnPayloads(s, me)[i] == log[i].payload;
      PublishedBefore(life, broker, codec, me, steps, k);
    }
  }

  lemma PublishedBefore(life: Life, broker: State<LogEvent>, codec: Codec, me: string, steps: seq<Resume.Step>, k: nat)
    requires DrivenBy(life, broker, codec, me, steps) && k <= |steps|
    ensures OwnPublishes(steps[..k], me) <= FullLog(life)
  {
    hide OwnPublishes, FullLog, TerminalSeen, StateAfter;
    var before := steps[..k];
    assert forall j :: 0 <= j < |before| ==> before[..j] == steps[..j] && before[j] == steps[j];
    PublishedIsLogPrefix(life, broker, codec, me, before);
  }

  /** What has been seen is always a prefix of the worker's own log. */
  lemma SeenIsLogPrefix(
      life: Life, broker: State<LogEvent>, codec: Codec, me: string, steps: seq<Resume.Step>)
    requires GoodCodec(codec.print_, codec.parse) && AllNumbered(broker) && broker.Stream(me) == []
    requires DrivenBy(life, broker, codec, me, steps)
    ensures var s := StateAfter(Init(broker), codec, me, steps);
            !s.snapshotServed ==>
              && |s.seen| <= |OwnPayloads(s, me)| <= |FullLog(life)|
              && OwnPayloads(s, me) <= FullLog(life)
              && s.seen == AsEvents(s.broker.Stream(me)[..|s.seen|])
              && DraftOf(s) == Fold(FRESH_DRAFT, FullLog(life)[..|s.seen|])
  {
    hide AllNumbered, GoodCodec, DrivenBy, FullLog, StateAfter, DraftOf, Fold, AsEvents;
    var s := StateAfter(Init(broker), codec, me, steps);
    SeenOnceInOrder(broker, codec, me, steps);
    StreamIsPublished(broker, codec, me, steps);
    PublishedIsLogPrefix(life, broker, codec, me, steps);
    if !s.snapshotServed {
      var own := OwnPayloads(s, me);
      assert own[..|s.seen|] == FullLog(life)[..|s.seen|];
    }
  }

  lemma LastSeenIsInLog(s: System, me: string, life: Life)
    requires 0 < |s.seen| <= |OwnPayloads(s, me)| && OwnPayloads(s, me) <= FullLog(life)
    requires s.seen == AsEvents(s.broker.Stream(me)[..|s.seen|])
    ensures |s.seen| <= |FullLog(life)|
    ensures TerminalSeen(s) <==> IsTerminal(FullLog(life)[|s.seen| - 1])
  {
    hide FullLog, EventName, PayloadOf, React;
    var n, log := |s.seen|, s.broker.Stream(me);
    assert s.seen[n - 1] == AsEvents(log[..n])[n - 1] == AsEvent(log[n - 1]);
    ReactIsReduce(FRESH_DRAFT, log[n - 1].payload);
    assert OwnPayloads(s, me)[n - 1] == FullLog(life)[n - 1];
  }

  /** For every life of the worker and every schedule: until a snapshot is served, the browser has read
      its own log from the front without gaps or repeats, and once it has read the end it shows what
      was stored.  A life that ends in a terminal event never leads to a snapshot. */
  lemma BrowserFollowsWorker(
      life: Life, broker: State<LogEvent>, codec: Codec, me: string, steps: seq<Resume.Step>)
    requires GoodCodec(codec.print_, codec.parse) && AllNumbered(broker) && broker.Stream(me) == []
    requires DrivenBy(life, broker, codec, me, steps)
    ensures var s := StateAfter(Init(broker), codec, me, steps);
            && (ClosedLog(FullLog(life)) ==> !s.snapshotServed)
            && (!s.snapshotServed ==>
                  && |s.seen| <= |FullLog(life)|
                  && DraftOf(s) == Fold(FRESH_DRAFT, FullLog(life)[..|s.seen|])
                  && (TerminalSeen(s) ==>
                        && |s.seen| == |FullLog(life)|
                        && DraftOf(s).steps == Stored(life).steps
                        && DraftOf(s).status == Stored(life).status
                        && (Stored(life).status != StatusError ==> DraftOf(s).content == Stored(life).content)))
  {
    hide AllNumbered, GoodCodec, DrivenBy, FullLog, ClosedLog, OpenLog, StateAfter, DraftOf, Fold, Stored, Invariant,
      TerminalSeen;
    var s := StateAfter(Init(broker), codec, me, steps);
    SeenIsLogPrefix(life, broker, codec, me, steps);
    LogShape(life);
    if ClosedLog(FullLog(life)) {
      DrivenIsDisciplined(life, broker, codec, me, steps);
      NoSnapshotBeforeTerminal(broker, codec, me, steps);
      if TerminalSeen(s) {
        SeenAllOfLife(s, codec, me, life);
        DraftAgreesWithStore(s, codec, me, life);
      }
    } else if !s.snapshotServed {
      NoTerminalInOpenLog(s, me, life);
    }
  }

  lemma NoTerminalInOpenLog(s: System, me: string, life: Life)
    requires |s.seen| <= |OwnPayloads(s, me)| && OwnPayloads(s, me) <= FullLog(life)
    requires s.seen == AsEvents(s.broker.Stream(me)[..|s.seen|])
    requires OpenLog(FullLog(life))
    ensures !TerminalSeen(s)
  {
    hide FullLog, AsEvents;
    if s.seen != [] {
      LastSeenIsInLog(s, me, life);
    }
  }

  /** The terminal event is the last of the log, so having seen it is having seen all. */
  lemma SeenAllOfLife(s: System, codec: Codec, me: string, life: Life)
    requires Orderly(s, codec, me) && TerminalSeen(s)
    requires OwnPayloads(s, me) <= FullLog(life) && ClosedLog(FullLog(life))
    ensures OwnPayloads(s, me) == FullLog(life) && |s.seen| == |FullLog(life)|
  {
    hide Invariant, FullLog, EventName, PayloadOf, React;
    WholeLogOnceTerminalSeen(s, codec, me);
    var log, n := s.broker.Stream(me), |s.seen|;
    assert s.seen[n - 1] == AsEvent(log[n - 1]);
    ReactIsReduce(FRESH_DRAFT, log[n - 1].payload);
    assert OwnPayloads(s, me)[n - 1] == log[n - 1].payload;
    assert FullLog(life)[n - 1] == OwnPayloads(s, me)[n - 1];
  }

  // Lives without a terminal event

  lemma {:induction false} EndedMeansAllPublished(
      life: Life, broker: State<LogEvent>, codec: Codec, me: string, steps: seq<Resume.Step>)
    requires DrivenBy(life, broker, codec, me, steps)
    ensures !StateAfter(Init(broker), codec, me, steps).running ==> OwnPublishes(steps, me) == FullLog(life)
  {
    hide FullLog, TerminalSeen, Connected, Served, Arrived;
    if steps != [] {
      DrivenPrefix(life, broker, codec, me, steps);
      EndedMeansAllPublished(life, broker, codec, me, steps[..|steps| - 1]);
      LogOnlyGrowsByPublish(StateAfter(Init(broker), codec, me, steps[..|steps| - 1]), codec, me, steps[|steps| - 1]);
      assert OwnPublishes(steps[..|steps| - 1], me) + [] == OwnPublishes(steps[..|steps| - 1], me);
    }
  }

  /** A cancel during the final persist leaves a log without its end.  The browser then keeps waiting:
      it never sees a terminal event, and its next request is answered with the snapshot exactly when it
      has read all there is and the worker is gone.  The snapshot lands on the text and steps already
      shown, so they appear twice. */
  lemma UnfinishedLogEndsInSnapshot(
      life: Life, broker: State<LogEvent>, codec: Codec, me: string, steps: seq<Resume.Step>, view: MessageView)
    requires GoodCodec(codec.print_, codec.parse) && AllNumbered(broker) && broker.Stream(me) == []
    requires DrivenBy(life, broker, codec, me, steps)
    requires life.cancelledInPersist && !AfterStream(life).terminalPublished
    ensures var s, stored := StateAfter(Init(broker), codec, me, steps), Stored(life);
            !s.snapshotServed ==>
              && !TerminalSeen(s)
              && (ServesSnapshot(s, me) <==> |s.seen| == |FullLog(life)| && !s.running)
              && (ServesSnapshot(s, me) && Rising(stored.steps) && Complete(stored) == Some(view) ==>
                    var after := FoldSeen(DraftOf(s), EventsOf(SnapshotItems(view)));
                    && after.status == StatusCompleted
                    && after.content == stored.content + stored.content
                    && after.steps == stored.steps + stored.steps)
  {
    hide AllNumbered, GoodCodec, DrivenBy, FullLog, OpenLog, StateAfter, DraftOf, Fold, FoldSeen, EventsOf,
      SnapshotItems, Stored, Invariant, TerminalSeen, ServesSnapshot, ByIndex, AsEvents, Connected, AfterStream;
    var s := StateAfter(Init(broker), codec, me, steps);
    SeenIsLogPrefix(life, broker, codec, me, steps);
    LogShape(life);
    if !s.snapshotServed {
      NoTerminalInOpenLog(s, me, life);
      EveryRunKeepsInvariant(broker, codec, me, steps);
      SnapshotServedIff(s, codec, me);
      StreamIsPublished(broker, codec, me, steps);
      EndedMeansAllPublished(life, broker, codec, me, steps);
      if ServesSnapshot(s, me) {
        LiveViewAgreesWithStore(life);
        assert FullLog(life)[..|s.seen|] == FullLog(life);
        RisingStepsIfAny(Stored(life).steps);
        ReconnectAfterTheEndAdds(s, codec, me, view);
      }
    }
  }

  lemma RisingStepsIfAny(steps: seq<AgentStep>)
    ensures Rising(steps) ==> ByIndex(steps) == steps
  {
    if Rising(steps) {
      RisingStepsKeepTheirOrder(steps);
    }
  }

  // Agent runs

  /** From the model's words to the screen: for every agent run that yields a result, under any
      schedule of publishes, connections and cuts, a browser that has seen the end shows the streamed
      steps in order and the right status.  For a completed run it shows exactly the result's output,
      which is the stored text; for any other it shows no text while the reason is stored. */
  lemma BrowserShowsTheAnswer(
      cfg: AgentConfig, env: Environment,
      userInput: string, systemPrompt: Option<string>, history: seq<ChatMessage>,
      storeAccepts: bool, cancelledInPersist: bool,
      broker: State<LogEvent>, codec: Codec, me: string, steps: seq<Resume.Step>)
    requires cfg.Valid()
    requires GoodCodec(codec.print_, codec.parse) && AllNumbered(broker) && broker.Stream(me) == []
    requires Run(cfg, env, InitialState(userInput, systemPrompt, history)).Done?
    requires DrivenBy(
      LifeOf(Run(cfg, env, InitialState(userInput, systemPrompt, history)), None, storeAccepts, cancelledInPersist),
      broker, codec, me, steps)
    ensures var run := Run(cfg, env, InitialState(userInput, systemPrompt, history));
            var stored := Stored(LifeOf(run, None, storeAccepts, cancelledInPersist));
            var s := StateAfter(Init(broker), codec, me, steps);
            && (run.result.status != Completed || !cancelledInPersist ==> !s.snapshotServed)
            && (!s.snapshotServed && TerminalSeen(s) ==>
              && DraftOf(s).steps == AgentRuns.StreamedSteps(run.events)
              && DraftOf(s).status == (if run.result.status == Completed then StatusCompleted else StatusError)
              && (DraftOf(s).content == stored.content <==> run.result.status == Completed)
              && (if run.result.status == Completed
                  then DraftOf(s).content == OrEmpty(run.result.output)
                  else DraftOf(s).content == "" && stored.content == OrEmpty(run.result.output) != ""))
  {
    hide AllNumbered, GoodCodec, DrivenBy, FullLog, StateAfter, DraftOf, Stored, TerminalSeen, Run, LifeOf, Fold;
    var run := Run(cfg, env, InitialState(userInput, systemPrompt, history));
    var life := LifeOf(run, None, storeAccepts, cancelledInPersist);
    var s := StateAfter(Init(broker), codec, me, steps);
    BrowserFollowsWorker(life, broker, codec, me, steps);
    LifeIsClosed(run, storeAccepts, cancelledInPersist);
    StoredAnswerIsTheResult(cfg, env, userInput, systemPrompt, history, storeAccepts, cancelledInPersist);
    LiveTextIsStoredIffCompleted(cfg, env, userInput, systemPrompt, history, storeAccepts, cancelledInPersist);
    if !s.snapshotServed && TerminalSeen(s) {
      assert FullLog(life)[..|s.seen|] == FullLog(life);
    }
  }

  lemma LifeIsClosed(run: Progress, storeAccepts: bool, cancelledInPersist: bool)
    requires !run.Running?
    ensures var life := LifeOf(run, None, storeAccepts, cancelledInPersist);
            !cancelledInPersist || Stored(life).status != StatusCompleted ==> ClosedLog(FullLog(life))
  {
    hide FullLog, ClosedLog, OpenLog, AfterStream;
    LogShape(LifeOf(run, None, storeAccepts, cancelledInPersist));
  }
}
