/** When a renewal becomes ready: every registered task whose owners answer gets
    there, and a pass is ready exactly when nothing is left to do. */
module LineageRenewal {
  import opened Ids
  import opened ForeignLineage
  import opened LineageSaga

  // ------------------------------------------------------------------------
  // Readiness is reached

  // Every call goes through, and no owner objects.
  const CLEAR := Weather(true, true, None, true)

  // A run of the saga from its registration, up to s.
  ghost predicate Running(start: Saga, events: seq<Event>, s: Saga) {
    SagaInv(start) && Reaches(start, events, s) && OrderlyRun(start, events)
  }

  // A renewal pass between calls that met no failure and whose owners all live.
  ghost predicate Smooth(s: Saga) {
    && SagaInv(s) && Listed(s) && Between(s) && !s.closed && !s.session.value.shutdown
    && s.session.value.failed == {} && s.session.value.epoch == s.session.value.startEpoch
    && forall k :: k in s.session.value.swaps ==> k.owner !in s.gone
  }

  lemma OneStep(start: Saga, events: seq<Event>, s: Saga, e: Event)
    requires Running(start, events, s) && Enabled(s, e) && Orderly(s, e)
    ensures Running(start, events + [e], Next(s, e)) && SagaInv(Next(s, e))
  {
    hide Enabled, Next, Orderly, SagaInv, Reaches, OrderlyRun;
    RunAppend(start, events, s, e);
    RunKeepsInv(start, events + [e], Next(s, e));
  }

  lemma MayAsk(s: Saga, key: EdgeKey)
    requires Smooth(s) && key in s.session.value.swaps && key !in s.session.value.acked
    ensures Enabled(s, SendReplace(key)) && key in s.owners && key.owner !in s.gone && key.owner !in s.dead
  {
  }

  lemma AskSteps(s: Saga, key: EdgeKey)
    requires Enabled(s, SendReplace(key)) && key in s.owners && key.owner !in s.gone && key.owner !in s.dead
    ensures var sent := Next(s, SendReplace(key));
      && Enabled(sent, OwnerReplaces(true, None)) && Asked(s, key, CLEAR) == Next(sent, OwnerReplaces(true, None))
  {
    hide Collect, TakeReply, MarkedDead, OwnerReplace;
  }

  lemma NeverPops(s: Saga, e: Event)
    requires !e.PopAfterShutdown?
    ensures Orderly(s, e)
  {
  }

  lemma HearingNeverPops(s: Saga, w: Weather)
    requires Calling(s)
    ensures !Hearing(s, w).PopAfterShutdown?
  {
  }

  // One key more is acknowledged.
  lemma Acknowledged(start: Saga, events: seq<Event>, s: Saga, key: EdgeKey) returns (events': seq<Event>, t: Saga)
    requires Running(start, events, s) && Smooth(s) && key in s.session.value.swaps && key !in s.session.value.acked
    ensures Running(start, events', t) && Smooth(t) && SamePass(s, t)
    ensures s.session.value.acked + {key} <= t.session.value.acked
  {
    hide Enabled, Next, SagaInv, Asked, Hearing, Running, Movable;
    MayAsk(s, key);
    SmoothIsInv(s);
    AskSteps(s, key);
    ExchangeEffect(s, key, CLEAR);
    var asked := Asked(s, key, CLEAR);
    OneStep(start, events, s, SendReplace(key));
    OneStep(start, events + [SendReplace(key)], Next(s, SendReplace(key)), OwnerReplaces(true, None));
    HearingNeverPops(asked, CLEAR);
    OneStep(start, events + [SendReplace(key)] + [OwnerReplaces(true, None)], asked, Hearing(asked, CLEAR));
    events' := events + [SendReplace(key)] + [OwnerReplaces(true, None)] + [Hearing(asked, CLEAR)];
    t := Next(asked, Hearing(asked, CLEAR));
  }

  lemma SmoothIsInv(s: Saga)
    requires Smooth(s)
    ensures SagaInv(s) && Listed(s)
  {
  }

  lemma {:induction false} AllAcknowledged(start: Saga, events: seq<Event>, s: Saga)
      returns (events': seq<Event>, t: Saga)
    requires Running(start, events, s) && Smooth(s)
    ensures Running(start, events', t) && Smooth(t) && SamePass(s, t)
    ensures t.session.value.swaps.Keys <= t.session.value.acked
    decreases s.session.value.swaps.Keys - s.session.value.acked
  {
    hide SagaInv, Running, Smooth;
    SmoothIsInv(s);
    if s.session.value.swaps.Keys <= s.session.value.acked {
      events', t := events, s;
    } else {
      var key :| key in s.session.value.swaps && key !in s.session.value.acked;
      var more, next := Acknowledged(start, events, s, key);
      SmoothIsInv(next);
      events', t := AllAcknowledged(start, more, next);
    }
  }

  lemma Started(s: Saga, attempt: nat)
    requires JustRegistered(s) && !s.closed
    requires forall k :: k in s.edges ==> k.owner !in s.gone && s.edges[k] <= attempt
    ensures Enabled(s, StartRenewal(attempt)) && Smooth(Next(s, StartRenewal(attempt)))
    ensures Next(s, StartRenewal(attempt)).session.value.attempt == attempt
  {
    hide Collect;
    RegisteredIsInv(s);
    NextKeepsInv(s, StartRenewal(attempt));
  }

  lemma BecomesReady(s: Saga)
    requires Smooth(s) && s.session.value.swaps.Keys <= s.session.value.acked
    ensures Enabled(s, BecomeReady)
    ensures var t := Next(s, BecomeReady);
      ReadyToCommit(t, s.session.value.attempt) && t.edges == s.edges && t.gone == s.gone
  {
    hide Collect, Held, CallOk;
  }

  lemma Completes(t: Saga, attempt: nat)
    requires ReadyToCommit(t, attempt)
    ensures Enabled(t, CompleteRenewal(attempt))
    ensures Next(t, CompleteRenewal(attempt)) == t.(session := None)
  {
    hide Collect;
  }

  /** Main result: a task just registered, whose owners live and answer, has for
      every attempt not behind its credentials a run to a state in which the
      renewal may be committed, every owner holds exactly the new credential, and
      the commit ends the session. */
  lemma ReadinessIsReached(s: Saga, attempt: nat) returns (events: seq<Event>, t: Saga)
    requires JustRegistered(s) && !s.closed
    requires forall k :: k in s.edges ==> k.owner !in s.gone && s.edges[k] <= attempt
    ensures Reaches(s, events, t) && OrderlyRun(s, events) && ReadyToCommit(t, attempt)
    ensures t.edges.Keys == s.edges.Keys
    ensures forall k :: k in t.edges ==> k in t.owners && t.owners[k].retained == {attempt} && t.edges[k] == attempt
    ensures Enabled(t, CompleteRenewal(attempt)) && Next(t, CompleteRenewal(attempt)).session == None
  {
    hide Enabled, Next, SagaInv, Smooth, ReadyToCommit, Reaches, OrderlyRun, Orderly;
    RegisteredIsInv(s);
    StartsHere(s);
    Started(s, attempt);
    NeverPops(s, StartRenewal(attempt));
    OneStep(s, [], s, StartRenewal(attempt));
    var first := Next(s, StartRenewal(attempt));
    SmoothIsInv(first);
    var acked, u := AllAcknowledged(s, [] + [StartRenewal(attempt)], first);
    BecomesReady(u);
    NeverPops(u, BecomeReady);
    OneStep(s, acked, u, BecomeReady);
    events, t := acked + [BecomeReady], Next(u, BecomeReady);
    Completes(t, attempt);
    SameEdges(s, attempt, u);
    forall k | k in t.edges ensures k in t.owners && t.owners[k].retained == {attempt} && t.edges[k] == attempt {
      ReadyHoldsEverywhere(s, events, t, attempt, k);
    }
  }

  lemma SameEdges(s: Saga, attempt: nat, u: Saga)
    requires Enabled(s, StartRenewal(attempt)) && JustRegistered(s) && SamePass(Next(s, StartRenewal(attempt)), u)
    requires Smooth(u) && forall k :: k in s.edges ==> k.owner !in s.gone
    ensures u.edges.Keys == s.edges.Keys && forall k :: k in u.edges ==> k.owner !in u.gone
  {
    hide Collect, Held, CallOk;
  }

  // ------------------------------------------------------------------------
  // When a pass ends ready

  // What the dependencies answered after all replacements went through.
  datatype Dependencies = Settled | Waiting | Broken(failures: set<EdgeKey>)

  // How a renewal pass ends: with its failures or missing keys, with what the
  // dependencies left open, with an owner that died meanwhile, or ready.
  function Ending(s: Saga, d: Dependencies): Event
    requires Between(s)
  {
    var sess := s.session.value;
    if sess.failed != {} || sess.acked != sess.swaps.Keys then EndPass({}, true)
    else
      match d
      case Broken(failures) => EndPass(failures, false)
      case Waiting => EndPass({}, false)
      case Settled =>
        if sess.epoch != sess.startEpoch || exists k :: k in sess.swaps && k.owner in s.dead then EndPass({}, false)
        else BecomeReady
  }

  // The epoch moves only with the death of an owner of the session.
  ghost predicate EpochOk(s: Saga) {
    Listed(s) && s.session.value.driving && !s.session.value.shutdown
      && s.session.value.epoch != s.session.value.startEpoch ==>
        exists k :: k in s.session.value.swaps && k.owner in s.dead
  }

  // What a step may do to the session a pass drives.
  ghost predicate SessionKept(s: Saga, t: Saga) {
    && s.dead <= t.dead
    && (Listed(t) && t.session.value.driving && !t.session.value.shutdown ==>
          || t.session.value.epoch == t.session.value.startEpoch
          || (Listed(s) && s.session.value.driving && !s.session.value.shutdown
              && t.session.value.swaps == s.session.value.swaps
              && t.session.value.startEpoch == s.session.value.startEpoch
              && (t.session.value.epoch == s.session.value.epoch
                  || exists k :: k in t.session.value.swaps && k.owner in t.dead)))
  }

  lemma ReplyKeepsSession(s: Saga)
    requires Enabled(s, ReplaceReply)
    ensures SessionKept(s, Next(s, ReplaceReply))
  {
    hide TakeReply, Movable, Next, SessionKept;
    if s.session.value.call.value.outcome.value.Failed? {
      RefusedIs(s);
      ReplyTaken(s);
      RefusedKeepsSession(s, TakeReply(s));
    } else {
      ConfirmedIs(s);
      ConfirmedKeepsSession(s, s.session.value.call.value.key);
    }
  }

  lemma ReplyTaken(s: Saga)
    requires Enabled(s, ReplaceReply)
    ensures Next(s, ReplaceReply) == TakeReply(s)
  {
    hide TakeReply;
  }

  lemma RefusedKeepsSession(s: Saga, t: Saga)
    requires Calling(s) && s.session.value.call.value.outcome.Some? && s.session.value.call.value.outcome.value.Failed?
    requires Refused(s, t)
    ensures SessionKept(s, t)
  {
  }

  lemma ConfirmedKeepsSession(s: Saga, key: EdgeKey)
    requires Calling(s) && key in s.session.value.swaps
    ensures SessionKept(s, Installed(s, key))
    ensures SessionKept(s, EndSession(s, s.session.value.(call := None, driving := false)))
  {
  }

  lemma CollectKeepsSession(s: Saga, e: Event)
    requires Enabled(s, e) && e.OfCollection()
    ensures SessionKept(s, Collect(s, e))
  {
    hide OwnerRelease;
  }

  // A death hits the session's keys of that owner, or leaves the session alone.
  lemma MarkedIs(s: Saga, owner: WorkerID)
    ensures var t := MarkedDead(s, owner);
      && t.listed == s.listed && t.dead == s.dead + {owner} && (t.session.Some? <==> s.session.Some?)
      && (s.session.Some? ==>
            var sess, sess' := s.session.value, t.session.value;
            && sess'.swaps == sess.swaps && sess'.startEpoch == sess.startEpoch
            && sess'.driving == sess.driving && sess'.shutdown == sess.shutdown
            && (sess'.epoch != sess.epoch ==> (set k | k in sess.swaps && k.owner == owner) != {}))
  {
  }

  lemma MarkKeepsSession(s: Saga, owner: WorkerID)
    ensures SessionKept(s, MarkedDead(s, owner))
  {
    hide MarkedDead;
    MarkedIs(s, owner);
    if Listed(s) {
      var hit := set k | k in s.session.value.swaps && k.owner == owner;
      if hit != {} {
        var k :| k in hit;
        assert k in MarkedDead(s, owner).session.value.swaps;
      }
    }
  }

  lemma NextKeepsSession(s: Saga, e: Event)
    requires Enabled(s, e)
    ensures SessionKept(s, Next(s, e))
  {
    hide TakeReply, Collect, MarkedDead, SessionKept;
    if e.ReplaceReply? {
      ReplyKeepsSession(s);
    } else if e.OfCollection() {
      CollectKeepsSession(s, e);
    } else if e.MarkDead? {
      MarkKeepsSession(s, e.owner);
    } else {
      OtherKeepsSession(s, e);
    }
  }

  lemma OtherKeepsSession(s: Saga, e: Event)
    requires Enabled(s, e) && !e.ReplaceReply? && !e.OfCollection() && !e.MarkDead?
    ensures SessionKept(s, Next(s, e))
  {
    hide TakeReply, Collect, MarkedDead, OwnerReplace;
  }

  lemma EpochStaysOk(s: Saga, t: Saga)
    requires EpochOk(s) && SessionKept(s, t)
    ensures EpochOk(t)
  {
  }

  lemma {:induction false} RunKeepsEpoch(s: Saga, events: seq<Event>, t: Saga)
    requires EpochOk(s) && Reaches(s, events, t)
    ensures EpochOk(t)
    decreases |events|
  {
    hide EpochOk, SessionKept, Enabled, Next;
    if events == [] {
    } else {
      NextKeepsSession(s, events[0]);
      EpochStaysOk(s, Next(s, events[0]));
      RunKeepsEpoch(Next(s, events[0]), events[1..], t);
    }
  }

  // Every key acknowledged, nothing failed or uncertain, every owner thought alive.
  ghost predicate Flawless(s: Saga)
    requires s.session.Some?
  {
    && s.session.value.failed == {} && s.session.value.uncertain == {}
    && forall k :: k in s.edges ==> k in s.session.value.acked && k.owner !in s.dead
  }

  lemma EndingIs(s: Saga, d: Dependencies)
    requires SagaInv(s) && EpochOk(s) && Between(s) && s.listed && !s.session.value.shutdown
    requires d.Broken? ==> d.failures != {} && d.failures <= s.session.value.swaps.Keys
    ensures Enabled(s, Ending(s, d))
    ensures Ending(s, d).BecomeReady? <==> d.Settled? && Flawless(s)
  {
    hide Held, CallOk, CollectionOk;
    assert s.session.value.swaps.Keys == s.edges.Keys;
  }

  lemma EndedIs(s: Saga, e: Event)
    requires SagaInv(s) && Between(s) && s.listed && Enabled(s, e) && (e.BecomeReady? || e.EndPass?)
    ensures ReadyToCommit(Next(s, e), s.session.value.attempt) <==>
      && !s.closed && s.session.value.uncertain == {} && s.session.value.acked == s.session.value.swaps.Keys
      && (forall k :: k in s.session.value.swaps ==> k.owner !in s.dead)
      && (if e.BecomeReady? then true
          else s.session.value.failed + e.failures == {} && s.session.value.ready && e.keepsReady)
  {
    hide Collect, SagaInv;
  }

  /** Main result: after any orderly run, a renewal pass that ends with the
      dependencies settled may be committed exactly when every key is acknowledged,
      nothing failed or is uncertain and no owner is known to be dead, while the
      runtime is open; with dependencies unsettled it may not. */
  lemma CommitsIffFlawless(start: Saga, events: seq<Event>, s: Saga, d: Dependencies)
    requires JustRegistered(start) && Reaches(start, events, s) && OrderlyRun(start, events)
    requires Between(s) && s.listed && !s.session.value.shutdown
    requires d.Broken? ==> d.failures != {} && d.failures <= s.session.value.swaps.Keys
    ensures Enabled(s, Ending(s, d))
    ensures ReadyToCommit(Next(s, Ending(s, d)), s.session.value.attempt) <==> !s.closed && d.Settled? && Flawless(s)
  {
    hide SagaInv, Enabled, Next, EpochOk, Reaches, OrderlyRun, ReadyToCommit;
    RegisteredIsInv(start);
    RunKeepsInv(start, events, s);
    FreshEpoch(start);
    RunKeepsEpoch(start, events, s);
    EndingIs(s, d);
    EndedIs(s, Ending(s, d));
    SwapsAreEdges(s);
  }

  lemma FreshEpoch(s: Saga)
    requires JustRegistered(s)
    ensures EpochOk(s)
  {
  }

  lemma SwapsAreEdges(s: Saga)
    requires SagaInv(s) && Listed(s)
    ensures s.session.value.swaps.Keys == s.edges.Keys && s.session.value.acked <= s.edges.Keys
  {
  }
}
