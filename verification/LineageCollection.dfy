/** Every collection can be finished: from any state in which it may start, and
    again after a pass that did not get through. */
module LineageCollection {
  import opened Ids
  import opened ForeignLineage
  import opened LineageSaga
  import opened LineageRenewal

  // The task's owners answer, or are known to be dead.
  ghost predicate Reachable(s: Saga) { forall k :: k in s.edges && k.owner in s.gone ==> k.owner in s.dead }

  // A collection pass between calls.
  ghost predicate Collecting(s: Saga) { SagaInv(s) && BetweenReleases(s) && Reachable(s) }

  lemma CollectingFacts(s: Saga)
    requires Collecting(s)
    ensures SagaInv(s) && BetweenReleases(s) && s.collection.value.plan == s.edges && Acked(s) <= s.edges.Keys
  {
  }

  lemma MayFree(s: Saga, key: EdgeKey)
    requires Collecting(s) && key in s.edges && key !in Acked(s)
    ensures Enabled(s, SendRelease(key)) && key in s.owners && key in s.collection.value.plan && s.dead <= s.gone
    ensures key.owner in s.gone ==> key.owner in s.dead
  {
    MayRelease(s, key);
  }

  // The call that asks, and what hears of it, belong to the machine.
  lemma AskReleaseSteps(s: Saga, key: EdgeKey)
    requires Enabled(s, SendRelease(key)) && key in s.owners && key in s.collection.value.plan && s.dead <= s.gone
    ensures key.owner !in s.gone ==>
      && Enabled(Next(s, SendRelease(key)), OwnerReleases(true))
      && Next(Next(s, SendRelease(key)), OwnerReleases(true)) == AskedRelease(s, key, CLEAR)
    ensures key.owner in s.gone ==> Next(s, SendRelease(key)) == AskedRelease(s, key, CLEAR)
  {
    hide Next, Enabled;
    SendIs(s, key);
    if key.owner !in s.gone { FreedIs(s, key, true); }
  }

  lemma ReleasesNeverPop(s: Saga, e: Event)
    requires e.OfCollection()
    ensures Orderly(s, e)
  {
  }

  lemma HearingIsRelease(s: Saga, w: Weather)
    requires Releasing(s)
    ensures HearingRelease(s, w).OfCollection()
  {
  }

  lemma AskedKeepsEdges(s: Saga, key: EdgeKey, freed: bool)
    requires s.collection.Some? && key in s.owners && key in s.collection.value.plan
    ensures PassHeard(AskedRelease(s, key, CLEAR), key, freed).edges == s.edges
    ensures PassHeard(AskedRelease(s, key, CLEAR), key, freed).gone == s.gone
    ensures PassHeard(AskedRelease(s, key, CLEAR), key, freed).dead == s.dead
  {
  }

  // One key more has let go.
  lemma OneReleased(start: Saga, events: seq<Event>, s: Saga, key: EdgeKey) returns (events': seq<Event>, t: Saga)
    requires Running(start, events, s) && Collecting(s) && key in s.edges && key !in Acked(s)
    ensures Running(start, events', t) && Collecting(t) && t.edges == s.edges && Acked(t) == Acked(s) + {key}
  {
    hide Enabled, Next, SagaInv, Running, AskedRelease, PassHeard, LetGo, HearingRelease, Orderly;
    CollectingFacts(s);
    MayFree(s, key);
    AskReleaseSteps(s, key);
    ReleaseEffect(s, key, CLEAR);
    var asked := AskedRelease(s, key, CLEAR);
    ReleasesNeverPop(s, SendRelease(key));
    OneStep(start, events, s, SendRelease(key));
    events' := events + [SendRelease(key)];
    if key.owner !in s.gone {
      ReleasesNeverPop(Next(s, SendRelease(key)), OwnerReleases(true));
      OneStep(start, events', Next(s, SendRelease(key)), OwnerReleases(true));
      events' := events' + [OwnerReleases(true)];
    }
    HeardReleaseIs(asked, CLEAR);
    HearingIsRelease(asked, CLEAR);
    ReleasesNeverPop(asked, HearingRelease(asked, CLEAR));
    OneStep(start, events', asked, HearingRelease(asked, CLEAR));
    events', t := events' + [HearingRelease(asked, CLEAR)], Next(asked, HearingRelease(asked, CLEAR));
    AskedKeepsEdges(s, key, LetGo(asked, CLEAR));
  }

  lemma {:induction false} AllReleased(start: Saga, events: seq<Event>, s: Saga)
      returns (events': seq<Event>, t: Saga)
    requires Running(start, events, s) && Collecting(s)
    ensures Running(start, events', t) && Collecting(t) && t.edges == s.edges && Acked(t) == s.edges.Keys
    decreases s.edges.Keys - Acked(s)
  {
    hide Running, Collecting, Acked;
    CollectingFacts(s);
    if Acked(s) == s.edges.Keys {
      events', t := events, s;
    } else {
      var key :| key in s.edges && key !in Acked(s);
      var more, next := OneReleased(start, events, s, key);
      events', t := AllReleased(start, more, next);
    }
  }

  lemma StartsCollecting(s: Saga)
    requires SagaInv(s) && Enabled(s, StartCollection) && Reachable(s)
    ensures Collecting(Next(s, StartCollection)) && Next(s, StartCollection).edges == s.edges
  {
    hide Next, SagaInv;
    NextKeepsInv(s, StartCollection);
    PlanIsRegistry(s);
    StartKeepsEdges(s);
  }

  lemma StartKeepsEdges(s: Saga)
    requires Enabled(s, StartCollection)
    ensures Next(s, StartCollection).edges == s.edges
  {
    hide TakeReply, MarkedDead;
  }

  lemma Finishes(s: Saga)
    requires Collecting(s) && Acked(s) == s.edges.Keys
    ensures Enabled(s, FinishCollection)
    ensures var t := Next(s, FinishCollection);
      t == s.(registered := false, claimed := false, completed := true, collection := None)
  {
    hide TakeReply, MarkedDead;
    AckedIsCertain(s);
  }

  /** Main result: whenever collection may start and the owners answer or are known to
      be dead, a run completes it: the task is forgotten, and no living owner keeps a
      credential of it. */
  lemma CollectionIsReached(s: Saga) returns (events: seq<Event>, t: Saga)
    requires SagaInv(s) && Enabled(s, StartCollection) && Reachable(s)
    ensures Reaches(s, events, t) && OrderlyRun(s, events)
    ensures t.completed && !t.registered && !t.claimed && t.collection.None? && t.edges == s.edges && NothingKept(t)
  {
    hide Enabled, Next, SagaInv, Reaches, OrderlyRun, Collecting, Orderly, Acked, NothingKept;
    StartsHere(s);
    StartsCollecting(s);
    ReleasesNeverPop(s, StartCollection);
    OneStep(s, [], s, StartCollection);
    var freed, u := AllReleased(s, [] + [StartCollection], Next(s, StartCollection));
    Finishes(u);
    ReleasesNeverPop(u, FinishCollection);
    OneStep(s, freed, u, FinishCollection);
    events, t := freed + [FinishCollection], Next(u, FinishCollection);
    CompletedKeepsNothing(t);
  }

  lemma Restarts(s: Saga)
    requires SagaInv(s) && BetweenReleases(s)
    ensures Enabled(s, EndCollection) && Enabled(Next(s, EndCollection), StartCollection)
    ensures Next(s, EndCollection) == s.(collection := Some(s.collection.value.(driving := false)))
  {
    hide TakeReply, MarkedDead, Held, CallOk, Harmless;
  }

  lemma ReachesAfter(s: Saga, e: Event, events: seq<Event>, t: Saga)
    requires Enabled(s, e) && Orderly(s, e) && Reaches(Next(s, e), events, t) && OrderlyRun(Next(s, e), events)
    ensures Reaches(s, [e] + events, t) && OrderlyRun(s, [e] + events)
  {
    assert ([e] + events)[1..] == events;
  }

  /** Main result: a pass that did not get through can end at any point between two
      calls, and a later one completes the collection. */
  lemma CollectionCanResume(s: Saga) returns (events: seq<Event>, t: Saga)
    requires SagaInv(s) && BetweenReleases(s) && Reachable(s)
    ensures Reaches(s, [EndCollection] + events, t) && OrderlyRun(s, [EndCollection] + events)
    ensures t.completed && !t.registered && NothingKept(t)
  {
    hide Enabled, Next, SagaInv, Reaches, OrderlyRun, Orderly, NothingKept;
    Restarts(s);
    ReleasesNeverPop(s, EndCollection);
    NextKeepsInv(s, EndCollection);
    events, t := CollectionIsReached(Next(s, EndCollection));
    ReachesAfter(s, EndCollection, events, t);
  }

  /** A renewal without effects can be abandoned; then another one can start, for any
      attempt the credentials are not ahead of, and no credential has moved. */
  lemma AbandonFrees(s: Saga, attempt: nat)
    requires SagaInv(s) && Enabled(s, Abandon) && !s.closed
    requires forall k :: k in s.edges ==> s.edges[k] <= attempt
    ensures var t := Next(s, Abandon);
      && t == s.(session := None) && SagaInv(t) && Enabled(t, StartRenewal(attempt))
      && forall k :: k in t.edges && k.owner !in t.gone ==> t.owners[k].retained == {t.edges[k]}
  {
    hide TakeReply, MarkedDead, Collect, CollectionOk, Harmless;
    NextKeepsInv(s, Abandon);
  }
}
