/** Retirement evidence: what a finished rollback or an owner-death cleanup
    collects, and why the authority's check of it passes. */
module PublicationSettlement {
  import opened Ids
  import opened PublicationFacts
  import opened PublicationJournal

  // ------------------------------------------------------------------------
  // What a sequence of cleanup replies says

  lemma {:induction false} FreedMembers(replies: seq<CleanupReply>)
    ensures forall r :: r in FreedOf(replies) <==> Freed(r) in replies
  {
    if replies == [] {
    } else {
      FreedMembers(replies[1..]);
      assert replies == [replies[0]] + replies[1..];
    }
  }

  lemma {:induction false} DeathMembers(replies: seq<CleanupReply>)
    ensures forall d :: d in DeathsOf(replies) <==> OwnerGone(d) in replies
    ensures forall i, j :: 0 <= i < j < |DeathsOf(replies)| ==> DeathsOf(replies)[i] != DeathsOf(replies)[j]
  {
    if replies == [] {
    } else {
      var n := |replies| - 1;
      DeathMembers(replies[..n]);
      assert replies == replies[..n] + [replies[n]];
    }
  }

  lemma {:induction false} CleanupMembers(effects: seq<Step>, cleanups: map<Step, CleanupReply>)
    ensures forall c :: c in Cleanups(effects, cleanups) <==>
      exists e :: e in effects && e in cleanups && cleanups[e] == c
  {
    if effects == [] {
    } else {
      CleanupMembers(effects[1..], cleanups);
      assert effects == [effects[0]] + effects[1..];
    }
  }

  // The planned releases that were actually freed, in plan order.
  function FreedSteps(effects: seq<Step>, cleanups: map<Step, CleanupReply>): seq<Step> {
    if effects == [] then []
    else (if effects[0] in cleanups && cleanups[effects[0]].Freed? then [effects[0]] else [])
         + FreedSteps(effects[1..], cleanups)
  }

  lemma {:induction false} FreedConcat(a: seq<CleanupReply>, b: seq<CleanupReply>)
    ensures FreedOf(a + b) == FreedOf(a) + FreedOf(b)
  {
    if a == [] {
      assert a + b == b;
    } else {
      FreedConcat(a[1..], b);
      assert (a + b)[0] == a[0] && (a + b)[1..] == a[1..] + b;
      var first := if a[0].Freed? then [a[0].release] else [];
      assert FreedOf(a + b) == first + FreedOf(a[1..] + b) && FreedOf(a) == first + FreedOf(a[1..]);
    }
  }

  lemma {:induction false} FreedStepsAre(effects: seq<Step>, cleanups: map<Step, CleanupReply>)
    ensures var steps, freed := FreedSteps(effects, cleanups), FreedOf(Cleanups(effects, cleanups));
      && |freed| == |steps|
      && (forall i :: 0 <= i < |steps| ==>
            steps[i] in effects && steps[i] in cleanups && cleanups[steps[i]] == Freed(freed[i]))
      && forall e :: e in effects && e in cleanups && cleanups[e].Freed? ==> e in steps
  {
    if effects == [] {
    } else {
      FreedStepsAre(effects[1..], cleanups);
      assert effects == [effects[0]] + effects[1..];
      var first := if effects[0] in cleanups then [cleanups[effects[0]]] else [];
      FreedConcat(first, Cleanups(effects[1..], cleanups));
      var freed := effects[0] in cleanups && cleanups[effects[0]].Freed?;
      assert FreedOf(first) == if freed then [cleanups[effects[0]].release] else [];
    }
  }

  ghost predicate NoRepeats(steps: seq<Step>) {
    forall i, j :: 0 <= i < j < |steps| ==> steps[i] != steps[j]
  }

  lemma {:induction false} FreedStepsOnce(effects: seq<Step>, cleanups: map<Step, CleanupReply>)
    requires NoRepeats(effects)
    ensures NoRepeats(FreedSteps(effects, cleanups))
  {
    if effects == [] {
    } else {
      var rest := FreedSteps(effects[1..], cleanups);
      FreedStepsOnce(effects[1..], cleanups);
      FreedStepsAre(effects[1..], cleanups);
      assert effects[0] !in effects[1..];
      forall j | 0 <= j < |rest| ensures rest[j] != effects[0] {
        assert rest[j] in effects[1..];
      }
    }
  }

  // ------------------------------------------------------------------------
  // When the evidence is well-formed

  // No final hold of the manifest is also a provisional hold of it.
  ghost predicate NoAlias(publication: Publication) {
    forall i, j :: 0 <= i < |publication.transfers| && 0 <= j < |publication.transfers| ==>
      publication.transfers[i].FinalKey() != publication.transfers[j].ProvisionalKey()
  }

  // Holds of one kind are distinct: provisional tokens are derived from final ones.
  lemma HoldsOfOneKind(publication: Publication, a: Step, b: Step)
    requires publication.Valid() && a != b && (a.FinalRelease? || a.ProvisionalRelease?)
    requires (a.FinalRelease? && b.FinalRelease?) || (a.ProvisionalRelease? && b.ProvisionalRelease?)
    requires a.index < |publication.transfers| && b.index < |publication.transfers|
    ensures HoldOf(publication, a) != HoldOf(publication, b)
  {
    var ta, tb := publication.transfers[a.index], publication.transfers[b.index];
    assert ta in publication.transfers && tb in publication.transfers;
    assert ta.FinalKey() != tb.FinalKey() by {
      if a.index > b.index {
        assert tb.FinalKey() != ta.FinalKey();
      }
    }
    assert ("provisional:" + ta.final.token)[12..] == ta.final.token;
    assert ("provisional:" + tb.final.token)[12..] == tb.final.token;
  }

  // A final and a provisional release of one hold were both freed.
  ghost predicate FreedTwice(publication: Publication, effects: seq<Step>, cleanups: map<Step, CleanupReply>) {
    exists i: nat, j: nat :: i < |publication.transfers| && j < |publication.transfers|
      && FreedStep(effects, cleanups, FinalRelease(i)) && FreedStep(effects, cleanups, ProvisionalRelease(j))
      && publication.transfers[i].FinalKey() == publication.transfers[j].ProvisionalKey()
  }

  ghost predicate FreedStep(effects: seq<Step>, cleanups: map<Step, CleanupReply>, step: Step) {
    step in effects && step in cleanups && cleanups[step].Freed?
  }

  // Confirmed deaths, one record per worker.
  ghost predicate DeathsAgree(cleanups: map<Step, CleanupReply>) {
    && (forall s :: s in cleanups && cleanups[s].OwnerGone? ==> cleanups[s].death.Unexpected())
    && forall s, t | s in cleanups && t in cleanups && cleanups[s].OwnerGone? && cleanups[t].OwnerGone? ::
         cleanups[s].death.worker == cleanups[t].death.worker ==> cleanups[s] == cleanups[t]
  }

  // Every reply belongs to a release of this manifest.
  ghost predicate Fitting(publication: Publication, effects: seq<Step>, cleanups: map<Step, CleanupReply>) {
    forall e | e in effects && e in cleanups ::
      && (e.FinalRelease? || e.ProvisionalRelease?) && e.index < |publication.transfers|
      && CleanupFits(publication, e, Some(cleanups[e]))
  }

  ghost predicate DistinctReleases(releases: seq<Release>) {
    forall i, j :: 0 <= i < j < |releases| ==> releases[i].key != releases[j].key
  }

  // The freed releases, one per step, in plan order.
  ghost predicate Pairs(publication: Publication, steps: seq<Step>, freed: seq<Release>) {
    |freed| == |steps| && NoRepeats(steps) && forall k :: 0 <= k < |steps| ==> Paired(publication, steps[k], freed[k])
  }

  ghost predicate Paired(publication: Publication, step: Step, freed: Release) {
    && (step.FinalRelease? || step.ProvisionalRelease?) && step.index < |publication.transfers|
    && freed.key == HoldOf(publication, step)
  }

  lemma FreedPairs(publication: Publication, effects: seq<Step>, cleanups: map<Step, CleanupReply>)
    requires NoRepeats(effects) && Fitting(publication, effects, cleanups)
    ensures Pairs(publication, FreedSteps(effects, cleanups), FreedOf(Cleanups(effects, cleanups)))
  {
    FreedStepsAre(effects, cleanups);
    FreedStepsOnce(effects, cleanups);
  }

  // Some final and some provisional step among these name one hold.
  ghost predicate Clash(publication: Publication, steps: seq<Step>) {
    exists i: nat, j: nat :: i < |publication.transfers| && j < |publication.transfers|
      && FinalRelease(i) in steps && ProvisionalRelease(j) in steps
      && publication.transfers[i].FinalKey() == publication.transfers[j].ProvisionalKey()
  }

  lemma ClashRepeats(publication: Publication, steps: seq<Step>, freed: seq<Release>)
    requires Pairs(publication, steps, freed) && Clash(publication, steps)
    ensures !DistinctReleases(freed)
  {
    var i: nat, j: nat :| i < |publication.transfers| && j < |publication.transfers|
      && FinalRelease(i) in steps && ProvisionalRelease(j) in steps
      && publication.transfers[i].FinalKey() == publication.transfers[j].ProvisionalKey();
    var a :| 0 <= a < |steps| && steps[a] == FinalRelease(i);
    var b :| 0 <= b < |steps| && steps[b] == ProvisionalRelease(j);
    assert Paired(publication, steps[a], freed[a]) && Paired(publication, steps[b], freed[b]);
  }

  lemma NoClashIsDistinct(publication: Publication, steps: seq<Step>, freed: seq<Release>)
    requires Pairs(publication, steps, freed) && !Clash(publication, steps) && publication.Valid()
    ensures DistinctReleases(freed)
  {
    forall a, b | 0 <= a < b < |freed| ensures freed[a].key != freed[b].key {
      assert Paired(publication, steps[a], freed[a]) && Paired(publication, steps[b], freed[b]);
      if steps[a].FinalRelease? == steps[b].FinalRelease? {
        HoldsOfOneKind(publication, steps[a], steps[b]);
      } else {
        var final, provisional := if steps[a].FinalRelease? then steps[a] else steps[b],
                                  if steps[a].FinalRelease? then steps[b] else steps[a];
        assert FinalRelease(final.index) in steps && ProvisionalRelease(provisional.index) in steps;
      }
    }
  }

  // The releases are distinct exactly when no hold was freed under both of its names.
  lemma FreedAreDistinct(publication: Publication, effects: seq<Step>, cleanups: map<Step, CleanupReply>)
    requires publication.Valid() && NoRepeats(effects) && Fitting(publication, effects, cleanups)
    ensures DistinctReleases(FreedOf(Cleanups(effects, cleanups))) <==> !FreedTwice(publication, effects, cleanups)
  {
    var steps, freed := FreedSteps(effects, cleanups), FreedOf(Cleanups(effects, cleanups));
    FreedPairs(publication, effects, cleanups);
    FreedStepsAre(effects, cleanups);
    assert forall e :: e in steps <==> FreedStep(effects, cleanups, e);
    if Clash(publication, steps) {
      ClashRepeats(publication, steps, freed);
    } else {
      NoClashIsDistinct(publication, steps, freed);
    }
  }

  // A planned release was answered by the freed hold itself or by its owner's death.
  ghost predicate Answered(rec: Record, step: Step) {
    && rec.InRange(step) && (step.FinalRelease? || step.ProvisionalRelease?)
    && step in rec.cleanups && CleanupFits(rec.publication, step, Some(rec.cleanups[step]))
  }

  lemma PlannedIsAnswered(rec: Record, step: Step)
    requires RollbackSound(rec) && rec.tombstone.Some? && step in rec.rollback.value.effects && !step.SlotDrop?
    ensures Answered(rec, step)
  {
    InverseIsExact(rec.intents, rec.Count());
    NextRollbackMeaning(rec.rollback.value.effects, rec.acks);
    assert step in rec.acks;
  }

  ghost predicate ConfirmedOnce(deaths: seq<Death>) {
    && (forall d :: d in deaths ==> d.Unexpected())
    && forall i, j :: 0 <= i < j < |deaths| ==> deaths[i].worker != deaths[j].worker
  }

  lemma DeathsDistinct(effects: seq<Step>, cleanups: map<Step, CleanupReply>)
    requires DeathsAgree(cleanups)
    ensures ConfirmedOnce(DeathsOf(Cleanups(effects, cleanups)))
  {
    var replies := Cleanups(effects, cleanups);
    var deaths := DeathsOf(replies);
    DeathMembers(replies);
    CleanupMembers(effects, cleanups);
    forall d | d in deaths ensures exists e :: e in cleanups && cleanups[e] == OwnerGone(d) {
      assert OwnerGone(d) in replies;
    }
    forall i, j | 0 <= i < j < |deaths| ensures deaths[i].worker != deaths[j].worker {
      assert deaths[i] in deaths && deaths[j] in deaths;
      var s :| s in cleanups && cleanups[s] == OwnerGone(deaths[i]);
      var t :| t in cleanups && cleanups[t] == OwnerGone(deaths[j]);
    }
  }

  lemma RollbackFits(rec: Record)
    requires RollbackSound(rec) && rec.tombstone.Some?
    ensures NoRepeats(rec.rollback.value.effects) && Fitting(rec.publication, rec.rollback.value.effects, rec.cleanups)
  {
    InverseDescends(rec.intents, rec.Count());
    forall e | e in rec.rollback.value.effects && e in rec.cleanups ensures Answered(rec, e) {
      PlannedIsAnswered(rec, e);
    }
  }

  /** A finished rollback's evidence can be constructed exactly when no hold was
      freed under both of its names. */
  lemma ClosedIsWellFormed(rec: Record)
    requires Sound(rec) && rec.tombstone.Some? && DeathsAgree(rec.cleanups)
    ensures ClosedRollback(rec).Ok?
    ensures ClosedRollback(rec).value.Valid() <==>
      !FreedTwice(rec.publication, rec.rollback.value.effects, rec.cleanups)
  {
    RollbackFits(rec);
    FreedAreDistinct(rec.publication, rec.rollback.value.effects, rec.cleanups);
    DeathsDistinct(rec.rollback.value.effects, rec.cleanups);
    ScopeIsValid(rec);
    ClosedParts(ClosedRollback(rec).value);
  }

  lemma ClosedParts(closed: ClosedHolds)
    requires ConfirmedOnce(closed.deaths)
    requires closed.scope.Some? ==> closed.scope.value.Valid() && closed.scope.value.reference == closed.reference
    ensures closed.Valid() <==> DistinctReleases(closed.releases)
  {
  }

  lemma ScopeIsValid(rec: Record)
    requires Sound(rec) && rec.rollback.Some?
    ensures Scope(rec).Ok? && Scope(rec).value.Valid() && CheckScope(rec.publication, Scope(rec).value) == None
  {
    forall i: nat | i < rec.Count() && Promote(i) in rec.intents ensures Prepare(i) in rec.intents {
      assert Materialize in rec.acks;
      assert Prepare(i) in rec.acks;
    }
  }

  // ------------------------------------------------------------------------
  // What the authority requires

  lemma {:induction false} RequiredAre(ts: seq<Transfer>, prepares: set<nat>, promotes: set<nat>, known: bool)
    ensures forall k :: k in RequiredHolds(ts, prepares, promotes, known) ==>
      exists i: nat :: i < |ts|
        && ((i in prepares && k == ts[i].ProvisionalKey()) || (i in promotes && k == ts[i].FinalKey()))
  {
    if ts == [] {
    } else {
      var n := |ts| - 1;
      RequiredAre(ts[..n], prepares, promotes, known);
      forall k | k in RequiredHolds(ts, prepares, promotes, known)
        ensures exists i: nat | i < |ts| ::
                  (i in prepares && k == ts[i].ProvisionalKey()) || (i in promotes && k == ts[i].FinalKey())
      {
        if k in RequiredHolds(ts[..n], prepares, promotes, known) {
          var i: nat :| i < n
            && ((i in prepares && k == ts[..n][i].ProvisionalKey()) || (i in promotes && k == ts[..n][i].FinalKey()));
          assert ts[..n][i] == ts[i];
        }
      }
    }
  }

  // One hold is freed or its child owner is confirmed dead.
  ghost predicate Settled(closed: ClosedHolds, key: HoldKey) {
    key in closed.Released() || key.owner in closed.Dead()
  }

  // The evidence names holds and owners of this manifest only.
  ghost predicate WithinManifest(publication: Publication, closed: ClosedHolds) {
    && closed.Released() <= AllHolds(publication.transfers)
    && closed.Dead() <= set t | t in publication.transfers :: t.childOwner
  }

  // Every planned release of the record is settled by the evidence built from it.
  lemma RollbackSettles(rec: Record, step: Step)
    requires RollbackSound(rec) && rec.tombstone.Some? && ClosedRollback(rec).Ok?
    requires step in rec.rollback.value.effects && !step.SlotDrop?
    ensures rec.InRange(step) && (step.FinalRelease? || step.ProvisionalRelease?)
    ensures Settled(ClosedRollback(rec).value, HoldOf(rec.publication, step))
  {
    PlannedIsAnswered(rec, step);
    AnsweredIsSettled(rec, step);
  }

  lemma AnsweredIsSettled(rec: Record, step: Step)
    requires rec.rollback.Some? && step in rec.rollback.value.effects && Answered(rec, step) && ClosedRollback(rec).Ok?
    ensures Settled(ClosedRollback(rec).value, HoldOf(rec.publication, step))
  {
    var effects, closed, reply := rec.rollback.value.effects, ClosedRollback(rec).value, rec.cleanups[step];
    var replies := Cleanups(effects, rec.cleanups);
    CleanupMembers(effects, rec.cleanups);
    FreedMembers(replies);
    DeathMembers(replies);
    assert reply in replies;
    if reply.Freed? {
      assert reply.release in closed.releases;
    } else {
      assert reply.death in closed.deaths;
    }
  }

  lemma FreedWithin(publication: Publication, effects: seq<Step>, cleanups: map<Step, CleanupReply>, r: Release)
    requires Fitting(publication, effects, cleanups) && r in FreedOf(Cleanups(effects, cleanups))
    ensures r.key in AllHolds(publication.transfers)
  {
    CleanupMembers(effects, cleanups);
    FreedMembers(Cleanups(effects, cleanups));
    var e :| e in effects && e in cleanups && cleanups[e] == Freed(r);
    assert publication.transfers[e.index] in publication.transfers;
  }

  lemma DeathWithin(publication: Publication, effects: seq<Step>, cleanups: map<Step, CleanupReply>, d: Death)
    requires Fitting(publication, effects, cleanups) && d in DeathsOf(Cleanups(effects, cleanups))
    ensures d.worker in set t | t in publication.transfers :: t.childOwner
  {
    CleanupMembers(effects, cleanups);
    DeathMembers(Cleanups(effects, cleanups));
    var e :| e in effects && e in cleanups && cleanups[e] == OwnerGone(d);
    assert publication.transfers[e.index] in publication.transfers;
  }

  lemma FittingIsWithin(publication: Publication, effects: seq<Step>, cleanups: map<Step, CleanupReply>,
                        closed: ClosedHolds)
    requires Fitting(publication, effects, cleanups)
    requires closed.releases == FreedOf(Cleanups(effects, cleanups))
    requires closed.deaths == DeathsOf(Cleanups(effects, cleanups))
    ensures WithinManifest(publication, closed)
  {
    forall r | r in closed.releases ensures r.key in AllHolds(publication.transfers) {
      FreedWithin(publication, effects, cleanups, r);
    }
    forall d | d in closed.deaths ensures d.worker in set t | t in publication.transfers :: t.childOwner {
      DeathWithin(publication, effects, cleanups, d);
    }
  }

  lemma RollbackWithinManifest(rec: Record)
    requires RollbackSound(rec) && rec.tombstone.Some? && ClosedRollback(rec).Ok?
    ensures WithinManifest(rec.publication, ClosedRollback(rec).value)
  {
    RollbackFits(rec);
    FittingIsWithin(rec.publication, rec.rollback.value.effects, rec.cleanups, ClosedRollback(rec).value);
  }

  /** Retirement evidence built from a finished rollback passes the authority's
      check against every record of the same publication that knows no Complete
      and whose preparation, if any, was fully intended. */
  lemma RollbackPasses(rec: Record, u: Snapshot)
    requires Sound(rec) && rec.tombstone.Some? && u.publication == rec.publication
    requires u.complete.None? && u.adoption.None?
    requires u.prepared.Some? ==>
      Materialize in rec.intents && forall i: nat :: i < rec.Count() ==>
        Prepare(i) in rec.intents && Promote(i) in rec.intents
    ensures ClosedRollback(rec).Ok? && CheckClosed(u, ClosedRollback(rec).value) == None
  {
    ScopeIsValid(rec);
    RollbackWithinManifest(rec);
    var ts, closed, scope := rec.publication.transfers, ClosedRollback(rec).value, Scope(rec).value;
    if u.prepared.Some? {
      assert scope.prepareIntents == Below(|ts|) && scope.promoteIntents == Below(|ts|);
    }
    RequiredAre(ts, scope.prepareIntents, scope.promoteIntents, u.prepared.Some?);
    InverseIsExact(rec.intents, rec.Count());
    forall k | k in RequiredHolds(ts, scope.prepareIntents, scope.promoteIntents, u.prepared.Some?)
      ensures Settled(closed, k)
    {
      var i: nat :| i < |ts| && ((i in scope.prepareIntents && k == ts[i].ProvisionalKey())
                                 || (i in scope.promoteIntents && k == ts[i].FinalKey()));
      if i in scope.prepareIntents && k == ts[i].ProvisionalKey() {
        RollbackSettles(rec, ProvisionalRelease(i));
      } else {
        RollbackSettles(rec, FinalRelease(i));
      }
    }
  }

  // ------------------------------------------------------------------------
  // Aliases

  lemma NoAliasIsWellFormed(rec: Record)
    requires NoAlias(rec.publication) && Sound(rec) && rec.tombstone.Some? && DeathsAgree(rec.cleanups)
    ensures ClosedRollback(rec).Ok? && ClosedRollback(rec).value.Valid()
  {
    ClosedIsWellFormed(rec);
  }

  /** A manifest that passes every constructor and still aliases two holds: one
      executor owning its own output, one child stored twice. */
  lemma AliasExists() returns (publication: Publication)
    ensures publication.TaskPublication? && publication.Valid() && !NoAlias(publication)
  {
    var me, name, child := WorkerID(1), ObjectID(TaskID(1), 0), ObjectID(TaskID(2), 0);
    var first := Transfer(child, WorkerID(2), Address("h", 1), OwnedSource(WorkerID(2)),
                          Hold(name, me, "provisional:a"), Hold(name, me, "a"));
    var source := BorrowedSource(me, "b", 0);
    first := first.(source := source);
    var second := first.(provisional := Hold(name, me, "provisional:provisional:a"),
                         final := Hold(name, me, "provisional:a"));
    publication := TaskPublication(LeaseID(1), AttemptID(TaskID(1), 0), JobID(1), me, me,
                                   NodeIncarnation(NodeID(1), 1, 1), Payload(Inline, 0, 0), [first, second],
                                   Digest(0), Address("h", 2));
    assert "provisional:" + "a" == "provisional:a";
    assert "provisional:" + "provisional:a" == "provisional:provisional:a";
    assert "a" != "provisional:a";
    assert publication.transfers[1].FinalKey() == publication.transfers[0].ProvisionalKey();
  }

  /** Tokens that do not themselves start with the provisional prefix never alias. */
  lemma PlainTokensNeverAlias(publication: Publication)
    requires publication.Valid()
    requires forall t :: t in publication.transfers ==> !("provisional:" <= t.final.token)
    ensures NoAlias(publication)
  {
    forall i, j | 0 <= i < |publication.transfers| && 0 <= j < |publication.transfers|
      ensures publication.transfers[i].FinalKey() != publication.transfers[j].ProvisionalKey()
    {
      var a, b := publication.transfers[i], publication.transfers[j];
      assert a in publication.transfers && b in publication.transfers;
      assert "provisional:" <= "provisional:" + b.final.token;
    }
  }

  // ------------------------------------------------------------------------
  // Owner death

  // Every hold the manifest could ever have taken, finals first.
  function EveryRelease(n: nat): seq<Step> {
    seq(n, i requires 0 <= i < n => FinalRelease(i)) + seq(n, i requires 0 <= i < n => ProvisionalRelease(i))
  }

  function OwnerDeathClosed(publication: Publication, cleanups: map<Step, CleanupReply>): ClosedHolds {
    var replies := Cleanups(EveryRelease(|publication.transfers|), cleanups);
    ClosedHolds(publication.Ref(), FreedOf(replies), DeathsOf(replies), None)
  }

  ghost predicate EveryReleaseAnswered(publication: Publication, cleanups: map<Step, CleanupReply>) {
    forall i: nat | i < |publication.transfers| ::
      && FinalRelease(i) in cleanups && CleanupFits(publication, FinalRelease(i), Some(cleanups[FinalRelease(i)]))
      && ProvisionalRelease(i) in cleanups
      && CleanupFits(publication, ProvisionalRelease(i), Some(cleanups[ProvisionalRelease(i)]))
  }

  // The releases the manifest can ever need, each once.
  lemma EveryReleaseIs(publication: Publication)
    ensures NoRepeats(EveryRelease(|publication.transfers|))
    ensures forall e :: e in EveryRelease(|publication.transfers|) <==>
      (e.FinalRelease? || e.ProvisionalRelease?) && e.index < |publication.transfers|
  {
    var n := |publication.transfers|;
    forall e: Step | (e.FinalRelease? || e.ProvisionalRelease?) && e.index < n ensures e in EveryRelease(n) {
      assert EveryRelease(n)[if e.FinalRelease? then e.index else n + e.index] == e;
    }
  }

  lemma EveryReleaseFits(publication: Publication, cleanups: map<Step, CleanupReply>)
    requires EveryReleaseAnswered(publication, cleanups)
    ensures Fitting(publication, EveryRelease(|publication.transfers|), cleanups)
  {
    EveryReleaseIs(publication);
  }

  /** The evidence of an owner-death cleanup, too, can be constructed exactly
      when no hold was freed under both of its names. */
  lemma OwnerDeathIsWellFormed(publication: Publication, cleanups: map<Step, CleanupReply>)
    requires publication.Valid() && EveryReleaseAnswered(publication, cleanups) && DeathsAgree(cleanups)
    ensures OwnerDeathClosed(publication, cleanups).Valid()
       <==> !FreedTwice(publication, EveryRelease(|publication.transfers|), cleanups)
    ensures NoAlias(publication) ==> OwnerDeathClosed(publication, cleanups).Valid()
  {
    var effects := EveryRelease(|publication.transfers|);
    EveryReleaseIs(publication);
    EveryReleaseFits(publication, cleanups);
    FreedAreDistinct(publication, effects, cleanups);
    DeathsDistinct(effects, cleanups);
    ClosedParts(OwnerDeathClosed(publication, cleanups));
  }

  lemma AnswerSettles(publication: Publication, cleanups: map<Step, CleanupReply>, step: Step)
    requires (step.FinalRelease? || step.ProvisionalRelease?) && step.index < |publication.transfers|
    requires step in cleanups
    requires CleanupFits(publication, step, Some(cleanups[step])) && step in EveryRelease(|publication.transfers|)
    ensures Settled(OwnerDeathClosed(publication, cleanups), HoldOf(publication, step))
  {
    var replies := Cleanups(EveryRelease(|publication.transfers|), cleanups);
    var closed := OwnerDeathClosed(publication, cleanups);
    CleanupMembers(EveryRelease(|publication.transfers|), cleanups);
    var reply := cleanups[step];
    assert reply in replies;
    if reply.Freed? {
      FreedMembers(replies);
      assert reply.release in closed.releases;
    } else {
      DeathMembers(replies);
      assert reply.death in closed.deaths;
    }
  }

  lemma OwnerDeathSettles(publication: Publication, cleanups: map<Step, CleanupReply>, i: nat)
    requires EveryReleaseAnswered(publication, cleanups) && i < |publication.transfers|
    ensures Settled(OwnerDeathClosed(publication, cleanups), publication.transfers[i].FinalKey())
    ensures Settled(OwnerDeathClosed(publication, cleanups), publication.transfers[i].ProvisionalKey())
  {
    var effects, n := EveryRelease(|publication.transfers|), |publication.transfers|;
    assert effects[i] == FinalRelease(i) && effects[n + i] == ProvisionalRelease(i);
    AnswerSettles(publication, cleanups, FinalRelease(i));
    AnswerSettles(publication, cleanups, ProvisionalRelease(i));
  }

  lemma OwnerDeathWithinManifest(publication: Publication, cleanups: map<Step, CleanupReply>)
    requires EveryReleaseAnswered(publication, cleanups)
    ensures WithinManifest(publication, OwnerDeathClosed(publication, cleanups))
  {
    var effects := EveryRelease(|publication.transfers|);
    EveryReleaseFits(publication, cleanups);
    FittingIsWithin(publication, effects, cleanups, OwnerDeathClosed(publication, cleanups));
  }

  // Evidence without a rollback scope that settles every hold of the manifest.
  ghost predicate SettlesAll(publication: Publication, closed: ClosedHolds) {
    && closed.reference == publication.Ref() && closed.scope.None? && WithinManifest(publication, closed)
    && forall t :: t in publication.transfers ==> Settled(closed, t.FinalKey()) && Settled(closed, t.ProvisionalKey())
  }

  /** Evidence that settles everything passes the authority's check against any
      history of the publication. */
  lemma SettlesAllPasses(publication: Publication, closed: ClosedHolds, u: Snapshot)
    requires SettlesAll(publication, closed) && u.publication == publication
    ensures CheckClosed(u, closed) == None
  {
    var ts := publication.transfers;
    RequiredAre(ts, Below(|ts|), Below(|ts|), u.prepared.Some?);
    forall k | k in RequiredHolds(ts, Below(|ts|), Below(|ts|), u.prepared.Some?) ensures Settled(closed, k) {
      var i: nat :| i < |ts| && (k == ts[i].ProvisionalKey() || k == ts[i].FinalKey());
      assert ts[i] in ts;
    }
  }

  /** After an owner's death the Node settles every hold of the manifest, known or not. */
  lemma OwnerDeathSettlesAll(publication: Publication, cleanups: map<Step, CleanupReply>)
    requires EveryReleaseAnswered(publication, cleanups)
    ensures SettlesAll(publication, OwnerDeathClosed(publication, cleanups))
  {
    OwnerDeathWithinManifest(publication, cleanups);
    forall t | t in publication.transfers
      ensures Settled(OwnerDeathClosed(publication, cleanups), t.FinalKey())
      ensures Settled(OwnerDeathClosed(publication, cleanups), t.ProvisionalKey())
    {
      var i :| 0 <= i < |publication.transfers| && publication.transfers[i] == t;
      OwnerDeathSettles(publication, cleanups, i);
    }
  }

  // ------------------------------------------------------------------------
  // What an accepted retirement proves

  // A recorded preparation takes the provisional hold of a later transfer off
  // the list, and with it this transfer's final hold if the two are one.
  ghost predicate TakenOff(ts: seq<Transfer>, known: bool, i: nat)
    requires i < |ts|
  {
    known && exists j :: i <= j < |ts| && ts[j].ProvisionalKey() == ts[i].FinalKey()
  }

  lemma TakenOffEarlier(ts: seq<Transfer>, known: bool, i: nat)
    requires i < |ts| - 1
    ensures var n := |ts| - 1;
      TakenOff(ts, known, i) <==> TakenOff(ts[..n], known, i) || (known && ts[n].ProvisionalKey() == ts[i].FinalKey())
  {
    var n := |ts| - 1;
    assert forall j :: 0 <= j < n ==> ts[..n][j] == ts[j];
    if TakenOff(ts, known, i) {
      var j :| i <= j < |ts| && ts[j].ProvisionalKey() == ts[i].FinalKey();
      if j < n {
        assert ts[..n][j].ProvisionalKey() == ts[..n][i].FinalKey();
      }
    }
  }

  ghost predicate DistinctFinals(ts: seq<Transfer>) {
    forall i, j :: 0 <= i < j < |ts| ==> ts[i].FinalKey() != ts[j].FinalKey()
  }

  lemma {:induction false} RequiredIsExact(ts: seq<Transfer>, prepares: set<nat>, promotes: set<nat>, known: bool,
                                           i: nat)
    requires i < |ts| && DistinctFinals(ts)
    ensures i in promotes && !TakenOff(ts, known, i) ==>
      ts[i].FinalKey() in RequiredHolds(ts, prepares, promotes, known)
    ensures TakenOff(ts, known, i) ==> ts[i].FinalKey() !in RequiredHolds(ts, prepares, promotes, known)
    ensures i in prepares && !known ==> ts[i].ProvisionalKey() in RequiredHolds(ts, prepares, promotes, known)
  {
    var n := |ts| - 1;
    if i == n {
      assert TakenOff(ts, known, i) <==> known && ts[n].ProvisionalKey() == ts[n].FinalKey();
    } else {
      assert ts[..n][i] == ts[i];
      RequiredIsExact(ts[..n], prepares, promotes, known, i);
      TakenOffEarlier(ts, known, i);
    }
  }

  /** Retirement never leaks a hold: whatever evidence the authority accepts,
      every final hold that may exist is freed or its owner is dead, unless it is
      also a later transfer's consumed provisional hold; and so is every
      provisional hold unless a recorded promotion consumed it. */
  lemma AcceptedRetirementSettles(u: Snapshot, closed: ClosedHolds, i: nat)
    requires CheckClosed(u, closed) == None && u.publication.Valid() && i < |u.publication.transfers|
    ensures (closed.scope.None? || i in closed.scope.value.promoteIntents)
            && !TakenOff(u.publication.transfers, u.prepared.Some?, i) ==>
              Settled(closed, u.publication.transfers[i].FinalKey())
    ensures u.prepared.None? && (closed.scope.None? || i in closed.scope.value.prepareIntents) ==>
              Settled(closed, u.publication.transfers[i].ProvisionalKey())
  {
    var ts, all := u.publication.transfers, Below(|u.publication.transfers|);
    var prepares := if closed.scope.Some? then closed.scope.value.prepareIntents else all;
    var promotes := if closed.scope.Some? then closed.scope.value.promoteIntents else all;
    RequiredIsExact(ts, prepares, promotes, u.prepared.Some?, i);
  }

  // Evidence that lists exactly these holds.
  lemma {:induction false} Listed(keys: set<HoldKey>) returns (releases: seq<Release>)
    ensures DistinctReleases(releases) && forall r :: r in releases <==> r.released && r.key in keys
  {
    if keys == {} {
      releases := [];
    } else {
      var k :| k in keys;
      var others := Listed(keys - {k});
      releases := others + [Release(k, true)];
      assert forall i :: 0 <= i < |others| ==> others[i] in others;
    }
  }

  lemma {:induction false} RequiredWithin(ts: seq<Transfer>, prepares: set<nat>, promotes: set<nat>, known: bool)
    ensures RequiredHolds(ts, prepares, promotes, known) <= AllHolds(ts)
  {
    if ts == [] {
    } else {
      var n := |ts| - 1;
      RequiredWithin(ts[..n], prepares, promotes, known);
      assert forall t :: t in ts[..n] ==> t in ts;
      assert ts[n] in ts;
    }
  }

  // All acceptable evidence without a rollback scope settles this final hold.
  ghost predicate AlwaysSettles(u: Snapshot, i: nat)
    requires i < |u.publication.transfers|
  {
    forall closed: ClosedHolds :: closed.Valid() && closed.scope.None? && CheckClosed(u, closed) == None ==>
      Settled(closed, u.publication.transfers[i].FinalKey())
  }

  // Evidence that lists exactly what is required passes.
  lemma RequiredPasses(u: Snapshot, closed: ClosedHolds)
    requires closed.reference == u.Ref() && closed.scope.None?
    requires var all := Below(|u.publication.transfers|);
      closed.Released() == RequiredHolds(u.publication.transfers, all, all, u.prepared.Some?) && closed.Dead() == {}
    ensures CheckClosed(u, closed) == None
  {
    var all := Below(|u.publication.transfers|);
    RequiredWithin(u.publication.transfers, all, all, u.prepared.Some?);
  }

  /** A final hold is always settled exactly when it is not taken off the list. */
  lemma AlwaysSettlesIff(u: Snapshot, i: nat)
    requires u.publication.Valid() && i < |u.publication.transfers|
    ensures AlwaysSettles(u, i) <==> !TakenOff(u.publication.transfers, u.prepared.Some?, i)
  {
    hide RequiredHolds, TakenOff, Settled, CheckClosed;
    var ts, all := u.publication.transfers, Below(|u.publication.transfers|);
    RequiredIsExact(ts, all, all, u.prepared.Some?, i);
    if TakenOff(ts, u.prepared.Some?, i) {
      var required := RequiredHolds(ts, all, all, u.prepared.Some?);
      var releases := Listed(required);
      var closed := ClosedHolds(u.Ref(), releases, [], None);
      assert forall k :: k in required ==> Release(k, true) in releases;
      assert closed.Released() == required;
      RequiredPasses(u, closed);
      UnlistedIsUnsettled(closed, ts[i].FinalKey());
    } else {
      forall closed: ClosedHolds | closed.Valid() && closed.scope.None? && CheckClosed(u, closed) == None
        ensures Settled(closed, ts[i].FinalKey())
      {
        AcceptedRetirementSettles(u, closed, i);
      }
    }
  }

  lemma UnlistedIsUnsettled(closed: ClosedHolds, key: HoldKey)
    requires key !in closed.Released() && closed.deaths == []
    ensures !Settled(closed, key)
  {
  }
}
