/** How a Worker turns the references it finds in a result into transfers, and
    why the tokens it derives by itself never name one hold twice. */
module OutputDiscovery {
  import opened Ids
  import opened PublicationFacts
  import opened PublicationAuthority
  import opened PublicationSettlement
  import opened NodePublication
  import J = PublicationJournal

  // A reference met while serializing, with the executor's claim to it.
  datatype Found = Found(child: ObjectID, owner: WorkerID, address: Address, source: Source)

  datatype Header = Header(lease: LeaseID, attempt: AttemptID, job: JobID, executor: WorkerID, owner: WorkerID,
                           node: NodeIncarnation, ownerAddress: Address)

  // ------------------------------------------------------------------------
  // Tokens

  function Digit(n: nat): char
    requires n < 10
  {
    "0123456789"[n]
  }

  function Decimal(n: nat): (s: string)
    ensures |s| > 0
  {
    if n < 10 then [Digit(n)] else Decimal(n / 10) + [Digit(n % 10)]
  }

  lemma DigitsDiffer(a: nat, b: nat)
    requires a < 10 && b < 10 && Digit(a) == Digit(b)
    ensures a == b
  {
  }

  lemma {:induction false} DecimalsDiffer(a: nat, b: nat)
    requires Decimal(a) == Decimal(b)
    ensures a == b
    decreases a
  {
    var s, t := Decimal(a), Decimal(b);
    assert s[|s| - 1] == t[|t| - 1];
    DigitsDiffer(a % 10, b % 10);
    if a < 10 {
      assert |s| == 1;
    } else {
      assert s[..|s| - 1] == Decimal(a / 10);
      assert b >= 10 ==> t[..|t| - 1] == Decimal(b / 10);
      DecimalsDiffer(a / 10, b / 10);
    }
  }

  const HANDOFF := "output-publication-handoff:"

  // The token of the i-th reference of the slot, derived from the publication alone.
  function DerivedToken(digest: string, i: nat): string {
    HANDOFF + digest + ":slot:0:transfer:" + Decimal(i)
  }

  lemma DerivedTokensDiffer(digest: string, i: nat, j: nat)
    requires DerivedToken(digest, i) == DerivedToken(digest, j)
    ensures i == j
  {
    var front := HANDOFF + digest + ":slot:0:transfer:";
    assert DerivedToken(digest, i) == front + Decimal(i) && DerivedToken(digest, j) == front + Decimal(j);
    assert (front + Decimal(i))[|front|..] == Decimal(i) && (front + Decimal(j))[|front|..] == Decimal(j);
    DecimalsDiffer(i, j);
  }

  lemma DerivedTokenIsPlain(digest: string, i: nat)
    ensures DerivedToken(digest, i) != "" && !("provisional:" <= DerivedToken(digest, i))
  {
    assert DerivedToken(digest, i)[0] == 'o' && "provisional:"[0] == 'p';
  }

  // ------------------------------------------------------------------------
  // Manifests

  function Exported(h: Header, found: Found, token: string): Transfer {
    var name := ObjectID(h.attempt.task, 0);
    Transfer(found.child, found.owner, found.address, found.source,
             Hold(name, h.executor, if h.executor == h.owner then "provisional:" + token else token),
             Hold(name, h.owner, token))
  }

  function Discovered(h: Header, founds: seq<Found>, tokens: seq<string>, payload: Payload, digest: Digest): Publication
    requires |tokens| == |founds|
  {
    TaskPublication(h.lease, h.attempt, h.job, h.executor, h.owner, h.node, payload,
                    seq(|founds|, i requires 0 <= i < |founds| => Exported(h, founds[i], tokens[i])), digest,
                    h.ownerAddress)
  }

  function Derived(digest: string, n: nat): (tokens: seq<string>)
    ensures |tokens| == n
  {
    seq(n, i requires 0 <= i < n => DerivedToken(digest, i))
  }

  // What the constructors demand of the references.
  ghost predicate Exportable(h: Header, founds: seq<Found>) {
    && (forall f :: f in founds ==>
          f.source.worker == h.executor && (f.source.OwnedSource? ==> f.source.worker == f.owner))
    && forall f, g :: f in founds && g in founds && f.child == g.child ==> f.owner == g.owner
  }

  lemma DiscoveredIsValid(h: Header, founds: seq<Found>, tokens: seq<string>, payload: Payload, digest: Digest)
    requires Exportable(h, founds) && |tokens| == |founds| && "" !in tokens
    requires forall i, j :: 0 <= i < j < |tokens| ==> tokens[i] != tokens[j]
    ensures Discovered(h, founds, tokens, payload, digest).Valid()
  {
    var ts := Discovered(h, founds, tokens, payload, digest).transfers;
    forall t | t in ts ensures exists i :: 0 <= i < |founds| && t == Exported(h, founds[i], tokens[i]) {
      var i :| 0 <= i < |ts| && ts[i] == t;
    }
    forall i, j | 0 <= i < j < |ts| ensures ts[i].FinalKey() != ts[j].FinalKey() {
      assert ts[i].final.token == tokens[i] && ts[j].final.token == tokens[j];
    }
    forall i, j | 0 <= i < j < |ts| && ts[i].child == ts[j].child ensures ts[i].childOwner == ts[j].childOwner {
      assert founds[i] in founds && founds[j] in founds;
    }
  }

  lemma DerivedArePlain(hex: string, n: nat)
    ensures var tokens := Derived(hex, n);
      && "" !in tokens && (forall t :: t in tokens ==> !("provisional:" <= t))
      && forall i, j :: 0 <= i < j < |tokens| ==> tokens[i] != tokens[j]
  {
    var tokens := Derived(hex, n);
    forall i, j | 0 <= i < j < n ensures tokens[i] != tokens[j] {
      if tokens[i] == tokens[j] {
        DerivedTokensDiffer(hex, i, j);
      }
    }
    forall t | t in tokens ensures t != "" && !("provisional:" <= t) {
      var i :| 0 <= i < n && tokens[i] == t;
      DerivedTokenIsPlain(hex, i);
    }
  }

  /** A manifest whose tokens were derived passes every constructor and never aliases. */
  lemma DerivedNeverAliases(h: Header, founds: seq<Found>, hex: string, payload: Payload, digest: Digest)
    requires Exportable(h, founds)
    ensures var p := Discovered(h, founds, Derived(hex, |founds|), payload, digest); p.Valid() && NoAlias(p)
  {
    hide Derived, Exportable, NoAlias;
    var tokens := Derived(hex, |founds|);
    var p := Discovered(h, founds, tokens, payload, digest);
    DerivedArePlain(hex, |founds|);
    DiscoveredIsValid(h, founds, tokens, payload, digest);
    forall t | t in p.transfers ensures !("provisional:" <= t.final.token) {
      var i :| 0 <= i < |p.transfers| && p.transfers[i] == t;
      assert t.final.token == tokens[i] && tokens[i] in tokens;
    }
    PlainTokensNeverAlias(p);
  }

  /** Main result: a rollback of a manifest with derived tokens always settles at
      the GCS, in every interleaving and with no condition on the manifest. */
  lemma DerivedRollbackSettles(h: Header, founds: seq<Found>, hex: string, payload: Payload, digest: Digest,
                               events: seq<Event>, s: System)
    requires Exportable(h, founds)
    requires Reaches(Start(Discovered(h, founds, Derived(hex, |founds|), payload, digest)), events, s) && RolledBack(s)
    ensures s.journal.publication.Key() in s.gcs.records && J.ClosedRollback(s.journal).Ok?
    ensures var closed, u := J.ClosedRollback(s.journal).value, s.gcs.records[s.journal.publication.Key()];
      && closed.Valid() && CheckClosed(u, closed) == None
      && (Apply(s.gcs, RetireGraph(closed)).1.accepted <==> u.closed in {None, Some(closed)})
  {
    hide Apply, CheckClosed, J.ClosedRollback, Derived, Exportable, NoAlias, Reaches, RolledBack;
    var p := Discovered(h, founds, Derived(hex, |founds|), payload, digest);
    DerivedNeverAliases(h, founds, hex, payload, digest);
    RollbackSettlesAtGcs(p, events, s);
  }

  /** With tokens of another origin, two holds alias exactly when the executor
      owns its own output and one token is another's behind the prefix, for one child. */
  lemma AliasInTokens(p: Publication)
    requires p.TaskPublication? && p.Valid()
    ensures !NoAlias(p) <==>
      && p.executor == p.owner
      && exists i, j :: 0 <= i < |p.transfers| && 0 <= j < |p.transfers| && p.transfers[i].child == p.transfers[j].child
           && p.transfers[i].final.token == "provisional:" + p.transfers[j].final.token
  {
    var ts := p.transfers;
    forall i, j | 0 <= i < |ts| && 0 <= j < |ts|
      ensures ts[i].FinalKey() == ts[j].ProvisionalKey() <==>
        p.executor == p.owner && ts[i].child == ts[j].child && ts[i].final.token == "provisional:" + ts[j].final.token
    {
      assert ts[i] in ts && ts[j] in ts;
      if ts[i].child == ts[j].child { SameChildSameOwner(p, i, j); }
    }
  }

  lemma SameChildSameOwner(p: Publication, i: nat, j: nat)
    requires p.Valid() && i < |p.transfers| && j < |p.transfers| && p.transfers[i].child == p.transfers[j].child
    ensures p.transfers[i].childOwner == p.transfers[j].childOwner
  {
  }
}
