/** The byte stream a manifest feeds to its digest: a domain prefix and then
    length-framed fields. A parser undoes it, so equal streams come from equal
    manifests. */
module ManifestFraming {
  import opened Ids

  type Bytes = seq<Byte>

  const WORD := 0x1_0000_0000_0000_0000
  type Word = n: nat | n < WORD

  // Identities are their bytes; a transfer is its fingerprint.
  datatype Slot = Slot(task: Bytes, index: Word, tier: Bytes, size: Word, checksum: Bytes, transfers: seq<Bytes>)

  datatype Manifest = Manifest(lease: Bytes, task: Bytes, attempt: Word, outputTask: Bytes, outputIndex: Word,
                               job: Bytes, executor: Bytes, owner: Bytes, node: Bytes, pid: Word, registration: Word,
                               slots: seq<Slot>)

  // Lengths and counts fit the 64-bit words that carry them.
  ghost predicate Fits(m: Manifest) {
    && |m.slots| < WORD && (forall s :: s in m.slots ==> |s.transfers| < WORD)
    && forall f :: f in Fields(m) ==> |f| < WORD
  }

  // ------------------------------------------------------------------------
  // Big-endian words

  function BigEndian(n: nat, width: nat): (b: Bytes)
    ensures |b| == width
  {
    if width == 0 then [] else BigEndian(n / 256, width - 1) + [(n % 256) as Byte]
  }

  function FromBigEndian(b: Bytes): nat {
    if b == [] then 0 else FromBigEndian(b[..|b| - 1]) * 256 + b[|b| - 1] as nat
  }

  function Power(width: nat): nat { if width == 0 then 1 else 256 * Power(width - 1) }

  lemma {:induction false} WordRoundTrip(n: nat, width: nat)
    requires n < Power(width)
    ensures FromBigEndian(BigEndian(n, width)) == n
  {
    if width == 0 {
    } else {
      WordRoundTrip(n / 256, width - 1);
      assert BigEndian(n, width)[..width - 1] == BigEndian(n / 256, width - 1);
    }
  }

  lemma EightBytesAreAWord()
    ensures Power(8) == WORD
  {
    assert Power(4) == 0x1_0000_0000;
    assert Power(8) == 256 * Power(7) == 0x1_0000 * Power(6) == 0x100_0000 * Power(5) == 0x1_0000_0000 * Power(4);
  }

  function Uint(n: Word): Bytes { BigEndian(n, 8) }

  lemma UintRoundTrip(n: Word)
    ensures FromBigEndian(Uint(n)) == n
  {
    EightBytesAreAWord();
    WordRoundTrip(n, 8);
  }

  // ------------------------------------------------------------------------
  // Frames

  function Framed(value: Bytes): Bytes
    requires |value| < WORD
  {
    Uint(|value|) + value
  }

  function FrameAll(fields: seq<Bytes>): Bytes
    requires forall f :: f in fields ==> |f| < WORD
  {
    if fields == [] then [] else Framed(fields[0]) + FrameAll(fields[1..])
  }

  // Undo the framing: None when the stream is not a sequence of frames.
  function Unframe(stream: Bytes): Option<seq<Bytes>>
    decreases |stream|
  {
    if stream == [] then Some([])
    else if |stream| < 8 then None
    else
      var n := FromBigEndian(stream[..8]);
      if |stream| < 8 + n then None
      else
        var rest := Unframe(stream[8 + n..]);
        if rest.None? then None else Some([stream[8..8 + n]] + rest.value)
  }

  // One frame in front of a stream that unframes.
  lemma UnframeOne(head: Bytes, rest: Bytes, fields: seq<Bytes>)
    requires |head| < WORD && Unframe(rest) == Some(fields)
    ensures Unframe(Framed(head) + rest) == Some([head] + fields)
  {
    var stream, word := Framed(head) + rest, Uint(|head|);
    UintRoundTrip(|head|);
    assert stream[..8] == word;
    assert stream[8..8 + |head|] == head;
    assert stream[8 + |head|..] == rest;
  }

  lemma {:induction false} UnframeFrames(fields: seq<Bytes>)
    requires forall f :: f in fields ==> |f| < WORD
    ensures Unframe(FrameAll(fields)) == Some(fields)
  {
    if fields == [] {
    } else {
      UnframeFrames(fields[1..]);
      UnframeOne(fields[0], FrameAll(fields[1..]), fields[1..]);
      assert fields == [fields[0]] + fields[1..];
    }
  }

  lemma {:induction false} FrameAllConcat(a: seq<Bytes>, b: seq<Bytes>)
    requires forall f :: f in a + b ==> |f| < WORD
    ensures FrameAll(a + b) == FrameAll(a) + FrameAll(b)
  {
    if a == [] {
      assert a + b == b;
    } else {
      assert (a + b)[0] == a[0] && (a + b)[1..] == a[1..] + b;
      FrameAllConcat(a[1..], b);
    }
  }

  // ------------------------------------------------------------------------
  // Manifest fields

  function ObjectFields(task: Bytes, index: Word): seq<Bytes> { [task, Uint(index)] }

  function PublicationFields(m: Manifest): seq<Bytes> {
    [m.lease, m.task, Uint(m.attempt)] + ObjectFields(m.outputTask, m.outputIndex)
  }

  function HeaderFields(m: Manifest): seq<Bytes> {
    PublicationFields(m) + [m.job, m.executor, m.owner, m.node, Uint(m.pid), Uint(m.registration)]
  }

  function Count(n: nat): Bytes { BigEndian(n, 8) }

  function SlotFields(s: Slot): seq<Bytes> {
    ObjectFields(s.task, s.index) + [s.tier, Uint(s.size), s.checksum, Count(|s.transfers|)] + s.transfers
  }

  function SlotsFields(slots: seq<Slot>): seq<Bytes> {
    if slots == [] then [] else SlotFields(slots[0]) + SlotsFields(slots[1..])
  }

  // Everything before the slots.
  function Front(m: Manifest): seq<Bytes> { HeaderFields(m) + [Count(|m.slots|)] }

  function Fields(m: Manifest): seq<Bytes> { Front(m) + SlotsFields(m.slots) }

  // The bytes hashed for a manifest.
  function Stream(domain: Bytes, m: Manifest): Bytes
    requires Fits(m)
  {
    domain + FrameAll(Fields(m))
  }

  // ------------------------------------------------------------------------
  // The parser

  function ParseSlots(fields: seq<Bytes>, count: nat): Option<seq<Slot>>
    decreases count
  {
    if count == 0 then if fields == [] then Some([]) else None
    else if |fields| < 6 then None
    else
      var n := FromBigEndian(fields[5]);
      if |fields| < 6 + n || FromBigEndian(fields[1]) >= WORD || FromBigEndian(fields[3]) >= WORD then None
      else
        var rest := ParseSlots(fields[6 + n..], count - 1);
        if rest.None? then None
        else Some([Slot(fields[0], FromBigEndian(fields[1]), fields[2], FromBigEndian(fields[3]), fields[4],
                        fields[6..6 + n])]
                  + rest.value)
  }

  predicate WordAt(fields: seq<Bytes>, i: nat) { i < |fields| && FromBigEndian(fields[i]) < WORD }

  function Parse(fields: seq<Bytes>): Option<Manifest> {
    if |fields| < 12 || !WordAt(fields, 2) || !WordAt(fields, 4) || !WordAt(fields, 9) || !WordAt(fields, 10) then None
    else
      var slots := ParseSlots(fields[12..], FromBigEndian(fields[11]));
      if slots.None? then None
      else Some(Manifest(fields[0], fields[1], FromBigEndian(fields[2]), fields[3], FromBigEndian(fields[4]), fields[5],
                         fields[6], fields[7], fields[8], FromBigEndian(fields[9]), FromBigEndian(fields[10]),
                         slots.value))
  }

  // One slot in front of fields that parse.
  lemma ParseOneSlot(s: Slot, rest: seq<Bytes>, slots: seq<Slot>)
    requires |s.transfers| < WORD && ParseSlots(rest, |slots|) == Some(slots)
    ensures ParseSlots(SlotFields(s) + rest, |slots| + 1) == Some([s] + slots)
  {
    var all, n := SlotFields(s) + rest, |s.transfers|;
    UintRoundTrip(s.index);
    UintRoundTrip(s.size);
    UintRoundTrip(n);
    SlotFront(s, rest);
    assert FromBigEndian(all[5]) == n;
    assert all[6..6 + n] == s.transfers;
    assert all[6 + n..] == rest;
  }

  lemma SlotFront(s: Slot, rest: seq<Bytes>)
    ensures SlotFields(s) + rest
         == [s.task, Uint(s.index), s.tier, Uint(s.size), s.checksum, Count(|s.transfers|)] + (s.transfers + rest)
  {
  }

  lemma {:induction false} ParseSlotsUndoes(slots: seq<Slot>)
    requires forall s :: s in slots ==> |s.transfers| < WORD
    ensures ParseSlots(SlotsFields(slots), |slots|) == Some(slots)
    decreases |slots|
  {
    if slots == [] {
    } else {
      ParseSlotsUndoes(slots[1..]);
      ParseOneSlot(slots[0], SlotsFields(slots[1..]), slots[1..]);
      assert slots == [slots[0]] + slots[1..];
    }
  }

  lemma FieldsInOrder(m: Manifest)
    ensures Fields(m) == [m.lease, m.task, Uint(m.attempt), m.outputTask, Uint(m.outputIndex), m.job, m.executor,
                          m.owner, m.node, Uint(m.pid), Uint(m.registration), Count(|m.slots|)] + SlotsFields(m.slots)
  {
  }

  lemma ParseUndoes(m: Manifest)
    requires |m.slots| < WORD && forall s :: s in m.slots ==> |s.transfers| < WORD
    ensures Parse(Fields(m)) == Some(m)
  {
    FieldsInOrder(m);
    ParseSlotsUndoes(m.slots);
    UintRoundTrip(m.attempt);
    UintRoundTrip(m.outputIndex);
    UintRoundTrip(m.pid);
    UintRoundTrip(m.registration);
    UintRoundTrip(|m.slots|);
    assert Fields(m)[12..] == SlotsFields(m.slots);
  }

  /** Main result: a manifest can be read back from the bytes that were hashed
      for it, for any number of slots and transfers. */
  lemma StreamIsDecodable(domain: Bytes, m: Manifest)
    requires Fits(m)
    ensures domain <= Stream(domain, m)
    ensures Unframe(Stream(domain, m)[|domain|..]) == Some(Fields(m)) && Parse(Fields(m)) == Some(m)
  {
    assert Stream(domain, m)[|domain|..] == FrameAll(Fields(m));
    UnframeFrames(Fields(m));
    ParseUndoes(m);
  }

  /** Main result: equal streams come from equal manifests. */
  lemma StreamIsInjective(domain: Bytes, a: Manifest, b: Manifest)
    requires Fits(a) && Fits(b) && Stream(domain, a) == Stream(domain, b)
    ensures a == b
  {
    StreamIsDecodable(domain, a);
    StreamIsDecodable(domain, b);
  }

  // ------------------------------------------------------------------------
  // Feeding the digest

  class Digest {
    var fed: Bytes

    constructor (domain: Bytes)
      ensures fed == domain
    {
      fed := domain;
    }

    method Feed(value: Bytes)
      requires |value| < WORD
      modifies this
      ensures fed == old(fed) + FrameAll([value])
    {
      fed := fed + Uint(|value|);
      fed := fed + value;
      assert FrameAll([value]) == Framed(value) + FrameAll([]);
    }

    method FeedEach(values: seq<Bytes>)
      requires forall v :: v in values ==> |v| < WORD
      modifies this
      ensures fed == old(fed) + FrameAll(values)
    {
      var i := 0;
      while i < |values|
        invariant 0 <= i <= |values|
        invariant fed + FrameAll(values[i..]) == old(fed) + FrameAll(values)
      {
        NextFrame(values, i, fed);
        Feed(values[i]);
        i := i + 1;
      }
      assert values[i..] == [];
    }

    method FeedSlot(s: Slot)
      requires |s.transfers| < WORD && forall f :: f in SlotFields(s) ==> |f| < WORD
      modifies this
      ensures fed == old(fed) + FrameAll(SlotFields(s))
    {
      var front := ObjectFields(s.task, s.index) + [s.tier, Uint(s.size), s.checksum, Count(|s.transfers|)];
      assert SlotFields(s) == front + s.transfers;
      FrameAllConcat(front, s.transfers);
      FeedEach(front);
      FeedEach(s.transfers);
    }

    /** Feed a whole manifest, slot by slot. */
    method FeedManifest(m: Manifest)
      requires Fits(m)
      modifies this
      ensures fed == old(fed) + FrameAll(Fields(m))
    {
      FitsParts(m, fed);
      FeedEach(Front(m));
      FeedSlots(m.slots);
    }

    method FeedSlots(slots: seq<Slot>)
      requires forall s :: s in slots ==> |s.transfers| < WORD
      requires forall f :: f in SlotsFields(slots) ==> |f| < WORD
      modifies this
      ensures fed == old(fed) + FrameAll(SlotsFields(slots))
    {
      var i := 0;
      assert slots[0..] == slots;
      while i < |slots|
        invariant 0 <= i <= |slots|
        invariant forall f :: f in SlotsFields(slots[i..]) ==> |f| < WORD
        invariant fed + FrameAll(SlotsFields(slots[i..])) == old(fed) + FrameAll(SlotsFields(slots))
      {
        NextSlot(slots, i, fed);
        FeedSlot(slots[i]);
        i := i + 1;
      }
      assert slots[i..] == [];
    }
  }

  lemma FitsParts(m: Manifest, fed: Bytes)
    requires Fits(m)
    ensures forall f :: f in Front(m) ==> |f| < WORD
    ensures forall f :: f in SlotsFields(m.slots) ==> |f| < WORD
    ensures fed + FrameAll(Fields(m)) == fed + FrameAll(Front(m)) + FrameAll(SlotsFields(m.slots))
  {
    AllInConcat(Front(m), SlotsFields(m.slots));
    FrameAllConcat(Front(m), SlotsFields(m.slots));
  }

  lemma AllInConcat(a: seq<Bytes>, b: seq<Bytes>)
    ensures forall f :: f in a || f in b ==> f in a + b
  {
  }

  // The next frame comes first among those left to feed.
  lemma NextFrame(values: seq<Bytes>, i: nat, fed: Bytes)
    requires i < |values| && forall v :: v in values ==> |v| < WORD
    ensures fed + FrameAll(values[i..]) == fed + FrameAll([values[i]]) + FrameAll(values[i + 1..])
  {
    assert values[i..] == [values[i]] + values[i + 1..];
    FrameAllConcat([values[i]], values[i + 1..]);
  }

  // The next slot's fields come first among those left to feed.
  lemma NextSlot(slots: seq<Slot>, i: nat, fed: Bytes)
    requires i < |slots| && forall f :: f in SlotsFields(slots[i..]) ==> |f| < WORD
    ensures forall f :: f in SlotFields(slots[i]) ==> |f| < WORD
    ensures forall f :: f in SlotsFields(slots[i + 1..]) ==> |f| < WORD
    ensures fed + FrameAll(SlotsFields(slots[i..]))
         == fed + FrameAll(SlotFields(slots[i])) + FrameAll(SlotsFields(slots[i + 1..]))
  {
    var first, others := SlotFields(slots[i]), SlotsFields(slots[i + 1..]);
    assert slots[i..][0] == slots[i] && slots[i..][1..] == slots[i + 1..];
    assert SlotsFields(slots[i..]) == first + others;
    assert forall f :: f in first ==> f in first + others;
    assert forall f :: f in others ==> f in first + others;
    FrameAllConcat(first, others);
  }
}
