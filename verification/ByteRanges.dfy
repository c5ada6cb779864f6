/** Sets of byte positions kept as sorted lists of half-open intervals. */
module ByteRanges {
  datatype Range = Range(start: nat, end: nat)

  // Non-empty intervals in order, with a gap before each next one.
  ghost predicate Canonical(rs: seq<Range>) {
    && (forall i :: 0 <= i < |rs| ==> rs[i].start < rs[i].end)
    && forall i, j :: 0 <= i < j < |rs| ==> rs[i].end < rs[j].start
  }

  predicate Covers(rs: seq<Range>, b: nat) {
    exists i :: 0 <= i < |rs| && rs[i].start <= b < rs[i].end
  }

  ghost predicate Within(rs: seq<Range>, size: nat) {
    forall i :: 0 <= i < |rs| ==> rs[i].end <= size
  }

  function Min(a: nat, b: nat): nat { if a < b then a else b }
  function Max(a: nat, b: nat): nat { if a < b then b else a }

  // The interval list after one write.
  function Add(rs: seq<Range>, start: nat, end: nat): seq<Range> {
    if start >= end then rs
    else if rs == [] then [Range(start, end)]
    else if rs[0].end < start then [rs[0]] + Add(rs[1..], start, end)
    else if end < rs[0].start then [Range(start, end)] + rs
    else Add(rs[1..], Min(start, rs[0].start), Max(end, rs[0].end))
  }

  lemma CoversStep(rs: seq<Range>, b: nat)
    requires rs != []
    ensures Covers(rs, b) <==> rs[0].start <= b < rs[0].end || Covers(rs[1..], b)
  {
    if Covers(rs[1..], b) {
      var i :| 0 <= i < |rs[1..]| && rs[1..][i].start <= b < rs[1..][i].end;
      assert rs[i + 1].start <= b < rs[i + 1].end;
    }
    if Covers(rs, b) && !(rs[0].start <= b < rs[0].end) {
      var i :| 0 <= i < |rs| && rs[i].start <= b < rs[i].end;
      assert rs[1..][i - 1].start <= b < rs[1..][i - 1].end;
    }
  }

  /** A write adds exactly its own bytes. */
  lemma {:induction false} AddCovers(rs: seq<Range>, start: nat, end: nat, b: nat)
    requires Canonical(rs)
    ensures Covers(Add(rs, start, end), b) <==> Covers(rs, b) || start <= b < end
    decreases |rs|
  {
    if start >= end {
    } else {
      if rs == [] {
        assert Add(rs, start, end)[0] == Range(start, end);
      } else {
        CoversStep(rs, b);
        assert Canonical(rs[1..]);
        if rs[0].end < start {
          AddCovers(rs[1..], start, end, b);
          CoversStep(Add(rs, start, end), b);
        } else if end < rs[0].start {
          CoversStep(Add(rs, start, end), b);
          assert Add(rs, start, end)[1..] == rs;
        } else {
          AddCovers(rs[1..], Min(start, rs[0].start), Max(end, rs[0].end), b);
        }
      }
    }
  }

  lemma PrependKeeps(r: Range, rest: seq<Range>)
    requires Canonical(rest) && r.start < r.end && (rest != [] ==> r.end < rest[0].start)
    ensures Canonical([r] + rest)
  {
    var all := [r] + rest;
    forall i, j | 0 <= i < j < |all| ensures all[i].end < all[j].start {
      if j > 1 {
        assert rest[0].start < rest[0].end < rest[j - 1].start;
      }
    }
  }

  // Every byte from lo to hi is covered.
  ghost predicate Spans(rs: seq<Range>, lo: nat, hi: nat) { forall b: nat :: lo <= b < hi ==> Covers(rs, b) }

  lemma AddSpans(rs: seq<Range>, start: nat, end: nat)
    requires Canonical(rs)
    ensures Spans(Add(rs, start, end), start, end)
  {
    forall b: nat | start <= b < end ensures Covers(Add(rs, start, end), b) {
      AddCovers(rs, start, end, b);
    }
  }

  lemma SpansKept(rs: seq<Range>, start: nat, end: nat, lo: nat, hi: nat)
    requires Canonical(rs) && Spans(rs, lo, hi)
    ensures Spans(Add(rs, start, end), lo, hi)
  {
    forall b: nat | lo <= b < hi ensures Covers(Add(rs, start, end), b) {
      AddCovers(rs, start, end, b);
    }
  }

  lemma TailKeeps(rs: seq<Range>)
    requires Canonical(rs) && rs != []
    ensures Canonical(rs[1..]) && (|rs| > 1 ==> rs[0].end < rs[1].start)
  {
  }

  // The first interval after a write.
  function FirstStart(rs: seq<Range>, start: nat): nat { if rs == [] then start else Min(start, rs[0].start) }

  lemma {:induction false} AddIsCanonical(rs: seq<Range>, start: nat, end: nat)
    requires Canonical(rs)
    ensures Canonical(Add(rs, start, end))
    ensures start < end ==> Add(rs, start, end) != [] && Add(rs, start, end)[0].start == FirstStart(rs, start)
    decreases |rs|
  {
    if start >= end || rs == [] {
    } else {
      TailKeeps(rs);
      if rs[0].end < start {
        AddIsCanonical(rs[1..], start, end);
        PrependKeeps(rs[0], Add(rs[1..], start, end));
      } else if end < rs[0].start {
        PrependKeeps(Range(start, end), rs);
      } else {
        AddIsCanonical(rs[1..], Min(start, rs[0].start), Max(end, rs[0].end));
      }
    }
  }

  lemma {:induction false} AddWithin(rs: seq<Range>, start: nat, end: nat, size: nat)
    requires Within(rs, size) && end <= size
    ensures Within(Add(rs, start, end), size)
    decreases |rs|
  {
    if start >= end || rs == [] {
    } else {
      assert Within(rs[1..], size);
      if rs[0].end < start {
        AddWithin(rs[1..], start, end, size);
      } else if end >= rs[0].start {
        AddWithin(rs[1..], Min(start, rs[0].start), Max(end, rs[0].end), size);
      }
    }
  }

  // The first interval starts at the first covered byte and ends at the next uncovered one.
  lemma FirstInterval(rs: seq<Range>)
    requires Canonical(rs) && rs != []
    ensures Covers(rs, rs[0].start) && !Covers(rs, rs[0].end)
    ensures forall b: nat :: b < rs[0].start ==> !Covers(rs, b)
    ensures forall b: nat :: rs[0].start <= b < rs[0].end ==> Covers(rs, b)
  {
  }

  /** Interval lists are canonical: two that cover the same bytes are equal. */
  lemma {:induction false} CanonicalIsUnique(a: seq<Range>, b: seq<Range>)
    requires Canonical(a) && Canonical(b) && forall n: nat :: Covers(a, n) <==> Covers(b, n)
    ensures a == b
    decreases |a|
  {
    if a == [] {
      if b != [] { FirstInterval(b); }
    } else if b == [] {
      FirstInterval(a);
    } else {
      FirstInterval(a);
      FirstInterval(b);
      assert a[0].start == b[0].start by {
        assert Covers(b, a[0].start) && Covers(a, b[0].start);
      }
      assert a[0].end == b[0].end by {
        assert !Covers(a, a[0].end) && !Covers(b, b[0].end);
      }
      forall n: nat ensures Covers(a[1..], n) <==> Covers(b[1..], n) {
        CoversStep(a, n);
        CoversStep(b, n);
      }
      CanonicalIsUnique(a[1..], b[1..]);
      assert a == [a[0]] + a[1..] && b == [b[0]] + b[1..];
    }
  }

  lemma SecondEndsLater(rs: seq<Range>)
    requires Canonical(rs)
    ensures |rs| > 1 ==> rs[0].end < rs[1].end
  {
  }

  // ------------------------------------------------------------------------
  // Complete coverage

  predicate Complete(rs: seq<Range>, size: nat) { size == 0 || rs == [Range(0, size)] }

  /** Completely written means exactly that every byte of the object was. */
  lemma CompleteIffCovered(rs: seq<Range>, size: nat)
    requires Canonical(rs) && Within(rs, size)
    ensures Complete(rs, size) <==> forall b: nat :: b < size ==> Covers(rs, b)
  {
    if size > 0 {
      if Complete(rs, size) {
        forall b: nat | b < size ensures Covers(rs, b) {
          assert rs[0].start <= b < rs[0].end;
        }
      }
      if forall b: nat :: b < size ==> Covers(rs, b) {
        assert Covers(rs, 0);
        FirstInterval(rs);
        SecondEndsLater(rs);
      }
    }
  }

  function Total(rs: seq<Range>): int {
    if rs == [] then 0 else Total(rs[..|rs| - 1]) + rs[|rs| - 1].end - rs[|rs| - 1].start
  }

  // Gaps cost bytes: a canonical list sums to less than its end unless it starts at zero without gaps.
  lemma {:induction false} TotalBound(rs: seq<Range>)
    requires Canonical(rs)
    ensures rs != [] ==> Total(rs) <= rs[|rs| - 1].end - rs[0].start
    ensures |rs| > 1 ==> Total(rs) < rs[|rs| - 1].end - rs[0].start
  {
    if rs == [] {
    } else {
      var n := |rs| - 1;
      TotalBound(rs[..n]);
      if n > 0 {
        assert rs[..n][|rs[..n]| - 1] == rs[n - 1] && rs[..n][0] == rs[0];
      } else {
        assert Total(rs[..n]) == 0;
      }
    }
  }

  /** Counting received bytes decides completeness. */
  lemma CompleteIffTotal(rs: seq<Range>, size: nat)
    requires Canonical(rs) && Within(rs, size)
    ensures Complete(rs, size) <==> Total(rs) == size
  {
    TotalBound(rs);
    if rs == [Range(0, size)] {
      assert rs[..0] == [];
    }
    if |rs| == 1 {
      assert rs[..0] == [] && Total(rs) == rs[0].end - rs[0].start;
    }
    if rs != [] { assert rs[|rs| - 1].end <= size; }
  }

  // ------------------------------------------------------------------------
  // The merging loop

  // The new interval at its place among the sorted ones.
  function Inserted(rs: seq<Range>, r: Range): seq<Range> {
    if rs == [] then [r]
    else if rs[0].start < r.start || (rs[0].start == r.start && rs[0].end <= r.end) then [rs[0]] + Inserted(rs[1..], r)
    else [r] + rs
  }

  ghost predicate Ascending(rs: seq<Range>) {
    && (forall i :: 0 <= i < |rs| ==> rs[i].start < rs[i].end)
    && forall i, j :: 0 <= i < j < |rs| ==> rs[i].start <= rs[j].start
  }

  lemma {:induction false} InsertedIs(rs: seq<Range>, r: Range)
    requires Ascending(rs) && r.start < r.end
    ensures Ascending(Inserted(rs, r))
    ensures forall x :: x in Inserted(rs, r) <==> x in rs || x == r
  {
    if rs == [] {
    } else {
      InsertedIs(rs[1..], r);
      assert rs == [rs[0]] + rs[1..];
      var all := Inserted(rs, r);
      forall i, j | 0 <= i < j < |all| ensures all[i].start <= all[j].start {
        assert all[j] in all;
      }
    }
  }

  lemma CoversAppend(rs: seq<Range>, r: Range, b: nat)
    ensures Covers(rs + [r], b) <==> Covers(rs, b) || r.start <= b < r.end
  {
    if Covers(rs, b) {
      var i :| 0 <= i < |rs| && rs[i].start <= b < rs[i].end;
      assert (rs + [r])[i] == rs[i];
    }
    assert (rs + [r])[|rs|] == r;
  }

  // One iteration: open a new interval after a gap, otherwise stretch the last one.
  function Absorb(merged: seq<Range>, r: Range): seq<Range> {
    if merged == [] || r.start > merged[|merged| - 1].end then merged + [r]
    else merged[..|merged| - 1] + [Range(merged[|merged| - 1].start, Max(merged[|merged| - 1].end, r.end))]
  }

  lemma AbsorbKeeps(merged: seq<Range>, r: Range)
    requires Canonical(merged) && r.start < r.end && (merged != [] ==> merged[|merged| - 1].start <= r.start)
    ensures Canonical(Absorb(merged, r))
    ensures forall b: nat :: Covers(Absorb(merged, r), b) <==> Covers(merged, b) || r.start <= b < r.end
    ensures Absorb(merged, r)[|Absorb(merged, r)| - 1].start <= r.start
  {
    forall b: nat ensures Covers(Absorb(merged, r), b) <==> Covers(merged, b) || r.start <= b < r.end {
      if merged == [] || r.start > merged[|merged| - 1].end {
        CoversAppend(merged, r, b);
      } else {
        var k := |merged| - 1;
        assert merged == merged[..k] + [merged[k]];
        CoversAppend(merged[..k], merged[k], b);
        CoversAppend(merged[..k], Range(merged[k].start, Max(merged[k].end, r.end)), b);
      }
    }
  }

  lemma CoversNext(all: seq<Range>, i: nat)
    requires i < |all|
    ensures forall b: nat :: Covers(all[..i + 1], b) <==> Covers(all[..i], b) || all[i].start <= b < all[i].end
  {
    assert all[..i + 1] == all[..i] + [all[i]];
    forall b: nat ensures Covers(all[..i + 1], b) <==> Covers(all[..i], b) || all[i].start <= b < all[i].end {
      CoversAppend(all[..i], all[i], b);
    }
  }

  // The first i intervals are merged, and the rest start no earlier than the last one.
  ghost predicate MergedUpTo(all: seq<Range>, i: nat, merged: seq<Range>)
    requires i <= |all|
  {
    && Canonical(merged)
    && (merged != [] ==> forall j :: i <= j < |all| ==> merged[|merged| - 1].start <= all[j].start)
    && forall b: nat :: Covers(merged, b) <==> Covers(all[..i], b)
  }

  lemma MergeStep(all: seq<Range>, i: nat, merged: seq<Range>)
    requires Ascending(all) && i < |all| && MergedUpTo(all, i, merged)
    ensures MergedUpTo(all, i + 1, Absorb(merged, all[i]))
  {
    AbsorbKeeps(merged, all[i]);
    CoversNext(all, i);
    hide Absorb, Covers, Canonical;
  }

  /** The merge both the store and the transfer manager run after each write. */
  method MergeRange(ranges: seq<Range>, start: nat, end: nat) returns (merged: seq<Range>)
    requires Canonical(ranges) && start <= end
    ensures merged == Add(ranges, start, end)
  {
    if start == end { return ranges; }
    var all := Inserted(ranges, Range(start, end));
    InsertedIs(ranges, Range(start, end));
    merged := [];
    var i := 0;
    while i < |all|
      invariant 0 <= i <= |all| && MergedUpTo(all, i, merged)
    {
      MergeStep(all, i, merged);
      merged := Absorb(merged, all[i]);
      i := i + 1;
    }
    assert all[..|all|] == all;
    MergedIsAdd(ranges, start, end, all, merged);
  }

  lemma MergedIsAdd(ranges: seq<Range>, start: nat, end: nat, all: seq<Range>, merged: seq<Range>)
    requires Canonical(ranges) && start < end && Canonical(merged)
    requires forall x :: x in all <==> x in ranges || x == Range(start, end)
    requires forall b: nat :: Covers(merged, b) <==> Covers(all, b)
    ensures merged == Add(ranges, start, end)
  {
    AddIsCanonical(ranges, start, end);
    assert Range(start, end) in all;
    forall b: nat ensures Covers(merged, b) <==> Covers(Add(ranges, start, end), b) {
      AddCovers(ranges, start, end, b);
      if start <= b < end {
        var i :| 0 <= i < |all| && all[i] == Range(start, end);
        assert Covers(all, b);
      }
      if Covers(ranges, b) {
        var j :| 0 <= j < |ranges| && ranges[j].start <= b < ranges[j].end;
        assert ranges[j] in all;
        var i :| 0 <= i < |all| && all[i] == ranges[j];
        assert Covers(all, b);
      }
      if Covers(all, b) {
        var i :| 0 <= i < |all| && all[i].start <= b < all[i].end;
        assert all[i] in all;
      }
    }
    CanonicalIsUnique(merged, Add(ranges, start, end));
  }
}
