/** The metrics ring: a day of 30-second slots per node, compared with a store
    that forgets nothing. */
module MetricsRing {
  import opened Wrappers
  import opened Wire

  const STEP := 30
  const SLOTS := 2880

  /** A heartbeat's system metrics; rx and tx are cumulative byte counters. */
  datatype SysMetrics = SysMetrics(cpu: real, load: real, memUsed: nat, memTotal: nat, diskUsed: nat, diskTotal: nat,
                                   rx: nat, tx: nat)

  datatype Sample = Sample(ts: int, cpu: real, mem: real, disk: real, load: real, memUsed: nat, memTotal: nat,
                           rxRate: real, txRate: real)

  const ZERO_SAMPLE := Sample(0, 0.0, 0.0, 0.0, 0.0, 0, 0, 0.0, 0.0)

  /** Go's division and remainder, which truncate toward zero. */
  function GoDiv(a: int, b: int): int
    requires b > 0
  {
    if a >= 0 then a / b else -((-a) / b)
  }

  function GoMod(a: int, b: int): int
    requires b > 0
  {
    if a >= 0 then a % b else -((-a) % b)
  }

  function Bucket(ts: int): int {
    GoDiv(ts, STEP)
  }

  /** The slot index the program computes; a negative one makes it panic. */
  function SlotIndex(ts: int): (i: int)
    ensures i < SLOTS
  {
    GoMod(Bucket(ts), SLOTS)
  }

  /** Timestamps the program can store; all from zero on are. */
  type Stamp = ts: int | SlotIndex(ts) >= 0

  datatype Ring = Ring(slots: seq<Sample>, lastTS: Stamp, prevRx: nat, prevTx: nat, prevTS: int)

  function NewRing(): Ring {
    Ring(seq(SLOTS, _ => ZERO_SAMPLE), 0, 0, 0, 0)
  }

  datatype Beat = Beat(ts: Stamp, sys: SysMetrics)

  function Percent(used: nat, total: nat): real {
    if total > 0 then used as real / total as real * 100.0 else 0.0
  }

  /** Counters are differentiated only when time advanced and neither was reset. */
  predicate Differentiable(r: Ring, b: Beat) {
    r.prevTS > 0 && b.ts > r.prevTS && b.sys.rx >= r.prevRx && b.sys.tx >= r.prevTx
  }

  function SampleOf(r: Ring, b: Beat): Sample {
    var rate := Differentiable(r, b);
    Sample(b.ts - GoMod(b.ts, STEP), b.sys.cpu,
           Percent(b.sys.memUsed, b.sys.memTotal), Percent(b.sys.diskUsed, b.sys.diskTotal),
           b.sys.load, b.sys.memUsed, b.sys.memTotal,
           if rate then (b.sys.rx - r.prevRx) as real / (b.ts - r.prevTS) as real else 0.0,
           if rate then (b.sys.tx - r.prevTx) as real / (b.ts - r.prevTS) as real else 0.0)
  }

  function SlotOf(ts: Stamp): nat {
    SlotIndex(ts)
  }

  /** Every timestamp from zero on can be stored. */
  lemma NonNegativeIsStored(ts: int)
    requires ts >= 0
    ensures SlotIndex(ts) == ts / STEP % SLOTS >= 0
  {
  }

  function Ingested(r: Ring, b: Beat): Ring
    requires |r.slots| == SLOTS
  {
    Ring(r.slots[SlotOf(b.ts) := SampleOf(r, b)], b.ts, b.sys.rx, b.sys.tx, b.ts)
  }

  // ---- the full history ----

  /** The ring after a history of heartbeats. */
  function RingOf(h: seq<Beat>): (r: Ring)
    ensures |r.slots| == SLOTS
    ensures h != [] ==> r.lastTS == h[|h| - 1].ts
  {
    if h == [] then NewRing() else Ingested(RingOf(h[..|h| - 1]), h[|h| - 1])
  }

  /** The sample the i-th heartbeat produced. */
  function SampleAt(h: seq<Beat>, i: nat): Sample
    requires i < |h|
  {
    SampleOf(RingOf(h[..i]), h[i])
  }

  ghost predicate InOrder(h: seq<Beat>) {
    forall i, j | 0 <= i < j < |h| :: h[i].ts <= h[j].ts
  }

  /** i is the last heartbeat of bucket b. */
  ghost predicate LastOf(h: seq<Beat>, b: int, i: nat) {
    i < |h| && Bucket(h[i].ts) == b && forall j | i < j < |h| :: Bucket(h[j].ts) != b
  }

  /** What a store without overwriting would answer: the last sample of every non-empty bucket from b0
      up to but excluding b1, oldest first. */
  ghost function History(h: seq<Beat>, b0: int, b1: int): seq<Sample>
    decreases b1 - b0
  {
    if b1 <= b0 then []
    else
      var earlier := History(h, b0, b1 - 1);
      if Reported(h, b1 - 1) then earlier + [SampleAt(h, LastIndex(h, b1 - 1))] else earlier
  }

  ghost predicate Reported(h: seq<Beat>, b: int) {
    exists i :: LastOf(h, b, i)
  }

  ghost function LastIndex(h: seq<Beat>, b: int): (i: nat)
    requires Reported(h, b)
    ensures LastOf(h, b, i)
  {
    var i :| LastOf(h, b, i);
    i
  }

  ghost predicate Ascending(s: seq<Sample>) {
    forall i, j | 0 <= i < j < |s| :: s[i].ts < s[j].ts
  }

  lemma SampleTime(h: seq<Beat>, i: nat)
    requires i < |h|
    ensures SampleAt(h, i).ts == STEP * Bucket(h[i].ts)
  {
  }

  lemma BucketTime(h: seq<Beat>, b: int, i: nat)
    requires LastOf(h, b, i)
    ensures SampleAt(h, i).ts == STEP * b
  {
    SampleTime(h, i);
  }

  lemma OneLast(h: seq<Beat>, b: int, i: nat, j: nat)
    requires LastOf(h, b, i) && LastOf(h, b, j)
    ensures i == j
  {
  }

  /** s is the last sample of some bucket from b0 up to but excluding b1. */
  ghost predicate InHistory(h: seq<Beat>, b0: int, b1: int, s: Sample) {
    exists b, i :: b0 <= b < b1 && LastOf(h, b, i) && s == SampleAt(h, i)
  }

  lemma {:induction false} HistoryIsExact(h: seq<Beat>, b0: int, b1: int)
    ensures Ascending(History(h, b0, b1))
    ensures forall s <- History(h, b0, b1) :: s.ts < STEP * b1
    ensures forall s :: s in History(h, b0, b1) <==> InHistory(h, b0, b1, s)
    decreases b1 - b0
  {
    hide SampleAt, Bucket, LastOf;
    if b1 > b0 {
      HistoryIsExact(h, b0, b1 - 1);
      var b := b1 - 1;
      if Reported(h, b) {
        var i := LastIndex(h, b);
        BucketTime(h, b, i);
        forall j: nat | LastOf(h, b, j) ensures j == i {
          OneLast(h, b, i, j);
        }
      }
    }
  }

  // ---- what a slot holds ----

  /** i is the last heartbeat written to slot k. */
  ghost predicate LastIn(h: seq<Beat>, k: nat, i: nat) {
    i < |h| && SlotOf(h[i].ts) == k && forall j | i < j < |h| :: SlotOf(h[j].ts) != k
  }

  lemma {:induction false} SlotHolds(h: seq<Beat>, k: nat)
    requires k < SLOTS
    ensures if exists i :: LastIn(h, k, i) then exists i :: LastIn(h, k, i) && RingOf(h).slots[k] == SampleAt(h, i)
            else RingOf(h).slots[k] == ZERO_SAMPLE
  {
    hide SampleOf, SlotOf;
    if h != [] {
      var init, last := h[..|h| - 1], |h| - 1;
      if SlotOf(h[last].ts) == k {
        assert LastIn(h, k, last);
      } else {
        SlotHolds(init, k);
        forall i: nat ensures LastIn(h, k, i) <==> LastIn(init, k, i) {
        }
        forall i: nat | i < |init| ensures SampleAt(h, i) == SampleAt(init, i) {
          assert h[..i] == init[..i];
        }
      }
    }
  }

  /** A later heartbeat went to the same slot. */
  ghost predicate Overwritten(h: seq<Beat>, i: nat)
    requires i < |h|
  {
    exists j :: i < j < |h| && SlotOf(h[j].ts) == SlotOf(h[i].ts)
  }

  ghost predicate Written(h: seq<Beat>, k: nat) {
    exists i :: 0 <= i < |h| && SlotOf(h[i].ts) == k
  }

  /** A slot holds the last sample of the bucket it was last written for, or nothing. */
  lemma SlotCases(h: seq<Beat>, k: nat)
    requires k < SLOTS
    ensures if Written(h, k)
            then exists i: nat :: LastIn(h, k, i) && RingOf(h).slots[k] == SampleAt(h, i)
                                  && LastOf(h, Bucket(h[i].ts), i) && !Overwritten(h, i)
            else RingOf(h).slots[k] == ZERO_SAMPLE
  {
    hide SampleAt, RingOf;
    SlotHolds(h, k);
    if Written(h, k) {
      LastWrite(h, k);
      var i: nat :| LastIn(h, k, i) && RingOf(h).slots[k] == SampleAt(h, i);
      assert LastOf(h, Bucket(h[i].ts), i) && !Overwritten(h, i);
    }
  }

  lemma {:induction false} LastWrite(h: seq<Beat>, k: nat)
    requires Written(h, k)
    ensures exists i :: LastIn(h, k, i)
  {
    var init, last := h[..|h| - 1], |h| - 1;
    if SlotOf(h[last].ts) == k {
      assert LastIn(h, k, last);
    } else {
      var i :| 0 <= i < |h| && SlotOf(h[i].ts) == k;
      assert init[i] == h[i];
      LastWrite(init, k);
      var j: nat :| LastIn(init, k, j);
      assert LastIn(h, k, j);
    }
  }

  /** A bucket's last sample stays in its slot unless it is overwritten. */
  lemma NotOverwrittenIsKept(h: seq<Beat>, i: nat)
    requires i < |h| && !Overwritten(h, i)
    ensures RingOf(h).slots[SlotOf(h[i].ts)] == SampleAt(h, i)
  {
    hide SampleAt, RingOf;
    var k := SlotOf(h[i].ts);
    assert LastIn(h, k, i);
    SlotHolds(h, k);
    var j: nat :| LastIn(h, k, j) && RingOf(h).slots[k] == SampleAt(h, j);
    assert j == i;
  }

  /** Away from time zero the sample in a slot is its bucket's last one, and its time tells the slot. */
  lemma TimedSlot(h: seq<Beat>, k: nat)
    requires k < SLOTS && RingOf(h).slots[k].ts != 0
    ensures var s := RingOf(h).slots[k];
            exists b, i :: LastOf(h, b, i) && s == SampleAt(h, i) && s.ts == STEP * b && GoMod(b, SLOTS) == k
                && !Overwritten(h, i)
  {
    hide SampleAt, RingOf;
    SlotCases(h, k);
    var i: nat :| LastIn(h, k, i) && RingOf(h).slots[k] == SampleAt(h, i)
                  && LastOf(h, Bucket(h[i].ts), i) && !Overwritten(h, i);
    SampleTime(h, i);
  }

  /** A bucket other than the first is gone from every slot once it is overwritten. */
  lemma OverwrittenIsGone(h: seq<Beat>, b: int, i: nat, k: nat)
    requires LastOf(h, b, i) && b != 0 && Overwritten(h, i) && k < SLOTS
    ensures RingOf(h).slots[k] != SampleAt(h, i)
  {
    hide SampleAt, RingOf;
    BucketTime(h, b, i);
    if RingOf(h).slots[k].ts == STEP * b {
      TimedSlot(h, k);
      var c, j: nat :| LastOf(h, c, j) && RingOf(h).slots[k] == SampleAt(h, j) && RingOf(h).slots[k].ts == STEP * c
                       && GoMod(c, SLOTS) == k && !Overwritten(h, j);
      OneLast(h, b, i, j);
    }
  }

  /** Away from time zero no two slots share a time. */
  lemma TimesDiffer(h: seq<Beat>, k: nat, l: nat)
    requires k < l < SLOTS && RingOf(h).slots[k].ts != 0 && RingOf(h).slots[l].ts != 0
    ensures RingOf(h).slots[k].ts != RingOf(h).slots[l].ts
  {
    hide RingOf, SampleAt, LastOf;
    TimedSlot(h, k);
    TimedSlot(h, l);
  }

  // ---- range queries ----

  /** The slots in [from, to], in slot order. */
  function Selected(slots: seq<Sample>, from: int, to: int): seq<Sample> {
    if slots == [] then []
    else
      var init, last := Selected(slots[..|slots| - 1], from, to), slots[|slots| - 1];
      if from <= last.ts <= to then init + [last] else init
  }

  lemma {:induction false} SelectedMembers(slots: seq<Sample>, from: int, to: int, s: Sample)
    ensures s in Selected(slots, from, to) <==> s in slots && from <= s.ts <= to
  {
    if slots != [] {
      assert slots == slots[..|slots| - 1] + [slots[|slots| - 1]];
      SelectedMembers(slots[..|slots| - 1], from, to, s);
    }
  }

  /** In slot order no two selected samples share a timestamp. */
  ghost predicate DistinctTimes(s: seq<Sample>) {
    forall i, j | 0 <= i < j < |s| :: s[i].ts != s[j].ts
  }

  /** No two of the slots to be selected share a timestamp. */
  ghost predicate DistinctIn(slots: seq<Sample>, from: int, to: int) {
    forall i, j | 0 <= i < j < |slots| && from <= slots[i].ts <= to && from <= slots[j].ts <= to ::
        slots[i].ts != slots[j].ts
  }

  lemma {:induction false} SelectedDistinct(slots: seq<Sample>, from: int, to: int)
    requires DistinctIn(slots, from, to)
    ensures DistinctTimes(Selected(slots, from, to))
  {
    if slots != [] {
      var init, last := slots[..|slots| - 1], slots[|slots| - 1];
      SelectedDistinct(init, from, to);
      forall s | s in Selected(init, from, to) ensures from <= last.ts <= to ==> s.ts != last.ts {
        SelectedMembers(init, from, to, s);
      }
    }
  }

  lemma {:induction false} SelectedTwice(slots: seq<Sample>, from: int, to: int, i: nat, j: nat)
    requires i < j < |slots| && slots[i] == slots[j] && from <= slots[i].ts <= to
    ensures multiset(Selected(slots, from, to))[slots[i]] >= 2
  {
    var init, last := slots[..|slots| - 1], |slots| - 1;
    if j == last {
      SelectedMembers(init, from, to, slots[i]);
      assert init[i] == slots[i];
    } else {
      SelectedTwice(init, from, to, i, j);
    }
  }

  ghost predicate SortedByTime(s: seq<Sample>) {
    forall i, j | 0 <= i < j < |s| :: s[i].ts <= s[j].ts
  }

  /** An answer Range may give: the selected slots, sorted. */
  ghost predicate Answers(r: Ring, from: int, to: int, out: seq<Sample>) {
    SortedByTime(out) && multiset(out) == multiset(Selected(r.slots, from, to))
  }

  /** Ascending sequences with the same elements are the same. */
  lemma {:induction false} AscendingUnique(s: seq<Sample>, t: seq<Sample>)
    requires Ascending(s) && Ascending(t) && forall x :: x in s <==> x in t
    ensures s == t
    decreases |s|
  {
    if s == [] {
      assert forall i | 0 <= i < |t| :: t[i] in s;
    } else {
      var x, y := s[|s| - 1], t[..];
      assert x in t;
      assert t != [];
      var z := t[|t| - 1];
      assert z in s;
      assert x == z;
      var s', t' := s[..|s| - 1], t[..|t| - 1];
      assert s == s' + [x] && t == t' + [x];
      forall v ensures v in s' <==> v in t' {
        if v in s' {
          assert v in s && v != x;
        }
        if v in t' {
          assert v in t && v != x;
        }
      }
      AscendingUnique(s', t');
    }
  }

  lemma {:induction false} DistinctCounts(s: seq<Sample>, x: Sample)
    requires DistinctTimes(s)
    ensures multiset(s)[x] <= 1
  {
    if s != [] {
      var init, last := s[..|s| - 1], s[|s| - 1];
      assert s == init + [last];
      DistinctCounts(init, x);
      forall i | 0 <= i < |init| ensures init[i] != last {
        assert s[i].ts != s[|s| - 1].ts;
      }
    }
  }

  /** A sorted rearrangement of samples with distinct times is strictly ascending. */
  lemma SortedDistinctAscends(s: seq<Sample>, out: seq<Sample>)
    requires DistinctTimes(s) && SortedByTime(out) && multiset(out) == multiset(s)
    ensures Ascending(out) && forall x :: x in out <==> x in s
  {
    forall x ensures x in out <==> x in s {
      assert x in multiset(out) <==> x in multiset(s);
    }
    forall i, j | 0 <= i < j < |out| ensures out[i].ts < out[j].ts {
      assert out[i] in multiset(s) && out[j] in multiset(s);
      if out[i].ts == out[j].ts {
        SameTimeSame(s, out[i], out[j]);
        DistinctCounts(s, out[i]);
        Twice(out, i, j);
      }
    }
  }

  lemma SameTimeSame(s: seq<Sample>, x: Sample, y: Sample)
    requires DistinctTimes(s) && x in s && y in s && x.ts == y.ts
    ensures x == y
  {
    var i :| 0 <= i < |s| && s[i] == x;
    var j :| 0 <= j < |s| && s[j] == y;
    assert i == j;
  }

  lemma Twice(s: seq<Sample>, i: nat, j: nat)
    requires i < j < |s| && s[i] == s[j]
    ensures multiset(s)[s[i]] >= 2
  {
    assert s == s[..j] + s[j..];
    assert s[i] in s[..j] && s[j] in s[j..];
  }

  /** A strictly ascending answer means that no two selected slots shared a time. */
  lemma AscendingNeedsDistinct(r: Ring, from: int, to: int, out: seq<Sample>, k: nat, l: nat)
    requires Answers(r, from, to, out) && Ascending(out) && k < l < |r.slots|
    requires from <= r.slots[k].ts <= to && from <= r.slots[l].ts <= to
    ensures r.slots[k].ts != r.slots[l].ts
  {
    var x, y := r.slots[k], r.slots[l];
    SelectedMembers(r.slots, from, to, x);
    SelectedMembers(r.slots, from, to, y);
    assert x in multiset(out) && y in multiset(out);
    DistinctCounts(out, x);
    if x.ts == y.ts {
      SameTimeSame(out, x, y);
      SelectedTwice(r.slots, from, to, k, l);
    }
  }

  lemma AnswerMembers(r: Ring, from: int, to: int, out: seq<Sample>, s: Sample)
    requires Answers(r, from, to, out)
    ensures s in out <==> s in r.slots && from <= s.ts <= to
  {
    SelectedMembers(r.slots, from, to, s);
    assert s in out <==> s in multiset(out);
  }

  /** The buckets a query asks for. */
  function First(from: int): int {
    (from + STEP - 1) / STEP
  }

  function Past(to: int): int {
    to / STEP + 1
  }

  /** No requested bucket has lost its last sample to a later heartbeat. The bucket of time zero is
      treated apart. */
  ghost predicate NothingLost(h: seq<Beat>, from: int, to: int) {
    forall b, i | First(from) <= b < Past(to) && b != 0 && LastOf(h, b, i) :: !Overwritten(h, i)
  }

  /** Slots never written to look like samples at time zero. A query over time zero comes out right if
      there are none and bucket zero is intact, or in one coincidence: a single slot was never written to
      and stands in for a lost sample that was all zero itself. */
  ghost predicate ZeroIsRight(h: seq<Beat>) {
    || ((forall k: nat | k < SLOTS :: Written(h, k)) && forall i | LastOf(h, 0, i) :: !Overwritten(h, i))
    || (OneUnwritten(h) && exists i :: LastOf(h, 0, i) && Overwritten(h, i) && SampleAt(h, i) == ZERO_SAMPLE)
  }

  ghost predicate OneUnwritten(h: seq<Beat>) {
    exists k: nat :: OnlyUnwritten(h, k)
  }

  ghost predicate OnlyUnwritten(h: seq<Beat>, k: nat) {
    k < SLOTS && !Written(h, k) && forall l: nat | l < SLOTS && l != k :: Written(h, l)
  }

  ghost predicate Complete(h: seq<Beat>, from: int, to: int) {
    NothingLost(h, from, to) && (from <= 0 <= to ==> ZeroIsRight(h))
  }

  /** For every history, in order or not, and every query: the answer is that of a store that forgets
      nothing if and only if no requested bucket has lost its slot and time zero comes out right. */
  lemma RangeIsExactIffComplete(h: seq<Beat>, from: int, to: int, out: seq<Sample>)
    requires Answers(RingOf(h), from, to, out)
    ensures out == History(h, First(from), Past(to)) <==> Complete(h, from, to)
  {
    hide RingOf, History, Answers, NothingLost, ZeroIsRight, First, Past;
    if Complete(h, from, to) {
      CompleteIsExact(h, from, to, out);
    }
    if out == History(h, First(from), Past(to)) {
      ExactLosesNothing(h, from, to, out);
      if from <= 0 <= to {
        ExactHasZeroRight(h, from, to, out);
      }
    }
  }

  lemma ExactLosesNothing(h: seq<Beat>, from: int, to: int, out: seq<Sample>)
    requires Answers(RingOf(h), from, to, out) && out == History(h, First(from), Past(to))
    ensures NothingLost(h, from, to)
  {
    hide RingOf, History, Answers, SampleAt, First, Past;
    HistoryIsExact(h, First(from), Past(to));
    forall b, i: nat | First(from) <= b < Past(to) && b != 0 && LastOf(h, b, i) ensures !Overwritten(h, i) {
      var s := SampleAt(h, i);
      assert InHistory(h, First(from), Past(to), s);
      AnswerMembers(RingOf(h), from, to, out, s);
      var k: nat :| k < SLOTS && RingOf(h).slots[k] == s;
      if Overwritten(h, i) {
        OverwrittenIsGone(h, b, i, k);
      }
    }
  }

  lemma OneUnwrittenAtMost(h: seq<Beat>, from: int, to: int, out: seq<Sample>, k: nat, l: nat)
    requires Answers(RingOf(h), from, to, out) && Ascending(out) && from <= 0 <= to && k < l < SLOTS
    ensures Written(h, k) || Written(h, l)
  {
    hide RingOf, Answers, SampleAt;
    SlotCases(h, k);
    SlotCases(h, l);
    if RingOf(h).slots[k].ts == 0 && RingOf(h).slots[l].ts == 0 {
      AscendingNeedsDistinct(RingOf(h), from, to, out, k, l);
    }
  }

  lemma ExactHasZeroRight(h: seq<Beat>, from: int, to: int, out: seq<Sample>)
    requires Answers(RingOf(h), from, to, out) && out == History(h, First(from), Past(to)) && from <= 0 <= to
    ensures ZeroIsRight(h)
  {
    hide RingOf, History, Answers, SampleAt;
    HistoryIsExact(h, First(from), Past(to));
    if k: nat :| k < SLOTS && !Written(h, k) {
      forall l: nat | l < SLOTS && l != k ensures Written(h, l) {
        if k < l {
          OneUnwrittenAtMost(h, from, to, out, k, l);
        } else {
          OneUnwrittenAtMost(h, from, to, out, l, k);
        }
      }
      assert OnlyUnwritten(h, k);
      LoneZero(h, from, to, out, k);
    } else {
      forall i: nat | LastOf(h, 0, i) ensures !Overwritten(h, i) {
        ZeroIsHeld(h, from, to, out, i);
      }
    }
  }

  /** With every slot written, the sample of bucket zero can only be in its own slot. */
  lemma ZeroIsHeld(h: seq<Beat>, from: int, to: int, out: seq<Sample>, i: nat)
    requires Answers(RingOf(h), from, to, out) && from <= 0 <= to && LastOf(h, 0, i)
    requires forall k: nat | k < SLOTS :: Written(h, k)
    requires forall s :: s in out <==> InHistory(h, First(from), Past(to), s)
    ensures !Overwritten(h, i)
  {
    hide RingOf, Answers, SampleAt;
    var s := SampleAt(h, i);
    assert InHistory(h, First(from), Past(to), s);
    AnswerMembers(RingOf(h), from, to, out, s);
    var k: nat :| k < SLOTS && RingOf(h).slots[k] == s;
    BucketTime(h, 0, i);
    SlotCases(h, k);
    var j: nat :| LastIn(h, k, j) && RingOf(h).slots[k] == SampleAt(h, j)
                  && LastOf(h, Bucket(h[j].ts), j) && !Overwritten(h, j);
    SampleTime(h, j);
    OneLast(h, 0, i, j);
  }

  lemma LoneZero(h: seq<Beat>, from: int, to: int, out: seq<Sample>, k: nat)
    requires Answers(RingOf(h), from, to, out) && from <= 0 <= to && Ascending(out) && OnlyUnwritten(h, k)
    requires forall s :: s in out <==> InHistory(h, First(from), Past(to), s)
    ensures exists i :: LastOf(h, 0, i) && Overwritten(h, i) && SampleAt(h, i) == ZERO_SAMPLE
  {
    hide RingOf, Answers, SampleAt;
    SlotCases(h, k);
    AnswerMembers(RingOf(h), from, to, out, ZERO_SAMPLE);
    assert RingOf(h).slots[k] in RingOf(h).slots;
    var b, i: nat :| First(from) <= b < Past(to) && LastOf(h, b, i) && ZERO_SAMPLE == SampleAt(h, i);
    BucketTime(h, b, i);
    assert b == 0;
    assert Written(h, 0);
    if !Overwritten(h, i) {
      NotOverwrittenIsKept(h, i);
      AscendingNeedsDistinct(RingOf(h), from, to, out, 0, k);
    }
  }

  /** Under the condition the selected slots have different times. */
  lemma CompleteIsDistinct(h: seq<Beat>, from: int, to: int)
    requires Complete(h, from, to)
    ensures DistinctIn(RingOf(h).slots, from, to)
  {
    hide RingOf, SampleAt, NothingLost;
    var slots := RingOf(h).slots;
    forall k, l | 0 <= k < l < |slots| && from <= slots[k].ts <= to && from <= slots[l].ts <= to
      ensures slots[k].ts != slots[l].ts
    {
      if slots[k].ts == 0 && slots[l].ts == 0 {
        OneZero(h, k, l);
      } else if slots[k].ts != 0 && slots[l].ts != 0 {
        TimesDiffer(h, k, l);
      }
    }
  }

  /** At most one slot shows time zero. */
  lemma OneZero(h: seq<Beat>, k: nat, l: nat)
    requires ZeroIsRight(h) && k < l < SLOTS
    ensures RingOf(h).slots[k].ts != 0 || RingOf(h).slots[l].ts != 0
  {
    hide RingOf, SampleAt;
    ZeroSlot(h, k);
    ZeroSlot(h, l);
  }

  /** A written slot at time zero is slot 0, holding bucket zero's last sample. */
  lemma ZeroSlot(h: seq<Beat>, k: nat)
    requires k < SLOTS
    ensures Written(h, k) && RingOf(h).slots[k].ts == 0 ==>
              k == 0 && exists i :: LastOf(h, 0, i) && !Overwritten(h, i) && RingOf(h).slots[k] == SampleAt(h, i)
    ensures !Written(h, k) ==> RingOf(h).slots[k] == ZERO_SAMPLE
    ensures forall i: nat, j: nat | LastOf(h, 0, i) && LastOf(h, 0, j) :: i == j
  {
    hide RingOf, SampleAt, LastOf, Written, Overwritten, Bucket;
    forall i: nat, j: nat | LastOf(h, 0, i) && LastOf(h, 0, j) ensures i == j {
      OneLast(h, 0, i, j);
    }
    SlotCases(h, k);
    if Written(h, k) && RingOf(h).slots[k].ts == 0 {
      var i: nat :| LastIn(h, k, i) && RingOf(h).slots[k] == SampleAt(h, i)
                    && LastOf(h, Bucket(h[i].ts), i) && !Overwritten(h, i);
      SampleTime(h, i);
    }
  }

  lemma CompleteIsExact(h: seq<Beat>, from: int, to: int, out: seq<Sample>)
    requires Answers(RingOf(h), from, to, out) && Complete(h, from, to)
    ensures out == History(h, First(from), Past(to))
  {
    hide RingOf, History, SampleAt, Selected, Complete, InHistory;
    CompleteIsDistinct(h, from, to);
    SelectedDistinct(RingOf(h).slots, from, to);
    SortedDistinctAscends(Selected(RingOf(h).slots, from, to), out);
    HistoryIsExact(h, First(from), Past(to));
    forall s ensures s in out <==> s in History(h, First(from), Past(to)) {
      AnswerMembers(RingOf(h), from, to, out, s);
      HeldIsHistory(h, from, to, s);
      HistoryIsHeld(h, from, to, s);
    }
    AscendingUnique(out, History(h, First(from), Past(to)));
  }

  lemma HeldIsHistory(h: seq<Beat>, from: int, to: int, s: Sample)
    requires Complete(h, from, to)
    ensures s in RingOf(h).slots && from <= s.ts <= to ==> InHistory(h, First(from), Past(to), s)
  {
    hide RingOf, SampleAt;
    if s in RingOf(h).slots && from <= s.ts <= to {
      var k: nat :| k < SLOTS && RingOf(h).slots[k] == s;
      if s.ts != 0 {
        TimedSlot(h, k);
        var b, i: nat :| LastOf(h, b, i) && s == SampleAt(h, i) && s.ts == STEP * b && GoMod(b, SLOTS) == k
            && !Overwritten(h, i);
        assert First(from) <= b < Past(to);
      } else {
        ZeroSlot(h, k);
        assert First(from) <= 0 < Past(to);
      }
    }
  }

  lemma HistoryIsHeld(h: seq<Beat>, from: int, to: int, s: Sample)
    requires Complete(h, from, to)
    ensures InHistory(h, First(from), Past(to), s) ==> s in RingOf(h).slots && from <= s.ts <= to
  {
    hide RingOf, SampleAt;
    if InHistory(h, First(from), Past(to), s) {
      var b, i: nat :| First(from) <= b < Past(to) && LastOf(h, b, i) && s == SampleAt(h, i);
      BucketTime(h, b, i);
      if !Overwritten(h, i) {
        NotOverwrittenIsKept(h, i);
      } else {
        assert b == 0;
        var k: nat :| OnlyUnwritten(h, k);
        SlotCases(h, k);
        ZeroSlot(h, k);
      }
    }
  }

  /** After the epoch the condition is just that no requested bucket's slot was reused. */
  lemma RangeAfterEpoch(h: seq<Beat>, from: int, to: int, out: seq<Sample>)
    requires from > 0 && Answers(RingOf(h), from, to, out)
    ensures out == History(h, First(from), Past(to)) <==>
            forall b, i | First(from) <= b < Past(to) && LastOf(h, b, i) :: !Overwritten(h, i)
  {
    hide RingOf, History, Answers, LastOf;
    RangeIsExactIffComplete(h, from, to, out);
    assert First(from) > 0;
  }

  /** For heartbeats in order the condition holds for every query that starts after the epoch and reaches
      back less than a day. */
  lemma RangeIsHistory(h: seq<Beat>, from: int, to: int, out: seq<Sample>)
    requires InOrder(h) && h != [] && Answers(RingOf(h), from, to, out)
    requires from > 0 && from > STEP * (Bucket(h[|h| - 1].ts) - SLOTS)
    ensures out == History(h, First(from), Past(to))
  {
    hide RingOf, History, Answers;
    RangeAfterEpoch(h, from, to, out);
    forall b, i: nat | First(from) <= b < Past(to) && LastOf(h, b, i) ensures !Overwritten(h, i) {
      RecentIsKept(h, from, b, i);
    }
  }

  /** In particular every query for the last 24 hours. */
  lemma LastDayIsHistory(h: seq<Beat>, from: int, to: int, out: seq<Sample>)
    requires InOrder(h) && h != [] && Answers(RingOf(h), from, to, out)
    requires from > 0 && h[|h| - 1].ts - from < 86_400
    ensures out == History(h, First(from), Past(to))
  {
    hide RingOf, History, Answers;
    RangeIsHistory(h, from, to, out);
  }

  /** Within the last day a slot's last write is its bucket's last write. */
  lemma RecentIsKept(h: seq<Beat>, from: int, b: int, i: nat)
    requires InOrder(h) && h != [] && LastOf(h, b, i) && b > 0
    requires STEP * b >= from && from > STEP * (Bucket(h[|h| - 1].ts) - SLOTS)
    ensures !Overwritten(h, i)
  {
    var newest := Bucket(h[|h| - 1].ts);
    forall j | i < j < |h| ensures SlotOf(h[j].ts) != SlotOf(h[i].ts) {
      var c := Bucket(h[j].ts);
      assert h[i].ts <= h[j].ts <= h[|h| - 1].ts;
      assert b < c <= newest < b + SLOTS;
      SameResidue(b, c);
    }
  }

  lemma SameResidue(b: nat, c: nat)
    requires b < c < b + SLOTS
    ensures b % SLOTS != c % SLOTS
  {
  }

  /** A bucket is lost for every query as soon as its slot is reused, at whatever distance. */
  lemma OverwrittenIsLost(h: seq<Beat>, b: int, i: nat, from: int, to: int, out: seq<Sample>)
    requires LastOf(h, b, i) && b != 0 && Overwritten(h, i) && Answers(RingOf(h), from, to, out)
    ensures SampleAt(h, i) !in out
  {
    hide RingOf, SampleAt;
    forall k: nat | k < SLOTS ensures RingOf(h).slots[k] != SampleAt(h, i) {
      OverwrittenIsGone(h, b, i, k);
    }
    AnswerMembers(RingOf(h), from, to, out, SampleAt(h, i));
  }

  /** From the epoch or before, every slot never written to is reported as a sample at time 0. */
  lemma {:induction false} EpochQueryIsSpurious(h: seq<Beat>, k: nat, from: int, to: int, out: seq<Sample>)
    requires k < SLOTS && !Written(h, k)
    requires from <= 0 <= to && Answers(RingOf(h), from, to, out)
    ensures ZERO_SAMPLE in out
  {
    SlotCases(h, k);
    AnswerMembers(RingOf(h), from, to, out, ZERO_SAMPLE);
    assert RingOf(h).slots[k] in RingOf(h).slots;
  }

  // ---- the latest sample ----

  function LatestOf(r: Ring): Option<Sample>
    requires |r.slots| == SLOTS
  {
    if r.lastTS == 0 then None else Some(r.slots[SlotOf(r.lastTS)])
  }

  /** Latest is the most recent heartbeat, whatever came before it; only a heartbeat at time 0 hides. */
  lemma LatestIsNewest(h: seq<Beat>)
    requires h != []
    ensures LatestOf(RingOf(h)) == if h[|h| - 1].ts == 0 then None else Some(SampleAt(h, |h| - 1))
  {
  }

  // ---- rates ----

  /** Rates are never negative. */
  lemma RatesAreNonNegative(h: seq<Beat>, i: nat)
    requires i < |h|
    ensures SampleAt(h, i).rxRate >= 0.0 && SampleAt(h, i).txRate >= 0.0
  {
    var r, b := RingOf(h[..i]), h[i];
    if Differentiable(r, b) {
      Ratio(b.sys.rx - r.prevRx, b.ts - r.prevTS);
      Ratio(b.sys.tx - r.prevTx, b.ts - r.prevTS);
    }
  }

  /** What the sample of a heartbeat says: its load figures as reported, memory and disk in percent, the time
      rounded to 30 s. */
  lemma SampleSays(h: seq<Beat>, i: nat)
    requires i < |h|
    ensures var s, b := SampleAt(h, i), h[i];
            && s.cpu == b.sys.cpu && s.load == b.sys.load && s.memUsed == b.sys.memUsed && s.memTotal == b.sys.memTotal
            && s.ts % 30 == 0 && -30 < b.ts - s.ts < 30 && (b.ts >= 0 ==> s.ts <= b.ts)
            && (b.sys.memTotal == 0 ==> s.mem == 0.0)
            && s.mem * b.sys.memTotal as real == (if b.sys.memTotal > 0 then 100 * b.sys.memUsed else 0) as real
            && (b.sys.diskTotal == 0 ==> s.disk == 0.0)
            && s.disk * b.sys.diskTotal as real == (if b.sys.diskTotal > 0 then 100 * b.sys.diskUsed else 0) as real
  {
    hide RingOf, Percent, GoMod;
    var b := h[i];
    Share(b.sys.memUsed, b.sys.memTotal);
    Share(b.sys.diskUsed, b.sys.diskTotal);
    Rounded(b.ts);
  }

  /** Its rates are the counters' growth over the time since the heartbeat before; there are none if that is
      the first, the time before was not positive or did not advance, or a counter fell. */
  lemma RatesAreGrowth(h: seq<Beat>, i: nat)
    requires i < |h|
    ensures var s, b := SampleAt(h, i), h[i];
            if i > 0 && 0 < h[i - 1].ts < b.ts && h[i - 1].sys.rx <= b.sys.rx && h[i - 1].sys.tx <= b.sys.tx then
              var before := h[i - 1];
              && s.rxRate * (b.ts - before.ts) as real == (b.sys.rx - before.sys.rx) as real
              && s.txRate * (b.ts - before.ts) as real == (b.sys.tx - before.sys.tx) as real
            else s.rxRate == 0.0 && s.txRate == 0.0
  {
    hide SlotIndex, Bucket, GoMod, GoDiv, Percent;
    if i > 0 && 0 < h[i - 1].ts < h[i].ts && h[i - 1].sys.rx <= h[i].sys.rx && h[i - 1].sys.tx <= h[i].sys.tx {
      RateOfStep(h, i, true);
      RateOfStep(h, i, false);
    } else {
      NoRates(h, i);
    }
  }

  lemma NoRates(h: seq<Beat>, i: nat)
    requires i < |h|
    requires i > 0 ==> !(0 < h[i - 1].ts < h[i].ts && h[i - 1].sys.rx <= h[i].sys.rx && h[i - 1].sys.tx <= h[i].sys.tx)
    ensures SampleAt(h, i).rxRate == 0.0 && SampleAt(h, i).txRate == 0.0
  {
    hide SlotIndex, Bucket, GoMod, GoDiv, Percent;
    if i > 0 {
      assert h[..i][i - 1] == h[i - 1];
    }
  }

  lemma Rounded(ts: int)
    ensures var t := ts - GoMod(ts, STEP); t % 30 == 0 && -30 < ts - t < 30 && (ts >= 0 ==> t <= ts)
  {
  }

  lemma Share(used: nat, total: nat)
    ensures Percent(used, total) * total as real == (if total > 0 then 100 * used else 0) as real
    ensures total == 0 ==> Percent(used, total) == 0.0
  {
    if total > 0 {
      var x, y := used as real, total as real;
      Scaled(x, y);
      assert x * 100.0 == (100 * used) as real;
    }
  }

  lemma Scaled(x: real, y: real)
    requires y > 0.0
    ensures x / y * 100.0 * y == x * 100.0
  {
    var q := x / y;
    assert q * y == x;
    assert q * 100.0 * y == q * y * 100.0;
  }

  lemma Ratio(x: int, y: int)
    requires x >= 0 && y > 0
    ensures x as real / y as real >= 0.0 && x as real / y as real * y as real == x as real
  {
  }

  /** Time strictly advances from a positive start and neither counter is reset. */
  ghost predicate ResetFree(h: seq<Beat>) {
    && (h != [] ==> h[0].ts > 0)
    && forall i | 0 < i < |h| :: h[i - 1].ts < h[i].ts && h[i - 1].sys.rx <= h[i].sys.rx
        && h[i - 1].sys.tx <= h[i].sys.tx
  }

  function Rate(s: Sample, sent: bool): real {
    if sent then s.txRate else s.rxRate
  }

  function Counter(b: Beat, sent: bool): nat {
    if sent then b.sys.tx else b.sys.rx
  }

  /** The received or sent bytes the recorded rates account for. */
  ghost function Accounted(h: seq<Beat>, sent: bool): real {
    if |h| <= 1 then 0.0
    else
      var n := |h| - 1;
      Accounted(h[..n], sent) + Rate(SampleAt(h, n), sent) * (h[n].ts - h[n - 1].ts) as real
  }

  /** Over a reset-free run the rates add up to exactly the counters' growth. */
  lemma {:induction false} RatesTelescope(h: seq<Beat>, sent: bool)
    requires h != [] && ResetFree(h)
    ensures Accounted(h, sent) == (Counter(h[|h| - 1], sent) - Counter(h[0], sent)) as real
  {
    hide SampleAt, Counter, Rate, SlotIndex, Bucket, GoMod, GoDiv;
    if |h| > 1 {
      var n := |h| - 1;
      StaysPositive(h, n - 1);
      RateOfStep(h, n, sent);
      assert h[..n][n - 1] == h[n - 1] && h[..n][0] == h[0];
      RatesTelescope(h[..n], sent);
      Differences(Counter(h[n], sent), Counter(h[n - 1], sent), Counter(h[0], sent));
    }
  }

  lemma Differences(x: int, y: int, z: int)
    ensures (y - z) as real + (x - y) as real == (x - z) as real
  {
  }

  lemma RateOfStep(h: seq<Beat>, n: nat, sent: bool)
    requires 0 < n < |h| && h[n].ts > h[n - 1].ts > 0
    requires h[n].sys.rx >= h[n - 1].sys.rx && h[n].sys.tx >= h[n - 1].sys.tx
    ensures Rate(SampleAt(h, n), sent) * (h[n].ts - h[n - 1].ts) as real
            == (Counter(h[n], sent) - Counter(h[n - 1], sent)) as real
  {
    hide SlotIndex, Bucket, GoMod, GoDiv;
    var r, b, p := RingOf(h[..n]), h[n], h[n - 1];
    assert h[..n][n - 1] == p;
    assert r.prevTS == p.ts && r.prevRx == p.sys.rx && r.prevTx == p.sys.tx;
    Ratio(b.sys.rx - p.sys.rx, b.ts - p.ts);
    Ratio(b.sys.tx - p.sys.tx, b.ts - p.ts);
  }

  lemma {:induction false} StaysPositive(h: seq<Beat>, i: nat)
    requires i < |h| && ResetFree(h)
    ensures h[i].ts > 0
  {
    if i > 0 {
      StaysPositive(h, i - 1);
    }
  }

  // ---- the store in memory ----

  class NodeRing {
    const slots: array<Sample>
    var lastTS: Stamp
    var prevRx: nat
    var prevTx: nat
    var prevTS: int

    function State(): Ring
      reads this, slots
    {
      Ring(slots[..], lastTS, prevRx, prevTx, prevTS)
    }

    constructor ()
      ensures fresh(slots) && slots.Length == SLOTS && State() == NewRing()
    {
      slots := new Sample[SLOTS](_ => ZERO_SAMPLE);
      lastTS, prevRx, prevTx, prevTS := 0, 0, 0, 0;
      new;
      assert slots[..] == NewRing().slots;
    }

    /** A negative slot index is the program's index out of range: it panics instead of storing. */
    method Ingest(ts: int, sys: SysMetrics) returns (stored: bool)
      requires slots.Length == SLOTS
      modifies this, slots
      ensures stored <==> SlotIndex(ts) >= 0
      ensures stored ==> State() == Ingested(old(State()), Beat(ts, sys))
    {
      var s := Sample(ts - GoMod(ts, STEP), sys.cpu, 0.0, 0.0, sys.load, sys.memUsed, sys.memTotal, 0.0, 0.0);
      if sys.memTotal > 0 {
        s := s.(mem := sys.memUsed as real / sys.memTotal as real * 100.0);
      }
      if sys.diskTotal > 0 {
        s := s.(disk := sys.diskUsed as real / sys.diskTotal as real * 100.0);
      }
      if prevTS > 0 && ts > prevTS && sys.rx >= prevRx && sys.tx >= prevTx {
        var dt := (ts - prevTS) as real;
        s := s.(rxRate := (sys.rx - prevRx) as real / dt, txRate := (sys.tx - prevTx) as real / dt);
      }
      prevRx, prevTx, prevTS := sys.rx, sys.tx, ts;
      var index := SlotIndex(ts);
      if index < 0 {
        return false;
      }
      lastTS := ts;
      slots[index] := s;
      stored := true;
    }

    method Range(from: int, to: int) returns (out: seq<Sample>)
      requires slots.Length == SLOTS
      ensures Answers(State(), from, to, out)
    {
      out := [];
      for i := 0 to SLOTS
        invariant out == Selected(slots[..i], from, to)
      {
        assert slots[..i + 1][..i] == slots[..i];
        var s := slots[i];
        if s.ts >= from && s.ts <= to {
          out := out + [s];
        }
      }
      assert slots[..SLOTS] == slots[..];
      var a := new Sample[|out|](i requires 0 <= i < |out| => out[i]);
      assert a[..] == out;
      SortSamples(a);
      out := a[..];
    }

    method Latest() returns (s: Option<Sample>)
      requires slots.Length == SLOTS
      ensures s == LatestOf(State())
    {
      if lastTS == 0 {
        return None;
      }
      s := Some(slots[SlotOf(lastTS)]);
    }
  }

  method Swap(a: array<Sample>, i: nat, j: nat)
    requires i < j < a.Length
    modifies a
    ensures a[..] == old(a[..])[i := old(a[j])][j := old(a[i])]
    ensures multiset(a[..]) == multiset(old(a[..]))
  {
    a[i], a[j] := a[j], a[i];
  }

  /** Insertion sort by adjacent swaps. */
  method SortSamples(a: array<Sample>)
    modifies a
    ensures SortedByTime(a[..]) && multiset(a[..]) == multiset(old(a[..]))
  {
    var i := 1;
    while i < a.Length
      invariant 1 <= i
      invariant forall p, q | 0 <= p < q < i && q < a.Length :: a[p].ts <= a[q].ts
      invariant multiset(a[..]) == multiset(old(a[..]))
    {
      var j := i;
      while j > 0 && a[j - 1].ts > a[j].ts
        invariant 0 <= j <= i
        invariant forall p, q | 0 <= p < q <= i && q != j :: a[p].ts <= a[q].ts
        invariant multiset(a[..]) == multiset(old(a[..]))
      {
        Swap(a, j - 1, j);
        j := j - 1;
      }
      i := i + 1;
    }
  }

  /** All nodes' rings; heartbeats of one node never touch another's. */
  class Metrics {
    var rings: map<NodeId, NodeRing>

    ghost predicate Valid()
      reads this
    {
      && (forall n <- rings :: rings[n].slots.Length == SLOTS)
      && forall n, m | n in rings && m in rings && n != m :: rings[n] != rings[m] && rings[n].slots != rings[m].slots
    }

    ghost function Footprint(): set<object>
      reads this
    {
      (set n | n in rings :: rings[n]) + (set n | n in rings :: rings[n].slots)
    }

    ghost function State(n: NodeId): Ring
      requires Valid()
      reads this, Footprint()
    {
      if n in rings then rings[n].State() else NewRing()
    }

    constructor ()
      ensures Valid() && rings == map[]
    {
      rings := map[];
    }

    method Ingest(n: NodeId, ts: int, sys: SysMetrics) returns (stored: bool)
      requires Valid()
      modifies this, Footprint()
      ensures Valid() && n in rings
      ensures stored <==> SlotIndex(ts) >= 0
      ensures stored ==> State(n) == Ingested(old(State(n)), Beat(ts, sys))
      ensures forall m | m != n :: State(m) == old(State(m))
    {
      if n !in rings {
        var r := new NodeRing();
        rings := rings[n := r];
      }
      stored := rings[n].Ingest(ts, sys);
    }

    method Range(n: NodeId, from: int, to: int) returns (out: seq<Sample>)
      requires Valid()
      ensures if n in rings then Answers(State(n), from, to, out) else out == []
    {
      if n !in rings {
        return [];
      }
      out := rings[n].Range(from, to);
    }

    method Latest(n: NodeId) returns (s: Option<Sample>)
      requires Valid()
      ensures s == LatestOf(State(n))
    {
      if n !in rings {
        return None;
      }
      s := rings[n].Latest();
    }

    method Drop(n: NodeId)
      requires Valid()
      modifies this
      ensures Valid() && State(n) == NewRing() && forall m | m != n :: State(m) == old(State(m))
    {
      rings := rings - {n};
    }
  }
}
