/**
 * The AdLib music player of n64_music.c: a track is a list of 4-byte
 * instructions (register, value, 16-bit little-endian delay); the sample
 * generator issues an instruction whenever the pending delay has run out
 * and renders samples in between, carrying the unfinished delay from one
 * call to the next.
 */
module Music {

  const MusicInstructionRate: nat := 560
  const AdlibOpSize: nat := 4
  const MusicNumChannels: nat := 1
  const MusicBytesPerSample: nat := 2
  const MusicSampleRate: nat := 9600

  /** The track files, by music index. */
  const MusicFiles: seq<string> := [
    "MCAVES.MNI", "MSCARRY.MNI", "MBOSS.MNI", "MRUNAWAY.MNI", "MCIRCUS.MNI",
    "MTEKWRD.MNI", "MEASYLEV.MNI", "MROCKIT.MNI", "MHAPPY.MNI", "MDEVO.MNI",
    "MDADODA.MNI", "MBELLS.MNI", "MDRUMS.MNI", "MBANJO.MNI", "MEASY2.MNI",
    "MTECK2.MNI", "MTECK3.MNI", "MTECK4.MNI", "MZZTOP.MNI"]

  /** A call into the OPL emulator: a register write, or `count` samples
   *  rendered at byte `offset` of the output stream. */
  datatype OplCall = Write(reg: bv8, val: bv8) | GetSample(offset: nat, count: nat)

  /** What a stretch of generation produced and the scheduler state it left:
   *  the instruction position and the pending delay. */
  datatype Rendered = Rendered(calls: seq<OplCall>, position: nat, delay: nat)

  /** C division of int, truncating toward zero. */
  function CDiv(a: int, b: int): (q: int)
    requires b > 0
    ensures (a >= 0 ==> q >= 0) && (a <= 0 ==> q <= 0)
  {
    if a >= 0 then a / b else -((-a) / b)
  }

  /** The remainder of C division has the sign of the dividend and is
   *  smaller than the divisor in magnitude. */
  lemma CDivTruncates(a: int, b: int)
    requires b > 0
    ensures var q := CDiv(a, b);
      && (a >= 0 ==> 0 <= a - b * q < b)
      && (a < 0 ==> -b < a - b * q <= 0)
  {
  }

  /** The stream bytes taken by a number of samples. */
  function StreamBytes(samples: nat): (n: nat)
    ensures n == 2 * samples
  {
    samples * MusicNumChannels * MusicBytesPerSample
  }

  /** The byte offset of instruction p. */
  function OpIndex(p: nat): (k: nat)
    ensures k == 4 * p
  {
    p * AdlibOpSize
  }

  /** Instruction data the player can index: whole instructions, at least one. */
  predicate WellFormed(data: seq<bv8>)
  {
    |data| >= AdlibOpSize && |data| % AdlibOpSize == 0
  }

  /** The number of instructions of a track. */
  function Count(data: seq<bv8>): nat
  {
    |data| / AdlibOpSize
  }

  /**
   * get_delay: the delay of instruction p in samples, its 16-bit
   * little-endian tick count times 9600 / 560 truncated to 17.
   */
  function GetDelay(data: seq<bv8>, p: nat): (d: nat)
    requires WellFormed(data) && p < Count(data)
    ensures d == 17 * (data[OpIndex(p) + 2] as nat + 256 * data[OpIndex(p) + 3] as nat)
    ensures d <= 17 * 65535
  {
    (MusicSampleRate / MusicInstructionRate) *
      (data[OpIndex(p) + 2] as nat + 256 * data[OpIndex(p) + 3] as nat)
  }

  /** The instruction after p: the position goes back to 0 as soon as it
   *  points past the data. */
  function NextPosition(data: seq<bv8>, p: nat): (n: nat)
    requires WellFormed(data) && p < Count(data)
    ensures n < Count(data)
    ensures n == if p + 1 == Count(data) then 0 else p + 1
  {
    if OpIndex(p + 1) >= |data| then 0 else p + 1
  }

  /** Some instruction waits at least one sample; without one the generator
   *  never finishes a call. */
  predicate HasDelay(data: seq<bv8>)
    requires WellFormed(data)
  {
    exists q :: 0 <= q < Count(data) && GetDelay(data, q) != 0
  }

  /** The first instruction from `from` on with a non-zero delay, or Count. */
  function FirstDelay(data: seq<bv8>, from: nat): (q: nat)
    requires WellFormed(data) && from <= Count(data)
    ensures from <= q <= Count(data)
    decreases Count(data) - from
  {
    if from == Count(data) then from
    else if GetDelay(data, from) != 0 then from
    else FirstDelay(data, from + 1)
  }

  /** When some instruction from `from` on has a delay, FirstDelay finds one. */
  lemma {:induction false} FirstDelayFound(data: seq<bv8>, from: nat, q: nat)
    requires WellFormed(data) && from <= q < Count(data) && GetDelay(data, q) != 0
    ensures FirstDelay(data, from) < Count(data) && GetDelay(data, FirstDelay(data, from)) != 0
    decreases q - from
  {
    if GetDelay(data, from) == 0 {
      FirstDelayFound(data, from + 1, q);
    }
  }

  /** The instruction every run of zero-delay instructions ends at. */
  function Anchor(data: seq<bv8>): (q: nat)
    requires WellFormed(data) && HasDelay(data)
    ensures q < Count(data) && GetDelay(data, q) != 0
  {
    var q :| 0 <= q < Count(data) && GetDelay(data, q) != 0;
    FirstDelayFound(data, 0, q);
    FirstDelay(data, 0)
  }

  /** How many instructions lie between p and q, going round. */
  function Ahead(n: nat, p: nat, q: nat): nat
    requires p < n
  {
    if p <= q then q - p else q + n - p
  }

  /** The register write of instruction p: its first two bytes. */
  function Op(data: seq<bv8>, p: nat): OplCall
    requires WellFormed(data) && p < Count(data)
  {
    Write(data[OpIndex(p)], data[OpIndex(p) + 1])
  }

  /** The start of a pass of the generator: what it issued and the position
   *  and delay it goes on with. */
  datatype Pass = Pass(issue: seq<OplCall>, position: nat, delay: nat)

  /** The start of a pass: with no delay pending, the instruction at the
   *  position is written, its delay becomes pending and the position moves
   *  on; otherwise nothing happens. */
  function Begin(data: seq<bv8>, position: nat, delay: nat): (b: Pass)
    requires WellFormed(data) && position < Count(data)
    ensures b.position < Count(data)
    ensures delay != 0 ==> b == Pass([], position, delay)
    ensures delay == 0 ==>
      b.issue == [Op(data, position)] && b.delay == GetDelay(data, position) && b.position == NextPosition(data, position)
  {
    if delay == 0 then Pass([Op(data, position)], NextPosition(data, position), GetDelay(data, position))
    else Pass([], position, delay)
  }

  /** A pass that leaves no delay pending brings the position one step
   *  closer to the anchor. */
  lemma BeginCloser(data: seq<bv8>, position: nat, delay: nat)
    requires WellFormed(data) && HasDelay(data) && position < Count(data)
    ensures Begin(data, position, delay).delay == 0 ==>
      Ahead(Count(data), Begin(data, position, delay).position, Anchor(data)) < Ahead(Count(data), position, Anchor(data))
  {
  }

  /**
   * One call of generate_music for i samples from instruction position
   * `position` with `delay` samples still pending, writing from byte `off`
   * of the stream: its calls into the emulator, the position and the
   * pending delay it leaves. The facts below are stated about Render; they
   * reach its definition one pass at a time, through RenderLast and
   * RenderOn.
   */
  function Render(data: seq<bv8>, position: nat, delay: nat, i: int, off: nat): (r: Rendered)
    requires WellFormed(data) && HasDelay(data) && position < Count(data)
    ensures r.position < Count(data)
    ensures i <= 0 ==> r.calls == [] && r.position == position && r.delay == delay
  {
    RenderFrom(data, position, delay, i, off)
  }

  /** Render by its passes: a request of no samples does nothing. */
  function RenderFrom(data: seq<bv8>, position: nat, delay: nat, i: int, off: nat): (r: Rendered)
    requires WellFormed(data) && HasDelay(data) && position < Count(data)
    ensures r.position < Count(data)
    decreases i, if delay == 0 then Ahead(Count(data), position, Anchor(data)) + 1 else 0, 1
  {
    if i <= 0 then Rendered([], position, delay)
    else RenderPass(data, position, delay, i, off)
  }

  /**
   * A pass of the loop of generate_music: it issues the instruction at the
   * position when no delay is pending, then either renders the rest of the
   * request (the pending delay outlasts it) or renders up to the end of
   * the delay and goes on with what is left.
   */
  function RenderPass(data: seq<bv8>, position: nat, delay: nat, i: int, off: nat): (r: Rendered)
    requires WellFormed(data) && HasDelay(data) && position < Count(data) && i > 0
    ensures r.position < Count(data)
    decreases i, if delay == 0 then Ahead(Count(data), position, Anchor(data)) + 1 else 0, 0
  {
    var b := Begin(data, position, delay);
    if b.delay > i then Rendered(b.issue + [GetSample(off, i)], b.position, b.delay - i)
    else
      BeginCloser(data, position, delay);
      var rest := RenderFrom(data, b.position, 0, i - b.delay, off + StreamBytes(b.delay));
      Rendered(b.issue + [GetSample(off, b.delay)] + rest.calls, rest.position, rest.delay)
  }

  /** A call whose first pass leaves a delay pending past the request. */
  lemma RenderLast(data: seq<bv8>, position: nat, delay: nat, i: int, off: nat)
    requires WellFormed(data) && HasDelay(data) && position < Count(data)
    requires 0 < i < Begin(data, position, delay).delay
    ensures var b := Begin(data, position, delay);
      var r := Render(data, position, delay, i, off);
      r.calls == b.issue + [GetSample(off, i)] && r.position == b.position && r.delay == b.delay - i
  {
    assert RenderFrom(data, position, delay, i, off) == RenderPass(data, position, delay, i, off);
  }

  /** A call whose first pass runs out its delay goes on as a call for the
   *  k samples left, from byte off1 of the stream, with no delay pending. */
  lemma RenderOn(data: seq<bv8>, position: nat, delay: nat, i: int, off: nat, k: nat, off1: nat)
    requires WellFormed(data) && HasDelay(data) && position < Count(data)
    requires 0 < i && k == i - Begin(data, position, delay).delay
    requires off1 == off + StreamBytes(Begin(data, position, delay).delay)
    ensures var b := Begin(data, position, delay);
      var rest := Render(data, b.position, 0, k, off1);
      var r := Render(data, position, delay, i, off);
      r.calls == b.issue + [GetSample(off, b.delay)] + rest.calls && r.position == rest.position && r.delay == rest.delay
  {
    var b := Begin(data, position, delay);
    BeginCloser(data, position, delay);
    assert RenderFrom(data, position, delay, i, off) == RenderPass(data, position, delay, i, off);
    assert Render(data, b.position, 0, k, off1) == RenderFrom(data, b.position, 0, k, off1);
  }

  /** The number of samples a list of calls renders. */
  function Samples(calls: seq<OplCall>): nat
  {
    if calls == [] then 0
    else (if calls[0].GetSample? then calls[0].count else 0) + Samples(calls[1..])
  }

  /** The register writes among a list of calls, in order. */
  function Writes(calls: seq<OplCall>): seq<OplCall>
  {
    if calls == [] then []
    else (if calls[0].Write? then [calls[0]] else []) + Writes(calls[1..])
  }

  /** Each batch of samples goes right after the previous one, from byte
   *  `off` on, two bytes per sample. */
  predicate Contiguous(calls: seq<OplCall>, off: nat)
  {
    if calls == [] then true
    else match calls[0]
      case Write(_, _) => Contiguous(calls[1..], off)
      case GetSample(o, c) => o == off && Contiguous(calls[1..], off + StreamBytes(c))
  }

  /** Every register write is the register and value bytes of one of the
   *  track's instructions. */
  predicate Issued(data: seq<bv8>, calls: seq<OplCall>)
    requires WellFormed(data)
  {
    forall k :: 0 <= k < |calls| && calls[k].Write? ==>
      exists p :: 0 <= p < Count(data) && calls[k] == Op(data, p)
  }

  lemma {:induction false} SamplesAppend(a: seq<OplCall>, b: seq<OplCall>)
    ensures Samples(a + b) == Samples(a) + Samples(b)
  {
    if a == [] {
      assert a + b == b;
    } else {
      assert (a + b)[1..] == a[1..] + b;
      SamplesAppend(a[1..], b);
    }
  }

  lemma {:induction false} WritesAppend(a: seq<OplCall>, b: seq<OplCall>)
    ensures Writes(a + b) == Writes(a) + Writes(b)
  {
    if a == [] {
      assert a + b == b;
    } else {
      assert (a + b)[1..] == a[1..] + b;
      WritesAppend(a[1..], b);
    }
  }

  lemma {:induction false} ContiguousAppend(a: seq<OplCall>, b: seq<OplCall>, off: nat)
    requires Contiguous(a, off) && Contiguous(b, off + StreamBytes(Samples(a)))
    ensures Contiguous(a + b, off)
  {
    if a == [] {
      assert a + b == b;
    } else {
      assert (a + b)[1..] == a[1..] + b;
      match a[0]
      case Write(_, _) =>
        ContiguousAppend(a[1..], b, off);
      case GetSample(o, c) =>
        ContiguousAppend(a[1..], b, off + StreamBytes(c));
    }
  }

  /** Samples, Writes and Contiguous of a single call. */
  lemma Single(c: OplCall, off: nat)
    ensures Samples([c]) == if c.GetSample? then c.count else 0
    ensures Writes([c]) == if c.Write? then [c] else []
    ensures Contiguous([c], off) <==> c.Write? || c.offset == off
  {
    assert [c][1..] == [];
  }

  /** The start of a pass renders nothing and writes at most its instruction. */
  lemma BeginQuiet(data: seq<bv8>, position: nat, delay: nat, off: nat)
    requires WellFormed(data) && position < Count(data)
    ensures var b := Begin(data, position, delay);
      Samples(b.issue) == 0 && Contiguous(b.issue, off) && Writes(b.issue) == b.issue
  {
    if delay == 0 {
      Single(Op(data, position), off);
    }
  }

  lemma SeqAssoc(x: seq<OplCall>, y: seq<OplCall>, z: seq<OplCall>)
    ensures x + (y + z) == (x + y) + z
  {
  }

  /** A batch of samples between two stretches adds no register write. */
  lemma WritesAround(a: seq<OplCall>, s: OplCall, t: seq<OplCall>)
    requires s.GetSample?
    ensures Writes(a + [s] + t) == Writes(a) + Writes(t)
    ensures Writes(a + [s]) == Writes(a)
  {
    Single(s, 0);
    WritesAppend(a + [s], t);
    WritesAppend(a, [s]);
  }

  /** generate_music renders exactly the samples asked for (none for a
   *  request of zero or less). */
  lemma {:induction false} RenderSamples(data: seq<bv8>, position: nat, delay: nat, i: int, off: nat)
    requires WellFormed(data) && HasDelay(data) && position < Count(data)
    ensures Samples(Render(data, position, delay, i, off).calls) == if i <= 0 then 0 else i
    decreases i, if delay == 0 then Ahead(Count(data), position, Anchor(data)) + 1 else 0
  {
    if i > 0 {
      var b := Begin(data, position, delay);
      BeginQuiet(data, position, delay, off);
      if b.delay > i {
        RenderLast(data, position, delay, i, off);
        SamplesAppend(b.issue, [GetSample(off, i)]);
        Single(GetSample(off, i), off);
      } else {
        BeginCloser(data, position, delay);
        var k := i - b.delay;
        var off1 := off + StreamBytes(b.delay);
        RenderOn(data, position, delay, i, off, k, off1);
        RenderSamples(data, b.position, 0, k, off1);
        var rest := Render(data, b.position, 0, k, off1);
        SamplesAppend(b.issue + [GetSample(off, b.delay)], rest.calls);
        SamplesAppend(b.issue, [GetSample(off, b.delay)]);
        Single(GetSample(off, b.delay), off);
      }
    }
  }

  /** The output cursor moves two bytes per rendered sample: the batches of
   *  one call tile the stream from its start. */
  lemma {:induction false} RenderContiguous(data: seq<bv8>, position: nat, delay: nat, i: int, off: nat)
    requires WellFormed(data) && HasDelay(data) && position < Count(data)
    ensures Contiguous(Render(data, position, delay, i, off).calls, off)
    decreases i, if delay == 0 then Ahead(Count(data), position, Anchor(data)) + 1 else 0
  {
    if i > 0 {
      var b := Begin(data, position, delay);
      BeginQuiet(data, position, delay, off);
      if b.delay > i {
        RenderLast(data, position, delay, i, off);
        Single(GetSample(off, i), off);
        ContiguousAppend(b.issue, [GetSample(off, i)], off);
      } else {
        BeginCloser(data, position, delay);
        var k := i - b.delay;
        var off1 := off + StreamBytes(b.delay);
        RenderOn(data, position, delay, i, off, k, off1);
        RenderContiguous(data, b.position, 0, k, off1);
        var rest := Render(data, b.position, 0, k, off1);
        Single(GetSample(off, b.delay), off);
        ContiguousAppend(b.issue, [GetSample(off, b.delay)], off);
        SamplesAppend(b.issue, [GetSample(off, b.delay)]);
        ContiguousAppend(b.issue + [GetSample(off, b.delay)], rest.calls, off);
      }
    }
  }

  /**
   * Carrying the pending delay over makes the split of the output into
   * calls invisible: rendering i1 samples and then i2 more (from byte off2,
   * where the first call stopped) issues the same instructions, in the same
   * order, and ends in the same state as rendering i1 + i2 samples at once.
   */
  lemma {:induction false} RenderSplit(data: seq<bv8>, position: nat, delay: nat, i1: nat, i2: nat, off: nat, off2: nat)
    requires WellFormed(data) && HasDelay(data) && position < Count(data)
    requires off2 == off + StreamBytes(i1)
    ensures var r1 := Render(data, position, delay, i1, off);
            var r2 := Render(data, r1.position, r1.delay, i2, off2);
            var r := Render(data, position, delay, i1 + i2, off);
            Writes(r.calls) == Writes(r1.calls) + Writes(r2.calls) && r.position == r2.position && r.delay == r2.delay
    decreases i1, if delay == 0 then Ahead(Count(data), position, Anchor(data)) + 1 else 0, 1
  {
    var b := Begin(data, position, delay);
    if i1 == 0 {
      assert i1 + i2 == i2 && off2 == off;
      assert Writes([]) == [];
    } else if i2 == 0 {
      assert i1 + i2 == i1;
      assert Writes([]) == [];
    } else if b.delay <= i1 {
      SplitEarly(data, position, delay, i1, i2, off, off2);
    } else if i1 + i2 < b.delay {
      SplitInside(data, position, delay, i1, i2, off, off2);
    } else {
      SplitOver(data, position, delay, i1, i2, off, off2);
    }
  }

  /** RenderSplit when the first call runs out the delay of its first pass. */
  lemma {:induction false} SplitEarly(data: seq<bv8>, position: nat, delay: nat, i1: nat, i2: nat, off: nat, off2: nat)
    requires WellFormed(data) && HasDelay(data) && position < Count(data)
    requires off2 == off + StreamBytes(i1)
    requires 0 < i1 && Begin(data, position, delay).delay <= i1
    ensures var r1 := Render(data, position, delay, i1, off);
            var r2 := Render(data, r1.position, r1.delay, i2, off2);
            var r := Render(data, position, delay, i1 + i2, off);
            Writes(r.calls) == Writes(r1.calls) + Writes(r2.calls) && r.position == r2.position && r.delay == r2.delay
    decreases i1, if delay == 0 then Ahead(Count(data), position, Anchor(data)) + 1 else 0, 0
  {
    var b := Begin(data, position, delay);
    BeginCloser(data, position, delay);
    var k1 := i1 - b.delay;
    var off1 := off + StreamBytes(b.delay);
    RenderSplit(data, b.position, 0, k1, i2, off1, off2);
    RenderOn(data, position, delay, i1, off, k1, off1);
    RenderOn(data, position, delay, i1 + i2, off, k1 + i2, off1);
    var rest1 := Render(data, b.position, 0, k1, off1);
    var restAll := Render(data, b.position, 0, k1 + i2, off1);
    var r2 := Render(data, rest1.position, rest1.delay, i2, off2);
    SplitGlue(b.issue, GetSample(off, b.delay), rest1.calls, restAll.calls, r2.calls);
  }

  /** The register writes of the inductive step of SplitEarly. */
  lemma SplitGlue(a: seq<OplCall>, s: OplCall, c1: seq<OplCall>, cAll: seq<OplCall>, c2: seq<OplCall>)
    requires s.GetSample?
    requires Writes(cAll) == Writes(c1) + Writes(c2)
    ensures Writes(a + [s] + cAll) == Writes(a + [s] + c1) + Writes(c2)
  {
    WritesAround(a, s, c1);
    WritesAround(a, s, cAll);
    SeqAssoc(Writes(a), Writes(c1), Writes(c2));
  }

  /** RenderSplit when both calls end inside the delay of the first pass. */
  lemma SplitInside(data: seq<bv8>, position: nat, delay: nat, i1: nat, i2: nat, off: nat, off2: nat)
    requires WellFormed(data) && HasDelay(data) && position < Count(data)
    requires off2 == off + StreamBytes(i1)
    requires 0 < i1 && 0 < i2 && i1 + i2 < Begin(data, position, delay).delay
    ensures var r1 := Render(data, position, delay, i1, off);
            var r2 := Render(data, r1.position, r1.delay, i2, off2);
            var r := Render(data, position, delay, i1 + i2, off);
            Writes(r.calls) == Writes(r1.calls) + Writes(r2.calls) && r.position == r2.position && r.delay == r2.delay
  {
    var b := Begin(data, position, delay);
    RenderLast(data, position, delay, i1, off);
    RenderLast(data, position, delay, i1 + i2, off);
    RenderLast(data, b.position, b.delay - i1, i2, off2);
    WritesAround(b.issue, GetSample(off, i1), []);
    WritesAround(b.issue, GetSample(off, i1 + i2), []);
    WritesAround([], GetSample(off2, i2), []);
  }

  /** RenderSplit when only the first call ends inside the delay of the
   *  first pass. */
  lemma SplitOver(data: seq<bv8>, position: nat, delay: nat, i1: nat, i2: nat, off: nat, off2: nat)
    requires WellFormed(data) && HasDelay(data) && position < Count(data)
    requires off2 == off + StreamBytes(i1)
    requires 0 < i1 < Begin(data, position, delay).delay <= i1 + i2
    ensures var r1 := Render(data, position, delay, i1, off);
            var r2 := Render(data, r1.position, r1.delay, i2, off2);
            var r := Render(data, position, delay, i1 + i2, off);
            Writes(r.calls) == Writes(r1.calls) + Writes(r2.calls) && r.position == r2.position && r.delay == r2.delay
  {
    var b := Begin(data, position, delay);
    var left := b.delay - i1;
    BeginCloser(data, position, delay);
    RenderLast(data, position, delay, i1, off);
    var k := i2 - left;
    var off1 := off + StreamBytes(b.delay);
    RenderOn(data, position, delay, i1 + i2, off, k, off1);
    RenderOn(data, b.position, left, i2, off2, k, off1);
    var tail := Render(data, b.position, 0, k, off1);
    WritesAround(b.issue, GetSample(off, i1), []);
    WritesAround(b.issue, GetSample(off, b.delay), tail.calls);
    WritesAround([], GetSample(off2, left), tail.calls);
  }

  /** Every register write of a call is the register and value of one of
   *  the track's instructions. */
  lemma {:induction false} RenderIssued(data: seq<bv8>, position: nat, delay: nat, i: int, off: nat)
    requires WellFormed(data) && HasDelay(data) && position < Count(data)
    ensures Issued(data, Render(data, position, delay, i, off).calls)
    decreases i, if delay == 0 then Ahead(Count(data), position, Anchor(data)) + 1 else 0
  {
    if i > 0 {
      var b := Begin(data, position, delay);
      var head := b.issue + [GetSample(off, if b.delay > i then i else b.delay)];
      assert Issued(data, head) by {
        forall k | 0 <= k < |head| && head[k].Write?
          ensures exists p :: 0 <= p < Count(data) && head[k] == Op(data, p)
        {
          assert k == 0 && delay == 0 && head[k] == Op(data, position);
        }
      }
      if b.delay > i {
        RenderLast(data, position, delay, i, off);
      } else {
        BeginCloser(data, position, delay);
        var k1 := i - b.delay;
        var off1 := off + StreamBytes(b.delay);
        RenderOn(data, position, delay, i, off, k1, off1);
        RenderIssued(data, b.position, 0, k1, off1);
        var rest := Render(data, b.position, 0, k1, off1);
        IssuedAppend(data, head, rest.calls);
      }
    }
  }

  /** Issued holds of a concatenation when it holds of both parts. */
  lemma IssuedAppend(data: seq<bv8>, a: seq<OplCall>, b: seq<OplCall>)
    requires WellFormed(data) && Issued(data, a) && Issued(data, b)
    ensures Issued(data, a + b)
  {
    forall k | 0 <= k < |a + b| && (a + b)[k].Write?
      ensures exists p :: 0 <= p < Count(data) && (a + b)[k] == Op(data, p)
    {
      if k < |a| {
        assert (a + b)[k] == a[k];
      } else {
        assert (a + b)[k] == b[k - |a|];
      }
    }
  }

  /**
   * The player's state: the loaded track, its index (-1 when stopped), the
   * instruction position and pending delay, whether the mixer channel is
   * playing, the file last loaded and the calls made into the OPL emulator.
   */
  class Player {
    var data: seq<bv8>
    var musicIndex: int
    var position: nat
    var delayCounter: nat
    var playing: bool
    var loadedFile: string
    var calls: seq<OplCall>

    /** The statics at start-up: no track, stopped. */
    constructor ()
      ensures data == [] && musicIndex == -1 && position == 0 && delayCounter == 0
      ensures !playing && loadedFile == "" && calls == []
    {
      data := [];
      musicIndex := -1;
      position := 0;
      delayCounter := 0;
      playing := false;
      loadedFile := "";
      calls := [];
    }

    /**
     * generate_music: renders len / 2 samples (C division) into the stream,
     * recording its calls into the emulator; the calls, the new position and
     * the pending delay are those of Render.
     */
    method GenerateMusic(len: int)
      requires WellFormed(data) && HasDelay(data) && position < Count(data)
      modifies this
      ensures data == old(data) && musicIndex == old(musicIndex) && playing == old(playing)
      ensures loadedFile == old(loadedFile)
      ensures var r := Render(data, old(position), old(delayCounter), CDiv(CDiv(len, MusicNumChannels), MusicBytesPerSample), 0);
        calls == old(calls) + r.calls && position == r.position && delayCounter == r.delay
    {
      var numSamples := CDiv(CDiv(len, MusicNumChannels), MusicBytesPerSample);
      ghost var whole := Render(data, position, delayCounter, numSamples, 0);
      ghost var done: seq<OplCall> := [];
      var stream: nat := 0;
      var i := numSamples;
      while i > 0
        invariant WellFormed(data) && HasDelay(data) && position < Count(data)
        invariant data == old(data) && musicIndex == old(musicIndex)
        invariant playing == old(playing) && loadedFile == old(loadedFile)
        invariant calls == old(calls) + done
        invariant var r := Render(data, position, delayCounter, i, stream);
          whole.calls == done + r.calls && whole.position == r.position && whole.delay == r.delay
        decreases i, if delayCounter == 0 then Ahead(Count(data), position, Anchor(data)) + 1 else 0
      {
        var left, next, finished;
        ghost var emitted;
        ghost var rest := done;
        left, next, finished, emitted := GeneratePass(i, stream);
        done := done + emitted;
        if finished {
          return;
        }
        SeqAssoc(rest, emitted, Render(data, position, delayCounter, left, next).calls);
        i, stream := left, next;
      }
    }

    /**
     * One pass of the loop of generate_music with i > 0 samples still to
     * render from byte `stream`: issues the instruction at the position
     * when no delay is pending, then either finishes the call (the pending
     * delay outlasts the request) or renders up to the end of the delay and
     * gives back the samples left and where the stream goes on. `emitted`
     * is what the pass adds to the calls.
     */
    method GeneratePass(i: int, stream: nat) returns (left: int, next: nat, finished: bool, ghost emitted: seq<OplCall>)
      requires WellFormed(data) && HasDelay(data) && position < Count(data)
      requires i > 0
      modifies this
      ensures data == old(data) && musicIndex == old(musicIndex) && playing == old(playing)
      ensures loadedFile == old(loadedFile) && position < Count(data)
      ensures calls == old(calls) + emitted
      ensures var r := Render(data, old(position), old(delayCounter), i, stream);
        if finished then emitted == r.calls && position == r.position && delayCounter == r.delay
        else
          var rest := Render(data, position, delayCounter, left, next);
          && 0 <= left <= i && delayCounter == 0
          && r.calls == emitted + rest.calls && r.position == rest.position && r.delay == rest.delay
      ensures !finished ==>
        (left < i || (old(delayCounter) == 0 && Ahead(Count(data), position, Anchor(data)) < Ahead(Count(data), old(position), Anchor(data))))
    {
      ghost var p0, d0 := position, delayCounter;
      ghost var b := Begin(data, position, delayCounter);
      BeginCloser(data, position, delayCounter);
      emitted := [];
      if delayCounter == 0 {
        calls := calls + [Write(data[OpIndex(position)], data[OpIndex(position) + 1])];
        emitted := [Write(data[OpIndex(position)], data[OpIndex(position) + 1])];
        delayCounter := GetDelay(data, position);
        position := position + 1;
        if OpIndex(position) >= |data| {
          position := 0;
        }
      }
      assert position == b.position && delayCounter == b.delay && emitted == b.issue;
      if delayCounter > i {
        delayCounter := delayCounter - i;
        calls := calls + [GetSample(stream, i)];
        emitted := emitted + [GetSample(stream, i)];
        RenderLast(data, p0, d0, i, stream);
        return i, stream, true, emitted;
      }
      // The source tests delay_counter <= i again here; it always holds.
      left := i - delayCounter;
      calls := calls + [GetSample(stream, delayCounter)];
      emitted := emitted + [GetSample(stream, delayCounter)];
      next := stream + StreamBytes(delayCounter);
      RenderOn(data, p0, d0, i, stream, left, next);
      delayCounter := 0;
      finished := false;
    }

    /** music_read: fills a mixer buffer of wlen samples, asking
     *  generate_music for 2 * wlen bytes. */
    method MusicRead(wlen: nat)
      requires WellFormed(data) && HasDelay(data) && position < Count(data)
      modifies this
      ensures data == old(data) && |calls| >= |old(calls)| && calls[..|old(calls)|] == old(calls)
      ensures Samples(calls[|old(calls)|..]) == wlen
      ensures Contiguous(calls[|old(calls)|..], 0)
      ensures var r := Render(old(data), old(position), old(delayCounter), wlen, 0);
        calls[|old(calls)|..] == r.calls && position == r.position && delayCounter == r.delay
      ensures musicIndex == old(musicIndex) && playing == old(playing) && loadedFile == old(loadedFile)
    {
      GenerateMusic(wlen * 2);
      RenderSamples(old(data), old(position), old(delayCounter), wlen, 0);
      RenderContiguous(old(data), old(position), old(delayCounter), wlen, 0);
      assert calls[|old(calls)|..] == Render(old(data), old(position), old(delayCounter), wlen, 0).calls;
    }

    /** play_music: hands the music stream to the mixer channel. */
    method PlayMusic()
      modifies this
      ensures playing
      ensures data == old(data) && musicIndex == old(musicIndex) && position == old(position)
      ensures delayCounter == old(delayCounter) && loadedFile == old(loadedFile) && calls == old(calls)
    {
      playing := true;
    }

    /** stop_music: stops the mixer channel and forgets the track index. */
    method StopMusic()
      modifies this
      ensures !playing && musicIndex == -1
      ensures data == old(data) && position == old(position) && delayCounter == old(delayCounter)
      ensures loadedFile == old(loadedFile) && calls == old(calls)
    {
      playing := false;
      musicIndex := -1;
    }

    /**
     * load_music: with audio disabled nothing happens. Otherwise the
     * scheduler restarts from the first instruction with no delay pending,
     * the track file of newIndex is loaded (its bytes are `contents`) and
     * played. The track is reloaded even when it is the one already
     * loaded: stop_music resets the index before the comparison that was
     * meant to skip the reload, so that branch is never taken.
     */
    method LoadMusic(newIndex: nat, audioEnabled: bool, contents: seq<bv8>)
      requires newIndex < |MusicFiles|
      modifies this
      ensures !audioEnabled ==>
        && data == old(data) && musicIndex == old(musicIndex) && position == old(position)
        && delayCounter == old(delayCounter) && playing == old(playing)
        && loadedFile == old(loadedFile) && calls == old(calls)
      ensures audioEnabled ==>
        && position == 0 && delayCounter == 0 && musicIndex == newIndex
        && data == contents && loadedFile == MusicFiles[newIndex] && playing
        && calls == old(calls)
    {
      if !audioEnabled {
        return;
      }
      position := 0;
      delayCounter := 0;
      if musicIndex != -1 {
        StopMusic();
      }
      if musicIndex == newIndex {
        // The replay branch: the index is -1 here and newIndex is not.
        assert false;
      }
      musicIndex := newIndex;
      loadedFile := MusicFiles[newIndex];
      data := contents;
      PlayMusic();
    }
  }
}
